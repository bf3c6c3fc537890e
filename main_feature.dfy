/** The state of the MainFeature component and the handlers that change it.
    The clock and the id generator are parameters: each handler receives the
    id or timestamps the component would read from `Date`. */
module Component {
  import Text
  import opened Tasks

  class MainFeature {
    var tasks: seq<Task>
    var newTask: string
    var filter: string
    var editingTaskId: Option<string>
    var editingTaskTitle: string

    /** The initial `useState` values. */
    constructor ()
      ensures tasks == [] && newTask == [] && filter == "all"
      ensures editingTaskId == None && editingTaskTitle == []
    {
      tasks := [];
      newTask := [];
      filter := "all";
      editingTaskId := None;
      editingTaskTitle := [];
    }

    /** The new-task input's change handler. */
    method SetNewTask(value: string)
      modifies this
      ensures newTask == value
      ensures tasks == old(tasks) && filter == old(filter)
      ensures editingTaskId == old(editingTaskId) && editingTaskTitle == old(editingTaskTitle)
    {
      newTask := value;
    }

    /** A filter tab's click handler. */
    method SetFilter(value: string)
      modifies this
      ensures filter == value
      ensures tasks == old(tasks) && newTask == old(newTask)
      ensures editingTaskId == old(editingTaskId) && editingTaskTitle == old(editingTaskTitle)
    {
      filter := value;
    }

    /** The edit input's change handler. */
    method SetEditingTaskTitle(value: string)
      modifies this
      ensures editingTaskTitle == value
      ensures tasks == old(tasks) && newTask == old(newTask)
      ensures filter == old(filter) && editingTaskId == old(editingTaskId)
    {
      editingTaskTitle := value;
    }

    /** `addTask`: a blank input is ignored; otherwise a task titled with
        the trimmed input goes in front of the list and the input clears. */
    method AddTask(id: string, createdAt: string, updatedAt: string)
      modifies this
      ensures Text.IsBlank(old(newTask)) ==> tasks == old(tasks) && newTask == old(newTask)
      ensures !Text.IsBlank(old(newTask)) ==>
        tasks == [Task(id, Text.Trim(old(newTask)), false, createdAt, updatedAt)] + old(tasks)
        && |tasks| == |old(tasks)| + 1 && newTask == []
      ensures filter == old(filter)
      ensures editingTaskId == old(editingTaskId) && editingTaskTitle == old(editingTaskTitle)
      ensures TitlesTrimmed(old(tasks)) ==> TitlesTrimmed(tasks)
    {
      var title := Text.Trim(newTask);
      if title == [] {
        return;
      }
      if TitlesTrimmed(tasks) {
        AddKeepsTitlesTrimmed(tasks, newTask, id, createdAt, updatedAt);
      }
      tasks := [Task(id, title, false, createdAt, updatedAt)] + tasks;
      newTask := [];
    }

    /** `toggleTask`: flips every task carrying `id`; `clock` holds the
        reading each position's callback would take. */
    method ToggleTask(id: string, clock: seq<string>)
      requires |clock| == |tasks|
      modifies this
      ensures tasks == Toggled(old(tasks), id, clock)
      ensures !HasId(old(tasks), id) ==> tasks == old(tasks)
      ensures newTask == old(newTask) && filter == old(filter)
      ensures editingTaskId == old(editingTaskId) && editingTaskTitle == old(editingTaskTitle)
      ensures TitlesTrimmed(old(tasks)) ==> TitlesTrimmed(tasks)
    {
      ghost var before := tasks;
      tasks := Toggled(tasks, id, clock);
      if !HasId(before, id) {
        MapMatchingAbsent(before, id, Flip, clock);
      }
      if TitlesTrimmed(before) {
        ToggleKeepsTitlesTrimmed(before, id, clock);
      }
    }

    /** `updateTask`: a blank title is rejected and nothing changes;
        otherwise every task carrying `id` gets the trimmed title, and the
        component leaves editing mode whether or not a task matched;
        `clock` holds the reading each position's callback would take. */
    method UpdateTask(id: string, newTitle: string, clock: seq<string>)
      requires |clock| == |tasks|
      modifies this
      ensures Text.IsBlank(newTitle) ==>
        tasks == old(tasks) && editingTaskId == old(editingTaskId) && editingTaskTitle == old(editingTaskTitle)
      ensures !Text.IsBlank(newTitle) ==>
        tasks == Retitled(old(tasks), id, Text.Trim(newTitle), clock)
        && editingTaskId == None && editingTaskTitle == []
      ensures !HasId(old(tasks), id) ==> tasks == old(tasks)
      ensures newTask == old(newTask) && filter == old(filter)
      ensures TitlesTrimmed(old(tasks)) ==> TitlesTrimmed(tasks)
    {
      var title := Text.Trim(newTitle);
      if title != [] {
        ghost var before := tasks;
        tasks := Retitled(tasks, id, title, clock);
        editingTaskId := None;
        editingTaskTitle := [];
        if !HasId(before, id) {
          MapMatchingAbsent(before, id, Retitle(title), clock);
        }
        if TitlesTrimmed(before) {
          UpdateKeepsTitlesTrimmed(before, id, newTitle, clock);
        }
      }
    }

    /** `handleEditTask`: starts editing `task` with its current title. */
    method HandleEditTask(task: Task)
      modifies this
      ensures editingTaskId == Some(task.id) && editingTaskTitle == task.title
      ensures tasks == old(tasks) && newTask == old(newTask) && filter == old(filter)
    {
      editingTaskId := Some(task.id);
      editingTaskTitle := task.title;
    }

    /** `cancelEdit`: leaves editing mode. */
    method CancelEdit()
      modifies this
      ensures editingTaskId == None && editingTaskTitle == []
      ensures tasks == old(tasks) && newTask == old(newTask) && filter == old(filter)
    {
      editingTaskId := None;
      editingTaskTitle := [];
    }

    /** `deleteTask`: drops every task carrying `id`. */
    method DeleteTask(id: string)
      modifies this
      ensures tasks == WithoutId(old(tasks), id)
      ensures !HasId(tasks, id)
      ensures !HasId(old(tasks), id) ==> tasks == old(tasks)
      ensures newTask == old(newTask) && filter == old(filter)
      ensures editingTaskId == old(editingTaskId) && editingTaskTitle == old(editingTaskTitle)
      ensures TitlesTrimmed(old(tasks)) ==> TitlesTrimmed(tasks)
    {
      ghost var before := tasks;
      tasks := WithoutId(tasks, id);
      if !HasId(before, id) {
        DeleteAbsent(before, id);
      }
      if TitlesTrimmed(before) {
        DeleteKeepsTitlesTrimmed(before, id);
      }
    }
  }

  /** The two titles of the walkthrough below, once trimmed. */
  lemma ScenarioTrims()
    ensures Text.Trim("A") == "A" && Text.Trim(" B ") == "B"
  {
    assert Text.Trim("A") == "A" by {
      assert Text.SkipStart("A", 0) == 0 && Text.SkipEnd("A", 0, 1) == 1;
    }
    assert Text.SkipStart(" B ", 1) == 1 && Text.SkipEnd(" B ", 1, 2) == 2;
    assert Text.SkipStart(" B ", 0) == 1 && Text.SkipEnd(" B ", 1, 3) == 2;
  }

  /** Toggling the newest of two tasks with distinct ids completes it alone,
      and the counts become 2 in all, 1 active, 1 completed. */
  lemma ScenarioToggle(a: Task, b: Task, now: string)
    requires a.id != b.id && !a.completed && !b.completed
    ensures Toggled([b, a], b.id, [now, now]) == [b.(completed := true, updatedAt := now), a]
    ensures CountTasks([b.(completed := true, updatedAt := now), a]) == TaskCounts(2, 1, 1)
  {
    var b' := b.(completed := true, updatedAt := now);
    assert [b', a][1..] == [a] && [a][1..] == [];
    assert Keep([b', a], Active) == [a] && Keep([b', a], Completed) == [b'];
  }

  /** Deleting the older task's id leaves only the newer one. */
  lemma ScenarioDelete(a: Task, b: Task)
    requires a.id != b.id
    ensures WithoutId([b, a], a.id) == [b]
  {
    assert [b, a][1..] == [a] && [a][1..] == [];
    assert Keep([a], IdIsNot(a.id)) == [];
  }

  /** A single completed task counts as 1 in all, 0 active, 1 completed. */
  lemma ScenarioFinalCounts(b: Task)
    requires b.completed
    ensures CountTasks([b]) == TaskCounts(1, 0, 1)
  {
    assert [b][1..] == [];
  }

  /** A client of the component: add "A", add " B ", toggle B, delete A.
      The list is newest first, and the counts follow each step. */
  method Walkthrough(idA: string, idB: string, t1: string, t2: string, t3: string)
    returns (afterAdds: seq<Task>, afterToggle: TaskCounts, final: seq<Task>, finalCounts: TaskCounts)
    requires idA != idB
    ensures afterAdds == [Task(idB, "B", false, t2, t2), Task(idA, "A", false, t1, t1)]
    ensures afterToggle == TaskCounts(2, 1, 1)
    ensures final == [Task(idB, "B", true, t2, t3)]
    ensures finalCounts == TaskCounts(1, 0, 1)
  {
    var a := Task(idA, "A", false, t1, t1);
    var b := Task(idB, "B", false, t2, t2);
    var b' := Task(idB, "B", true, t2, t3);
    ScenarioTrims();
    ScenarioToggle(a, b, t3);
    ScenarioDelete(a, b');
    ScenarioFinalCounts(b');

    var m := new MainFeature();
    m.SetNewTask("A");
    m.AddTask(idA, t1, t1);
    m.SetNewTask(" B ");
    m.AddTask(idB, t2, t2);
    afterAdds := m.tasks;
    m.ToggleTask(idB, [t3, t3]);
    afterToggle := CountTasks(m.tasks);
    m.DeleteTask(idA);
    final := m.tasks;
    finalCounts := CountTasks(final);
  }
}
