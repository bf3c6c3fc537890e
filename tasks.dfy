/** The task records of MainFeature.jsx and the pure list transforms its
    handlers and derived views apply to them. */
module Tasks {
  import Text

  datatype Option<T> = None | Some(value: T)

  /** One task as stored in the component's `tasks` list. Ids and
      timestamps are opaque strings supplied by the caller. */
  datatype Task = Task(id: string, title: string, completed: bool, createdAt: string, updatedAt: string)

  /** The per-task rewrites of `toggleTask` and `updateTask`. */
  datatype Edit = Flip | Retitle(title: string)

  /** The rewrite of one matching task, `now` being the clock reading its
      callback takes. */
  function Apply(e: Edit, t: Task, now: string): (u: Task)
    ensures u.id == t.id && u.createdAt == t.createdAt && u.updatedAt == now
    ensures e.Flip? ==> u.title == t.title && u.completed == !t.completed
    ensures e.Retitle? ==> u.title == e.title && u.completed == t.completed
  {
    match e
    case Flip => t.(completed := !t.completed, updatedAt := now)
    case Retitle(title) => t.(title := title, updatedAt := now)
  }

  /** `prev.map(task => task.id === id ? edited : task)`: every task whose id
      matches is rewritten by `e`, every other task is kept, positions stay.
      The callback reads the clock afresh for each match, so the readings
      come per position: `clock[i]` is what the task at `i` would get. */
  function MapMatching(s: seq<Task>, id: string, e: Edit, clock: seq<string>): (r: seq<Task>)
    requires |clock| == |s|
    ensures |r| == |s|
    ensures forall i :: 0 <= i < |s| ==> r[i] == if s[i].id == id then Apply(e, s[i], clock[i]) else s[i]
  {
    if s == [] then []
    else [if s[0].id == id then Apply(e, s[0], clock[0]) else s[0]] + MapMatching(s[1..], id, e, clock[1..])
  }

  /** The list `toggleTask(id)` leaves behind. */
  function Toggled(s: seq<Task>, id: string, clock: seq<string>): (r: seq<Task>)
    requires |clock| == |s|
    ensures |r| == |s|
    ensures forall i :: 0 <= i < |s| ==>
      r[i].id == s[i].id && r[i].title == s[i].title && r[i].createdAt == s[i].createdAt
    ensures forall i :: 0 <= i < |s| && s[i].id == id ==>
      r[i].completed == !s[i].completed && r[i].updatedAt == clock[i]
    ensures forall i :: 0 <= i < |s| && s[i].id != id ==> r[i] == s[i]
  {
    MapMatching(s, id, Flip, clock)
  }

  /** The list a successful `updateTask(id, title)` leaves behind, `title`
      being the already trimmed new title. */
  function Retitled(s: seq<Task>, id: string, title: string, clock: seq<string>): (r: seq<Task>)
    requires |clock| == |s|
    ensures |r| == |s|
    ensures forall i :: 0 <= i < |s| ==>
      r[i].id == s[i].id && r[i].completed == s[i].completed && r[i].createdAt == s[i].createdAt
    ensures forall i :: 0 <= i < |s| && s[i].id == id ==>
      r[i].title == title && r[i].updatedAt == clock[i]
    ensures forall i :: 0 <= i < |s| && s[i].id != id ==> r[i] == s[i]
  {
    MapMatching(s, id, Retitle(title), clock)
  }

  predicate HasId(s: seq<Task>, id: string) {
    exists i :: 0 <= i < |s| && s[i].id == id
  }

  /** A map over an id no task carries gives back the same list. */
  lemma MapMatchingAbsent(s: seq<Task>, id: string, e: Edit, clock: seq<string>)
    requires |clock| == |s| && !HasId(s, id)
    ensures MapMatching(s, id, e, clock) == s
  {
  }

  /** Toggling the same id twice restores every task's id, title, completed
      flag and creation time; only `updatedAt` of the matching tasks moves. */
  lemma ToggleTwice(s: seq<Task>, id: string, clock1: seq<string>, clock2: seq<string>)
    requires |clock1| == |s| && |clock2| == |s|
    ensures var r := Toggled(Toggled(s, id, clock1), id, clock2);
      |r| == |s| &&
      (forall i :: 0 <= i < |s| ==> r[i] == if s[i].id == id then s[i].(updatedAt := clock2[i]) else s[i])
  {
  }

  // ---------------------------------------------------------------------
  // Array.prototype.filter, for the predicates the component filters by

  /** The predicates the component passes to `filter`: `!t.completed`,
      `t.completed`, `true`, and `task.id !== id`. */
  datatype Criterion = Active | Completed | Any | IdIsNot(id: string)

  predicate Holds(c: Criterion, t: Task) {
    match c
    case Active => !t.completed
    case Completed => t.completed
    case Any => true
    case IdIsNot(id) => t.id != id
  }

  /** `s.filter(c)`: only tasks that satisfy `c`, and only tasks of `s`. */
  function Keep(s: seq<Task>, c: Criterion): (r: seq<Task>)
    ensures |r| <= |s|
    ensures forall i :: 0 <= i < |r| ==> Holds(c, r[i])
    ensures forall t :: t in r ==> t in s
  {
    if s == [] then []
    else if Holds(c, s[0]) then [s[0]] + Keep(s[1..], c)
    else Keep(s[1..], c)
  }

  /** `a` is `b` with some elements left out, the rest in the same order. */
  ghost predicate IsSubsequence(a: seq<Task>, b: seq<Task>)
    decreases |b|
  {
    a == [] ||
    (b != [] && ((a[0] == b[0] && IsSubsequence(a[1..], b[1..])) || IsSubsequence(a, b[1..])))
  }

  /** Filtering keeps the relative order of the tasks it keeps. */
  lemma {:induction false} KeepIsSubsequence(s: seq<Task>, c: Criterion)
    ensures IsSubsequence(Keep(s, c), s)
  {
    if s != [] {
      KeepIsSubsequence(s[1..], c);
      if Holds(c, s[0]) {
        assert ([s[0]] + Keep(s[1..], c))[1..] == Keep(s[1..], c);
      }
    }
  }

  /** Filtering keeps every copy of a task that satisfies the criterion and
      no copy of one that does not. */
  lemma {:induction false} KeepMultiplicity(s: seq<Task>, c: Criterion, t: Task)
    ensures multiset(Keep(s, c))[t] == if Holds(c, t) then multiset(s)[t] else 0
  {
    if s != [] {
      KeepMultiplicity(s[1..], c, t);
      assert s == [s[0]] + s[1..];
    }
  }

  /** A criterion every task satisfies filters nothing out. */
  lemma {:induction false} KeepAll(s: seq<Task>, c: Criterion)
    requires forall i :: 0 <= i < |s| ==> Holds(c, s[i])
    ensures Keep(s, c) == s
  {
    if s != [] {
      KeepAll(s[1..], c);
      assert s == [s[0]] + s[1..];
    }
  }

  /** Filtering keeps every task exactly when every task satisfies the
      criterion. */
  lemma {:induction false} KeepKeepsLength(s: seq<Task>, c: Criterion)
    ensures |Keep(s, c)| == |s| <==> forall i :: 0 <= i < |s| ==> Holds(c, s[i])
  {
    if s != [] {
      KeepKeepsLength(s[1..], c);
      if Holds(c, s[0]) {
        if |Keep(s[1..], c)| == |s| - 1 {
          forall i | 0 <= i < |s| ensures Holds(c, s[i]) {
            if i > 0 { assert s[i] == s[1..][i - 1]; }
          }
        }
      } else {
        assert !(forall i :: 0 <= i < |s| ==> Holds(c, s[i])) by { assert !Holds(c, s[0]); }
      }
    }
  }

  /** The active and the completed tasks split the list: every task lands in
      exactly one of the two, with its multiplicity. */
  lemma {:induction false} ActiveCompletedPartition(s: seq<Task>)
    ensures multiset(Keep(s, Active)) + multiset(Keep(s, Completed)) == multiset(s)
    ensures |Keep(s, Active)| + |Keep(s, Completed)| == |s|
    ensures forall t :: !(t in Keep(s, Active) && t in Keep(s, Completed))
  {
    if s != [] {
      ActiveCompletedPartition(s[1..]);
      assert s == [s[0]] + s[1..];
    }
  }

  /** `KeepMultiplicity` for every task at once. */
  lemma KeepMultiplicityAll(s: seq<Task>, c: Criterion)
    ensures forall t :: multiset(Keep(s, c))[t] == if Holds(c, t) then multiset(s)[t] else 0
  {
    forall t ensures multiset(Keep(s, c))[t] == if Holds(c, t) then multiset(s)[t] else 0 {
      KeepMultiplicity(s, c, t);
    }
  }

  // ---------------------------------------------------------------------
  // deleteTask

  /** The list `deleteTask(id)` leaves behind. */
  function WithoutId(s: seq<Task>, id: string): (r: seq<Task>)
    ensures !HasId(r, id)
    ensures forall t :: t in s && t.id != id ==> t in r
  {
    KeepMultiplicityAll(s, IdIsNot(id));
    var r := Keep(s, IdIsNot(id));
    assert forall t :: t in s && t.id != id ==> multiset(r)[t] > 0;
    r
  }

  /** Deleting keeps exactly the tasks with another id, each as often as
      before and in their original relative order. */
  lemma DeleteKeepsOthers(s: seq<Task>, id: string)
    ensures IsSubsequence(WithoutId(s, id), s)
    ensures forall t :: multiset(WithoutId(s, id))[t] == if t.id != id then multiset(s)[t] else 0
  {
    KeepIsSubsequence(s, IdIsNot(id));
    KeepMultiplicityAll(s, IdIsNot(id));
  }

  /** Deleting an id no task carries changes nothing. */
  lemma DeleteAbsent(s: seq<Task>, id: string)
    requires !HasId(s, id)
    ensures WithoutId(s, id) == s
  {
    KeepAll(s, IdIsNot(id));
  }

  // ---------------------------------------------------------------------
  // Derived views: filteredTasks and taskCounts

  /** The criterion of the component's `filter` string: 'active' and
      'completed' select by the flag, any other value selects every task. */
  function FilterCriterion(filter: string): (c: Criterion)
    ensures c == Active <==> filter == "active"
    ensures c == Completed <==> filter == "completed"
    ensures c != Active && c != Completed ==> c == Any
  {
    if filter == "active" then Active
    else if filter == "completed" then Completed
    else Any
  }

  /** `filteredTasks`. */
  function FilteredTasks(tasks: seq<Task>, filter: string): (r: seq<Task>)
    ensures forall i :: 0 <= i < |r| ==>
      (filter == "active" ==> !r[i].completed) && (filter == "completed" ==> r[i].completed)
    ensures forall t :: t in r ==> t in tasks
  {
    Keep(tasks, FilterCriterion(filter))
  }

  /** The filtered view is an order-preserving selection of the list, and
      keeps every copy of each task the filter selects. */
  lemma FilteredIsSelection(tasks: seq<Task>, filter: string)
    ensures IsSubsequence(FilteredTasks(tasks, filter), tasks)
    ensures forall t :: multiset(FilteredTasks(tasks, filter))[t] ==
                       (if Holds(FilterCriterion(filter), t) then multiset(tasks)[t] else 0)
  {
    KeepIsSubsequence(tasks, FilterCriterion(filter));
    KeepMultiplicityAll(tasks, FilterCriterion(filter));
  }

  /** A filter other than 'active' or 'completed' shows every task. */
  lemma FilterOtherShowsAll(tasks: seq<Task>, filter: string)
    requires filter != "active" && filter != "completed"
    ensures FilteredTasks(tasks, filter) == tasks
  {
    KeepAll(tasks, Any);
  }

  /** The 'active' and 'completed' views split the list between them. */
  lemma ActiveCompletedViewsPartition(tasks: seq<Task>)
    ensures multiset(FilteredTasks(tasks, "active")) + multiset(FilteredTasks(tasks, "completed")) == multiset(tasks)
    ensures forall t :: !(t in FilteredTasks(tasks, "active") && t in FilteredTasks(tasks, "completed"))
  {
    ActiveCompletedPartition(tasks);
  }

  /** `taskCounts`. */
  datatype TaskCounts = TaskCounts(all: nat, active: nat, completed: nat)

  /** Each count is the length of the view its filter tab shows, and the
      active and completed counts add up to the total. */
  function CountTasks(tasks: seq<Task>): (r: TaskCounts)
    ensures r.all == |tasks| == |FilteredTasks(tasks, "all")|
    ensures r.active == |FilteredTasks(tasks, "active")|
    ensures r.completed == |FilteredTasks(tasks, "completed")|
    ensures r.active + r.completed == r.all
  {
    ActiveCompletedPartition(tasks);
    FilterOtherShowsAll(tasks, "all");
    TaskCounts(|tasks|, |Keep(tasks, Active)|, |Keep(tasks, Completed)|)
  }

  /** The condition under which the summary shows its celebration icon. */
  predicate AllDone(c: TaskCounts) {
    c.completed > 0 && c.completed == c.all
  }

  /** The celebration shows exactly when there is a task and every task is
      completed. */
  lemma AllDoneIff(tasks: seq<Task>)
    ensures AllDone(CountTasks(tasks)) <==> |tasks| > 0 && forall i :: 0 <= i < |tasks| ==> tasks[i].completed
  {
    KeepKeepsLength(tasks, Completed);
  }

  // ---------------------------------------------------------------------
  // Titles

  /** Every title is non-empty and already trimmed, as `addTask` and
      `updateTask` leave them. */
  predicate TitlesTrimmed(s: seq<Task>) {
    forall i :: 0 <= i < |s| ==> TitleTrimmed(s[i].title)
  }

  predicate TitleTrimmed(title: string) {
    title != [] && Text.Trim(title) == title
  }

  /** The task `addTask` prepends has a trimmed, non-empty title. */
  lemma AddKeepsTitlesTrimmed(s: seq<Task>, raw: string, id: string, createdAt: string, updatedAt: string)
    requires TitlesTrimmed(s) && !Text.IsBlank(raw)
    ensures TitlesTrimmed([Task(id, Text.Trim(raw), false, createdAt, updatedAt)] + s)
  {
    Text.TrimIdempotent(raw);
  }

  /** Toggling leaves titles as they were. */
  lemma ToggleKeepsTitlesTrimmed(s: seq<Task>, id: string, clock: seq<string>)
    requires |clock| == |s| && TitlesTrimmed(s)
    ensures TitlesTrimmed(Toggled(s, id, clock))
  {
    var r := Toggled(s, id, clock);
    forall i | 0 <= i < |r| ensures TitleTrimmed(r[i].title) {
      assert r[i].title == s[i].title;
    }
  }

  /** A successful update writes a trimmed, non-empty title. */
  lemma UpdateKeepsTitlesTrimmed(s: seq<Task>, id: string, raw: string, clock: seq<string>)
    requires |clock| == |s| && TitlesTrimmed(s) && !Text.IsBlank(raw)
    ensures TitlesTrimmed(Retitled(s, id, Text.Trim(raw), clock))
  {
    var title := Text.Trim(raw);
    Text.TrimIdempotent(raw);
    var r := Retitled(s, id, title, clock);
    forall i | 0 <= i < |r| ensures TitleTrimmed(r[i].title) {
      if s[i].id == id { assert r[i].title == title; } else { assert r[i] == s[i]; }
    }
  }

  /** Deleting keeps only tasks that were already there. */
  lemma DeleteKeepsTitlesTrimmed(s: seq<Task>, id: string)
    requires TitlesTrimmed(s)
    ensures TitlesTrimmed(WithoutId(s, id))
  {
    var r := WithoutId(s, id);
    forall i | 0 <= i < |r| ensures TitleTrimmed(r[i].title) {
      assert r[i] in s;
    }
  }
}
