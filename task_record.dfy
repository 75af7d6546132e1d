/**
 * The study task as both planner pages store it in the user's document, and the id-based
 * queries the two pages share: `findIndex` by id and `filter` by id.
 */
module TaskRecord {
  import opened Wrappers

  /**
   * A task. `createdAt` is the creation time in milliseconds; `updatedAt` is the ISO time
   * stamp the calendar page writes when it edits or toggles a task (absent until then).
   */
  datatype Task = Task(
    id: int,
    title: string,
    subject: string,
    dueDate: string,
    priority: string,
    description: string,
    completed: bool,
    createdAt: int,
    updatedAt: Option<string>)

  /** What the pages read from the user's document: the theme and the task list (which may be absent). */
  datatype UserDoc = UserDoc(theme: string, tasks: Option<seq<Task>>)

  predicate HasId(tasks: seq<Task>, id: int) {
    exists i :: 0 <= i < |tasks| && tasks[i].id == id
  }

  /** No two tasks share an id. */
  predicate UniqueIds(tasks: seq<Task>) {
    forall i, j :: 0 <= i < j < |tasks| ==> tasks[i].id != tasks[j].id
  }

  /** `tasks.findIndex(t => t.id === id)`, with `None` for -1: the first task carrying the id. */
  function FindIndex(tasks: seq<Task>, id: int): (r: Option<nat>)
    ensures r.Some? ==> r.value < |tasks| && tasks[r.value].id == id
                        && forall j :: 0 <= j < r.value ==> tasks[j].id != id
    ensures r.None? <==> !HasId(tasks, id)
  {
    if tasks == [] then None
    else if tasks[0].id == id then Some(0)
    else
      match FindIndex(tasks[1..], id)
      case None => assert forall j :: 1 <= j < |tasks| ==> tasks[j] == tasks[1..][j - 1]; None
      case Some(i) => Some(i + 1)
  }

  /**
   * `tasks.filter(t => t.id !== id)`: every task without that id stays, in the same order,
   * and every task with it goes.
   */
  function WithoutId(tasks: seq<Task>, id: int): (r: seq<Task>)
    ensures |r| <= |tasks|
    ensures forall t :: t in r <==> t in tasks && t.id != id
    ensures !HasId(tasks, id) ==> r == tasks
    ensures HasId(tasks, id) ==> |r| < |tasks|
  {
    if tasks == [] then []
    else
      var rest := WithoutId(tasks[1..], id);
      assert forall j :: 1 <= j < |tasks| ==> tasks[j] == tasks[1..][j - 1];
      if tasks[0].id == id then rest else [tasks[0]] + rest
  }

  /** Filtering distributes over concatenation: the kept tasks keep their relative order. */
  lemma {:induction false} WithoutIdConcat(a: seq<Task>, b: seq<Task>, id: int)
    ensures WithoutId(a + b, id) == WithoutId(a, id) + WithoutId(b, id)
  {
    if a == [] {
      assert a + b == b;
    } else {
      assert (a + b)[0] == a[0] && (a + b)[1..] == a[1..] + b;
      WithoutIdConcat(a[1..], b, id);
    }
  }

  /** Removing the tasks of one id keeps the remaining ids unique. */
  lemma {:induction false} WithoutIdUnique(tasks: seq<Task>, id: int)
    requires UniqueIds(tasks)
    ensures UniqueIds(WithoutId(tasks, id))
  {
    if tasks != [] {
      var tail := tasks[1..];
      var rest := WithoutId(tail, id);
      assert UniqueIds(tail) by {
        assert forall i :: 0 <= i < |tail| ==> tail[i] == tasks[i + 1];
      }
      WithoutIdUnique(tail, id);
      if tasks[0].id != id {
        forall t | t in rest ensures t.id != tasks[0].id {
          var k :| 0 <= k < |tail| && tail[k] == t;
          assert tasks[k + 1] == t;
        }
        ConsUnique(tasks[0], rest);
      }
    }
  }

  /** A task whose id no task of a list with unique ids carries can be put in front of it. */
  lemma ConsUnique(t: Task, rest: seq<Task>)
    requires UniqueIds(rest)
    requires forall u :: u in rest ==> u.id != t.id
    ensures UniqueIds([t] + rest)
  {
    var r := [t] + rest;
    forall i, j | 0 <= i < j < |r| ensures r[i].id != r[j].id {
      if i == 0 {
        assert r[j] == rest[j - 1];
      } else {
        assert r[i] == rest[i - 1] && r[j] == rest[j - 1];
      }
    }
  }

  /** `Math.max(...tasks.map(t => t.id))` for a non-empty list. */
  function MaxId(tasks: seq<Task>): (m: int)
    requires tasks != []
    ensures forall i :: 0 <= i < |tasks| ==> tasks[i].id <= m
    ensures exists i :: 0 <= i < |tasks| && tasks[i].id == m
  {
    if |tasks| == 1 then tasks[0].id
    else
      var m := MaxId(tasks[1..]);
      assert forall j :: 1 <= j < |tasks| ==> tasks[j] == tasks[1..][j - 1];
      if tasks[0].id >= m then tasks[0].id else m
  }
}
