/**
  The cards of the kanban board and the pure list transformations the board
  applies to them: the three realtime merge steps (`INSERT`, `UPDATE`,
  `DELETE`), the local-mirror status change, and the status columns.
 */
module Tasks {
  import opened ArrayOps

  /** A card. `status` and `priority` are the strings the store holds; nothing forces them into their enums. */
  datatype Task = Task(id: int, title: string, description: string, status: string, priority: string)

  /** The creation form: the fields of `newTask`. */
  datatype Draft = Draft(title: string, description: string, priority: string)

  /** The form as it starts and as every successful or fallback creation leaves it. */
  const EmptyDraft := Draft("", "", "medium")

  /** The ids of the three columns. */
  const Todo := "todo"
  const Doing := "doing"
  const Done := "done"

  /** A realtime change notification: `payload.eventType` with `payload.new` or the id of `payload.old`. */
  datatype Event = Insert(row: Task) | Update(row: Task) | Delete(oldId: int) | Other(eventType: string)

  /** The card the form creates in the local fallback: the form's fields and the given id; it shows in `todo` and in no other column. */
  function NewTask(d: Draft, id: int): (t: Task)
    ensures t.id == id && OnBoard(t)
    ensures Column([t], Todo) == [t] && Column([t], Doing) == [] && Column([t], Done) == []
  {
    Task(id, d.title, d.description, Todo, d.priority)
  }

  function IdOf(t: Task): int { t.id }

  /** The ids of a list, in order. */
  function Ids(s: seq<Task>): seq<int> { Map(IdOf, s) }

  /** No two cards share an id. */
  predicate UniqueIds(s: seq<Task>) {
    forall i, j :: 0 <= i < j < |s| ==> s[i].id != s[j].id
  }

  // ---------------------------------------------------------------- INSERT

  /** `prev => [...prev, payload.new]` */
  function Inserted(prev: seq<Task>, row: Task): (r: seq<Task>)
    ensures |r| == |prev| + 1
    ensures r[..|prev|] == prev && r[|prev|] == row
  {
    prev + [row]
  }

  // ---------------------------------------------------------------- UPDATE

  /** `t => t.id === payload.new.id ? payload.new : t` */
  function Replace(row: Task): Task -> Task {
    (t: Task) => if t.id == row.id then row else t
  }

  /** `prev => prev.map(...)` with `Replace`: no card moves, and every card keeps its id. */
  function Updated(prev: seq<Task>, row: Task): (r: seq<Task>)
    ensures |r| == |prev|
    ensures forall i :: 0 <= i < |r| ==> r[i].id == prev[i].id
  {
    Map(Replace(row), prev)
  }

  /** An update keeps the length and the place of every card, and touches exactly the cards with the row's id. */
  lemma UpdateReplacesMatching(prev: seq<Task>, row: Task)
    ensures |Updated(prev, row)| == |prev|
    ensures forall i :: 0 <= i < |prev| && prev[i].id == row.id ==> Updated(prev, row)[i] == row
    ensures forall i :: 0 <= i < |prev| && prev[i].id != row.id ==> Updated(prev, row)[i] == prev[i]
    ensures Ids(Updated(prev, row)) == Ids(prev)
  {
  }

  /** An update for an id not on the list is silently dropped. */
  lemma UpdateAbsentIsNoOp(prev: seq<Task>, row: Task)
    requires forall i :: 0 <= i < |prev| ==> prev[i].id != row.id
    ensures Updated(prev, row) == prev
  {
  }

  /** Replaying the same update changes nothing more. */
  lemma UpdateIdempotent(prev: seq<Task>, row: Task)
    ensures Updated(Updated(prev, row), row) == Updated(prev, row)
  {
  }

  // ---------------------------------------------------------------- DELETE

  /** `t => t.id !== id` */
  function IdIsNot(id: int): Task -> bool {
    (t: Task) => t.id != id
  }

  /** `t => t.id === id`, the complement of `IdIsNot(id)`. */
  function IdIs(id: int): Task -> bool {
    (t: Task) => t.id == id
  }

  /** `prev => prev.filter(t => t.id !== id)`: no card with that id is left, and every other card stays. */
  function Removed(prev: seq<Task>, id: int): (r: seq<Task>)
    ensures |r| <= |prev|
    ensures forall i :: 0 <= i < |r| ==> r[i].id != id && r[i] in prev
    ensures forall i :: 0 <= i < |prev| && prev[i].id != id ==> prev[i] in r
  {
    Filter(IdIsNot(id), prev)
  }

  /**
    A delete removes every occurrence of every card with that id, keeps every
    occurrence of every other card, and the list shrinks by the number of
    cards that had the id.
   */
  lemma {:induction false} DeleteRemovesExactly(prev: seq<Task>, id: int)
    ensures forall i :: 0 <= i < |Removed(prev, id)| ==> Removed(prev, id)[i].id != id
    ensures forall t :: multiset(Removed(prev, id))[t] == if t.id == id then 0 else multiset(prev)[t]
    ensures |Removed(prev, id)| == |prev| - |Filter(IdIs(id), prev)|
  {
    forall t ensures multiset(Removed(prev, id))[t] == if t.id == id then 0 else multiset(prev)[t] {
      FilterMultiset(IdIsNot(id), prev, t);
    }
    FilterSplit(IdIsNot(id), IdIs(id), prev);
  }

  /** A delete keeps the survivors in their relative order: it distributes over concatenation. */
  lemma DeleteKeepsOrder(a: seq<Task>, b: seq<Task>, id: int)
    ensures Removed(a + b, id) == Removed(a, id) + Removed(b, id)
  {
    FilterConcat(IdIsNot(id), a, b);
  }

  /** A delete for an id not on the list leaves the list unchanged. */
  lemma DeleteAbsentIsNoOp(prev: seq<Task>, id: int)
    requires forall i :: 0 <= i < |prev| ==> prev[i].id != id
    ensures Removed(prev, id) == prev
  {
    FilterKeepsAll(IdIsNot(id), prev);
  }

  /** Replaying the same delete changes nothing more. */
  lemma DeleteIdempotent(prev: seq<Task>, id: int)
    ensures Removed(Removed(prev, id), id) == Removed(prev, id)
  {
    FilterKeepsAll(IdIsNot(id), Removed(prev, id));
  }

  // ---------------------------------------------------------------- MERGE

  /** The realtime callback: one change notification applied to the list. Unknown event types are ignored. */
  function Merge(prev: seq<Task>, ev: Event): (r: seq<Task>)
    ensures ev.Insert? ==> |r| == |prev| + 1 && r[..|prev|] == prev && r[|prev|] == ev.row
    ensures ev.Update? ==> |r| == |prev|
    ensures ev.Delete? ==> |r| <= |prev| && forall i :: 0 <= i < |r| ==> r[i].id != ev.oldId
    ensures ev.Other? ==> r == prev
  {
    match ev
    case Insert(row) => Inserted(prev, row)
    case Update(row) => Updated(prev, row)
    case Delete(id) => Removed(prev, id)
    case Other(_) => prev
  }

  /** A duplicated `INSERT` is not deduplicated: the card appears twice. */
  lemma InsertTwiceDuplicates(prev: seq<Task>, row: Task)
    ensures var r := Merge(Merge(prev, Insert(row)), Insert(row));
      |r| == |prev| + 2 && r[|prev|] == r[|prev| + 1] == row
  {
  }

  // ---------------------------------------------------------------- LOCAL STATUS CHANGE

  /** `t => t.id === id ? { ...t, status } : t` */
  function WithStatus(id: int, status: string): Task -> Task {
    (t: Task) => if t.id == id then t.(status := status) else t
  }

  /** `saved.map(...)` with `WithStatus`, the local-mirror status change: no card moves, and the cards with that id get the status. */
  function StatusSet(saved: seq<Task>, id: int, status: string): (r: seq<Task>)
    ensures |r| == |saved|
    ensures forall i :: 0 <= i < |r| ==> r[i].id == saved[i].id && (saved[i].id == id ==> r[i].status == status)
  {
    Map(WithStatus(id, status), saved)
  }

  /** Only the status of the cards with that id changes; length, order and every other field stay. */
  lemma StatusSetChangesOnlyStatus(saved: seq<Task>, id: int, status: string)
    ensures |StatusSet(saved, id, status)| == |saved|
    ensures forall i :: 0 <= i < |saved| ==>
      var r := StatusSet(saved, id, status)[i];
      && r.id == saved[i].id && r.title == saved[i].title
      && r.description == saved[i].description && r.priority == saved[i].priority
      && r.status == (if saved[i].id == id then status else saved[i].status)
  {
  }

  /**
    With distinct ids, the local status change is exactly what the store's
    `UPDATE` notification for the changed card would do to the same list.
   */
  lemma StatusSetIsRealtimeUpdate(saved: seq<Task>, k: int, status: string)
    requires UniqueIds(saved) && 0 <= k < |saved|
    ensures StatusSet(saved, saved[k].id, status) == Merge(saved, Update(saved[k].(status := status)))
  {
  }

  /** Every local change keeps distinct ids distinct (an append does when its id is new). */
  lemma LocalChangesKeepIdsUnique(saved: seq<Task>, t: Task, id: int, status: string)
    requires UniqueIds(saved)
    ensures (forall i :: 0 <= i < |saved| ==> saved[i].id != t.id) ==> UniqueIds(Inserted(saved, t))
    ensures UniqueIds(StatusSet(saved, id, status))
    ensures UniqueIds(Removed(saved, id))
  {
    FilterKeepsIdsUnique(IdIsNot(id), saved);
  }

  /** Filtering a list with distinct ids leaves distinct ids. */
  lemma {:induction false} FilterKeepsIdsUnique(p: Task -> bool, s: seq<Task>)
    requires UniqueIds(s)
    ensures UniqueIds(Filter(p, s))
  {
    if s != [] {
      var rest := Filter(p, s[1..]);
      FilterKeepsIdsUnique(p, s[1..]);
      if p(s[0]) {
        HeadIdNotInTail(s);
        var r := [s[0]] + rest;
        assert forall k :: 0 <= k < |rest| ==> rest[k] in s[1..];
        forall i, j | 0 <= i < j < |r| ensures r[i].id != r[j].id {
          assert r[j] == rest[j - 1];
          if i > 0 {
            assert r[i] == rest[i - 1];
          }
        }
      }
    }
  }

  /** In a list with distinct ids, no later card has the first card's id. */
  lemma HeadIdNotInTail(s: seq<Task>)
    requires UniqueIds(s) && s != []
    ensures forall x :: x in s[1..] ==> x.id != s[0].id
  {
    forall x | x in s[1..] ensures x.id != s[0].id {
      var k :| 0 <= k < |s[1..]| && s[1..][k] == x;
      assert s[k + 1] == x;
    }
  }

  // ---------------------------------------------------------------- COLUMNS

  /** `t => t.status === status` */
  function HasStatus(status: string): Task -> bool {
    (t: Task) => t.status == status
  }

  /** `tasks.filter(t => t.status === col.id)`: the cards shown in one column, in list order; exactly the cards with that status. */
  function Column(tasks: seq<Task>, status: string): (r: seq<Task>)
    ensures |r| <= |tasks|
    ensures forall i :: 0 <= i < |r| ==> r[i].status == status && r[i] in tasks
    ensures forall i :: 0 <= i < |tasks| && tasks[i].status == status ==> tasks[i] in r
  {
    Filter(HasStatus(status), tasks)
  }

  /** The card's status names one of the three columns. */
  predicate OnBoard(t: Task) {
    t.status == Todo || t.status == Doing || t.status == Done
  }

  /** Cards whose status names no column: counted in the total, shown nowhere. */
  function OffBoard(): Task -> bool {
    (t: Task) => !OnBoard(t)
  }

  /**
    The three column counts and the off-board cards add up to the total, so
    the column counts sum to `tasks.length` exactly when every card is on the board.
   */
  lemma {:induction false} ColumnCounts(tasks: seq<Task>)
    ensures |Column(tasks, Todo)| + |Column(tasks, Doing)| + |Column(tasks, Done)| + |Filter(OffBoard(), tasks)| == |tasks|
    ensures |Column(tasks, Todo)| + |Column(tasks, Doing)| + |Column(tasks, Done)| == |tasks|
        <==> forall i :: 0 <= i < |tasks| ==> OnBoard(tasks[i])
  {
    if tasks != [] {
      ColumnCounts(tasks[1..]);
    }
    if exists i :: 0 <= i < |tasks| && !OnBoard(tasks[i]) {
      var i :| 0 <= i < |tasks| && !OnBoard(tasks[i]);
      assert OffBoard()(tasks[i]);
      assert tasks[i] in Filter(OffBoard(), tasks);
    }
  }

  /**
    When every card is on the board the columns partition the list: each card
    is shown in the column of its status and in no other, as often as it occurs.
   */
  lemma ColumnsPartition(tasks: seq<Task>, status: string)
    requires forall i :: 0 <= i < |tasks| ==> OnBoard(tasks[i])
    ensures multiset(Column(tasks, Todo)) + multiset(Column(tasks, Doing)) + multiset(Column(tasks, Done)) == multiset(tasks)
    ensures forall t :: t in tasks ==> (t in Column(tasks, status) <==> t.status == status)
  {
    forall t
      ensures (multiset(Column(tasks, Todo)) + multiset(Column(tasks, Doing)) + multiset(Column(tasks, Done)))[t]
           == multiset(tasks)[t]
    {
      FilterMultiset(HasStatus(Todo), tasks, t);
      FilterMultiset(HasStatus(Doing), tasks, t);
      FilterMultiset(HasStatus(Done), tasks, t);
      if t in tasks {
        var i :| 0 <= i < |tasks| && tasks[i] == t;
        assert OnBoard(tasks[i]);
      }
    }
  }

  /** A one-card list shows its card in the column of its status only. */
  lemma ColumnOfOne(t: Task, status: string)
    ensures Column([t], status) == if t.status == status then [t] else []
  {
  }

  /** A card appended by an `INSERT` shows at the bottom of its own column and changes no other column. */
  lemma InsertShowsInItsColumn(prev: seq<Task>, row: Task, status: string)
    ensures Column(Inserted(prev, row), status)
         == if row.status == status then Column(prev, status) + [row] else Column(prev, status)
  {
    FilterConcat(HasStatus(status), prev, [row]);
  }

  /** After a local status change no card with that id is left in any other column. */
  lemma StatusSetMovesCard(saved: seq<Task>, id: int, status: string, other: string)
    requires other != status
    ensures forall i :: 0 <= i < |Column(StatusSet(saved, id, status), other)| ==>
      Column(StatusSet(saved, id, status), other)[i].id != id
  {
  }
}
