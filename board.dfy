/**
  The board component's state and its handlers.  Each handler is one atomic
  step: the remote call's outcome is a parameter (`remoteOk`), the local
  storage entry `kanban-tasks` is the field `mirror` (already decoded), and a
  `Date.now()` id is a parameter.
 */
module Kanban {
  import opened Optional
  import opened JsText
  import opened Tasks

  /** The two demo cards shown when the tasks table is missing and nothing is stored locally. */
  const DemoTasks: seq<Task> := [
    Task(1, "討論新專案需求", "了解小鄭想要做什麼", Todo, "high"),
    Task(2, "更新座位圖 PORT", "把 Excel 整理好", Done, "medium")
  ]

  /** What loading every card from the store gives: the rows, or a failure with its message. */
  datatype Fetch = Fetched(rows: seq<Task>) | FetchFailed(message: string)

  /** The load error that is taken to mean "the tasks table does not exist": either phrase occurs somewhere in the message. */
  function TableMissing(message: string): (b: bool)
    ensures b <==> (exists i :: OccursAt(message, "relation", i)) || (exists i :: OccursAt(message, "does not exist", i))
  {
    IncludesIffOccurs(message, "relation");
    IncludesIffOccurs(message, "does not exist");
    Includes(message, "relation") || Includes(message, "does not exist")
  }

  /** The demo cards have distinct ids and show one in `todo` and one in `done`. */
  lemma DemoBoard()
    ensures UniqueIds(DemoTasks)
    ensures Column(DemoTasks, Todo) == [DemoTasks[0]]
    ensures Column(DemoTasks, Doing) == []
    ensures Column(DemoTasks, Done) == [DemoTasks[1]]
  {
    assert DemoTasks[1..] == [DemoTasks[1]];
    ColumnOfOne(DemoTasks[1], Todo);
    ColumnOfOne(DemoTasks[1], Doing);
    ColumnOfOne(DemoTasks[1], Done);
  }

  /** A message mentioning a missing relation anywhere is classified as a missing table. */
  lemma MissingRelationDetected(prefix: string, suffix: string)
    ensures TableMissing(prefix + "relation" + suffix)
    ensures TableMissing(prefix + "does not exist" + suffix)
  {
    var a, b := prefix + "relation" + suffix, prefix + "does not exist" + suffix;
    assert OccursAt(a, "relation", |prefix|);
    assert OccursAt(b, "does not exist", |prefix|);
  }

  /** The id a drop acts on: `parseInt` of the dragged data, unless it is `NaN` or `0` (both falsy). */
  function DropTarget(data: string): (r: Option<int>)
    ensures r.Some? ==> r.value != 0 && ParseInt(data) == r
    ensures r.None? ==> ParseInt(data).None? || ParseInt(data) == Some(0)
  {
    match ParseInt(data)
    case Some(n) => if n != 0 then Some(n) else None
    case None => None
  }

  /** A dragged card carries its id as a decimal string, which the drop reads back intact; a card with id 0 can never be moved. */
  lemma DragCarriesId(id: int)
    ensures DropTarget(Decimal(id)) == if id == 0 then None else Some(id)
  {
    ParseDecimal(id);
  }

  class Board {
    /** The cards shown. */
    var tasks: seq<Task>
    /** The decoded `kanban-tasks` entry of local storage; `None` when the entry is absent or empty. */
    var mirror: Option<seq<Task>>
    /** The creation form. */
    var newTask: Draft
    var loading: bool
    /** The message of the last load failure, shown as a banner. */
    var error: Option<string>

    /** The component as it mounts, over whatever local storage holds. */
    constructor (stored: Option<seq<Task>>)
      ensures tasks == [] && mirror == stored && newTask == EmptyDraft && loading && error == None
    {
      tasks := [];
      mirror := stored;
      newTask := EmptyDraft;
      loading := true;
      error := None;
    }

    /** `JSON.parse(localStorage.getItem('kanban-tasks') || '[]')` */
    function Saved(): (s: seq<Task>)
      reads this
      ensures mirror.None? ==> s == []
      ensures mirror.Some? ==> s == mirror.value
    {
      mirror.GetOr([])
    }

    /**
      `loadTasks`: the store's rows replace the list; on failure the message
      becomes the banner, and if the table is missing the list comes from local
      storage, or is the demo cards when nothing is stored.  Loading ends either way.
     */
    method LoadTasks(fetch: Fetch)
      modifies this
      ensures !loading
      ensures mirror == old(mirror) && newTask == old(newTask)
      ensures fetch.Fetched? ==> tasks == fetch.rows && error == old(error)
      ensures fetch.FetchFailed? ==> error == Some(fetch.message)
      ensures fetch.FetchFailed? && TableMissing(fetch.message) ==>
        tasks == if old(mirror).Some? then old(mirror).value else DemoTasks
      ensures fetch.FetchFailed? && !TableMissing(fetch.message) ==> tasks == old(tasks)
    {
      loading := true;
      match fetch {
        case Fetched(rows) =>
          tasks := rows;
        case FetchFailed(message) =>
          error := Some(message);
          if TableMissing(message) {
            tasks := if mirror.Some? then mirror.value else DemoTasks;
          }
      }
      loading := false;
    }

    /** The title input. */
    method EditTitle(value: string)
      modifies this
      ensures newTask == old(newTask).(title := value)
      ensures tasks == old(tasks) && mirror == old(mirror) && loading == old(loading) && error == old(error)
    {
      newTask := newTask.(title := value);
    }

    /** The description input. */
    method EditDescription(value: string)
      modifies this
      ensures newTask == old(newTask).(description := value)
      ensures tasks == old(tasks) && mirror == old(mirror) && loading == old(loading) && error == old(error)
    {
      newTask := newTask.(description := value);
    }

    /** The priority selector. */
    method EditPriority(value: string)
      modifies this
      ensures newTask == old(newTask).(priority := value)
      ensures tasks == old(tasks) && mirror == old(mirror) && loading == old(loading) && error == old(error)
    {
      newTask := newTask.(priority := value);
    }

    /**
      `addTask`: a blank title does nothing.  Otherwise the card goes to the
      store and the form is reset; the list waits for the store's `INSERT`.  When
      the store fails, the card (the form's fields, `freshId`, status `todo`) is
      appended to the local mirror and the list becomes the mirror.
     */
    method AddTask(remoteOk: bool, freshId: int)
      modifies this
      ensures loading == old(loading) && error == old(error)
      ensures IsBlank(old(newTask).title) ==>
        tasks == old(tasks) && mirror == old(mirror) && newTask == old(newTask)
      ensures !IsBlank(old(newTask).title) ==> newTask == EmptyDraft
      ensures !IsBlank(old(newTask).title) && remoteOk ==> tasks == old(tasks) && mirror == old(mirror)
      ensures !IsBlank(old(newTask).title) && !remoteOk ==>
        var added := old(Saved()) + [NewTask(old(newTask), freshId)];
        mirror == Some(added) && tasks == added
    {
      if IsBlank(newTask.title) {
        return;
      }
      if !remoteOk {
        var task := NewTask(newTask, freshId);
        var saved := Saved();
        saved := saved + [task];
        mirror := Some(saved);
        tasks := saved;
      }
      newTask := EmptyDraft;
    }

    /**
      `deleteTask`: the store deletes and the list waits for its `DELETE`; when
      the store fails, the local mirror loses every card with that id and the
      list becomes the mirror.
     */
    method DeleteTask(remoteOk: bool, id: int)
      modifies this
      ensures newTask == old(newTask) && loading == old(loading) && error == old(error)
      ensures remoteOk ==> tasks == old(tasks) && mirror == old(mirror)
      ensures !remoteOk ==> mirror == Some(Removed(old(Saved()), id)) && tasks == Removed(old(Saved()), id)
    {
      if !remoteOk {
        var filtered := Removed(Saved(), id);
        mirror := Some(filtered);
        tasks := filtered;
      }
    }

    /**
      `updateStatus` as the source has it: the store has no status operation,
      so the call always throws and the local mirror always takes the change,
      whatever the store's state; the list becomes the mirror.
     */
    method UpdateStatusAsWritten(id: int, status: string)
      modifies this
      ensures newTask == old(newTask) && loading == old(loading) && error == old(error)
      ensures mirror == Some(StatusSet(old(Saved()), id, status)) && tasks == StatusSet(old(Saved()), id, status)
    {
      var updated := StatusSet(Saved(), id, status);
      mirror := Some(updated);
      tasks := updated;
    }

    /**
      `updateStatus` as the other handlers are written: the store updates the
      card's status and the list waits for its `UPDATE`; when the store fails,
      the local mirror takes the change and the list becomes the mirror.
     */
    method UpdateStatus(remoteOk: bool, id: int, status: string)
      modifies this
      ensures newTask == old(newTask) && loading == old(loading) && error == old(error)
      ensures remoteOk ==> tasks == old(tasks) && mirror == old(mirror)
      ensures !remoteOk ==> mirror == Some(StatusSet(old(Saved()), id, status)) && tasks == StatusSet(old(Saved()), id, status)
    {
      if !remoteOk {
        var updated := StatusSet(Saved(), id, status);
        mirror := Some(updated);
        tasks := updated;
      }
    }

    /**
      `handleDrop` as the source has it, over `UpdateStatusAsWritten`: unless the
      dragged id reads as `NaN` or `0`, the local mirror takes the status change
      and the list becomes the mirror, whatever the store's state.
     */
    method HandleDropAsWritten(data: string, status: string)
      modifies this
      ensures newTask == old(newTask) && loading == old(loading) && error == old(error)
      ensures DropTarget(data).None? ==> tasks == old(tasks) && mirror == old(mirror)
      ensures DropTarget(data).Some? ==>
        var updated := StatusSet(old(Saved()), DropTarget(data).value, status);
        mirror == Some(updated) && tasks == updated
    {
      var taskId := ParseInt(data);
      if taskId.Some? && taskId.value != 0 {
        UpdateStatusAsWritten(taskId.value, status);
      }
    }

    /** `handleDrop` over the corrected `UpdateStatus`: a card dropped on a column moves to that column's status, unless the dragged id reads as `NaN` or `0`. */
    method HandleDrop(data: string, status: string, remoteOk: bool)
      modifies this
      ensures newTask == old(newTask) && loading == old(loading) && error == old(error)
      ensures (DropTarget(data).None? || remoteOk) ==> tasks == old(tasks) && mirror == old(mirror)
      ensures DropTarget(data).Some? && !remoteOk ==>
        var updated := StatusSet(old(Saved()), DropTarget(data).value, status);
        mirror == Some(updated) && tasks == updated
    {
      var taskId := ParseInt(data);
      if taskId.Some? && taskId.value != 0 {
        UpdateStatus(remoteOk, taskId.value, status);
      }
    }

    /** The realtime subscription's callback: one change notification merged into the list. */
    method OnChange(ev: Event)
      modifies this
      ensures tasks == Merge(old(tasks), ev)
      ensures mirror == old(mirror) && newTask == old(newTask) && loading == old(loading) && error == old(error)
    {
      tasks := Merge(tasks, ev);
    }
  }

  /**
    With the store down from the start and nothing stored: create "Plan release"
    (priority high), drag it to `doing`, delete it.  The card shows in `todo`,
    then only in `doing`, then nowhere, and the local mirror ends empty.
   */
  method ReleaseScenario(id: int) returns (todoAfterAdd: seq<Task>, todoAfterDrop: seq<Task>,
                                           doingAfterDrop: seq<Task>, finalTasks: seq<Task>,
                                           finalMirror: Option<seq<Task>>)
    requires id != 0
    ensures todoAfterAdd == [Task(id, "Plan release", "", Todo, "high")]
    ensures todoAfterDrop == [] && doingAfterDrop == [Task(id, "Plan release", "", Doing, "high")]
    ensures finalTasks == [] && finalMirror == Some([])
  {
    var b := new Board(None);
    b.LoadTasks(FetchFailed("fetch failed"));
    b.EditTitle("Plan release");
    b.EditPriority("high");
    BlankIffAllSpace(b.newTask.title);
    assert !IsSpace(b.newTask.title[0]);
    b.AddTask(false, id);
    var card := Task(id, "Plan release", "", Todo, "high");
    assert b.tasks == [card];
    ColumnOfOne(card, Todo);
    todoAfterAdd := Column(b.tasks, Todo);
    DragCarriesId(id);
    b.HandleDrop(Decimal(id), Doing, false);
    var moved := card.(status := Doing);
    assert b.tasks == [moved];
    ColumnOfOne(moved, Todo);
    ColumnOfOne(moved, Doing);
    todoAfterDrop := Column(b.tasks, Todo);
    doingAfterDrop := Column(b.tasks, Doing);
    b.DeleteTask(false, id);
    finalTasks, finalMirror := b.tasks, b.mirror;
  }

  /**
    The source's `handleDrop` with the store up: the board loaded from the
    store, nothing stored locally, and the one card dropped on `doing` empties
    the board (a card with id 0 is never dropped, so it stays).
   */
  method DropAfterRemoteLoadAsWritten(t: Task) returns (shown: seq<Task>)
    ensures shown == if t.id == 0 then [t] else []
  {
    var b := new Board(None);
    b.LoadTasks(Fetched([t]));
    DragCarriesId(t.id);
    b.HandleDropAsWritten(Decimal(t.id), Doing);
    shown := b.tasks;
  }

  /**
    The same drop with the store's update call: the board keeps its card and the
    store's `UPDATE` notification moves it to `doing`.
   */
  method DropAfterRemoteLoad(t: Task) returns (shown: seq<Task>)
    requires t.id != 0
    ensures shown == [t.(status := Doing)]
  {
    var b := new Board(None);
    b.LoadTasks(Fetched([t]));
    DragCarriesId(t.id);
    b.HandleDrop(Decimal(t.id), Doing, true);
    b.OnChange(Update(t.(status := Doing)));
    shown := b.tasks;
  }
}
