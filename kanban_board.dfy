/** client/src/pages/KanbanBoard.jsx: three status columns over the
    fetched tasks, and the drag handlers that move a card between columns
    and send its new status to the server. A drop target is described by
    what @dnd-kit reports of it: its id and its `data.current` object. */
module KanbanBoard {
  import opened Wrappers
  import opened Requests
  import opened ClientTask

  /** The ids of the three columns, in display order. */
  const Columns: seq<string> := ["pending", "in-progress", "completed"]

  /** A text JavaScript treats as true: present and not empty. */
  predicate Present(o: Option<string>)
  {
    o.Some? && o.value != ""
  }

  /** getTasksByStatus: the cards of one column, in list order. */
  function TasksByStatus(cs: seq<Card>, status: string): (r: seq<Card>)
    ensures forall c :: c in r <==> c in cs && c.status == status
    ensures forall c :: multiset(r)[c] == if c.status == status then multiset(cs)[c] else 0
  {
    if cs == [] then []
    else
      assert cs == [cs[0]] + cs[1..];
      (if cs[0].status == status then [cs[0]] else []) + TasksByStatus(cs[1..], status)
  }

  /** Filtering keeps the list order: the column of a concatenation is the
      concatenation of the columns. */
  lemma {:induction false} TasksByStatusConcat(a: seq<Card>, b: seq<Card>, status: string)
    ensures TasksByStatus(a + b, status) == TasksByStatus(a, status) + TasksByStatus(b, status)
  {
    if a == [] {
      assert a + b == b;
    } else {
      assert (a + b)[0] == a[0] && (a + b)[1..] == a[1..] + b;
      TasksByStatusConcat(a[1..], b, status);
    }
  }

  /** When every card has a column's status, the three columns split the
      list: together they hold each card exactly as often as the list. */
  lemma ColumnsPartition(cs: seq<Card>)
    requires forall c :: c in cs ==> c.status in Columns
    ensures multiset(TasksByStatus(cs, "pending")) + multiset(TasksByStatus(cs, "in-progress"))
          + multiset(TasksByStatus(cs, "completed")) == multiset(cs)
    ensures |TasksByStatus(cs, "pending")| + |TasksByStatus(cs, "in-progress")|
          + |TasksByStatus(cs, "completed")| == |cs|
  {
    ThreeWaySplit(cs, "pending", "in-progress", "completed");
  }

  lemma ThreeWaySplit(cs: seq<Card>, x: string, y: string, z: string)
    requires x != y && y != z && x != z
    requires forall c :: c in cs ==> c.status == x || c.status == y || c.status == z
    ensures multiset(TasksByStatus(cs, x)) + multiset(TasksByStatus(cs, y))
          + multiset(TasksByStatus(cs, z)) == multiset(cs)
    ensures |TasksByStatus(cs, x)| + |TasksByStatus(cs, y)| + |TasksByStatus(cs, z)| == |cs|
  {
    var px, py, pz := TasksByStatus(cs, x), TasksByStatus(cs, y), TasksByStatus(cs, z);
    var sum := multiset(px) + multiset(py) + multiset(pz);
    forall c ensures sum[c] == multiset(cs)[c] {
      if c in cs {
        assert c.status == x || c.status == y || c.status == z;
      } else {
        assert multiset(cs)[c] == 0;
      }
    }
    assert sum == multiset(cs);
    assert |multiset(px)| == |px| && |multiset(py)| == |py| && |multiset(pz)| == |pz|;
    assert |multiset(cs)| == |cs|;
  }

  /** What @dnd-kit reports of the element under the pointer: `type`, the
      column's `status`, and the sortable container's id. */
  datatype OverData = OverData(kind: Option<string>, status: Option<string>, containerId: Option<string>)

  /** The drop target: its id and its `data.current`, when it has one. */
  datatype Over = Over(id: Id, data: Option<OverData>)

  /** The target a droppable column reports. */
  function ColumnOver(column: string): Over
  {
    Over(column, Some(OverData(Some("column"), Some(column), None)))
  }

  /** The target a card reports: its sortable container is its column. */
  function CardOver(card: Id, column: string): Over
  {
    Over(card, Some(OverData(Some("task"), None, Some(column))))
  }

  /** handleDragOver's list update: when the pointer is over a column that
      is not the dragged card's status, that card takes the column's
      status; otherwise nothing changes. */
  function DragOverTasks(cs: seq<Card>, active: Id, over: Option<Over>): (r: seq<Card>)
    ensures |r| == |cs|
    ensures r == cs || exists col :: col in Columns && r == WithStatus(cs, active, col)
    ensures over.Some? && over.value.id in Columns && FindCard(cs, active).Some?
            && FindCard(cs, active).value.status != over.value.id ==>
      r == WithStatus(cs, active, over.value.id)
    ensures !(over.Some? && over.value.id in Columns && FindCard(cs, active).Some?
              && FindCard(cs, active).value.status != over.value.id) ==>
      r == cs
  {
    if over.None? then cs
    else
      var activeTask := FindCard(cs, active);
      if activeTask.None? then cs
      else if over.value.id in Columns && activeTask.value.status != over.value.id then
        WithStatus(cs, active, over.value.id)
      else cs
  }

  /** The target status of a drop, tried in the order the handler tries
      them: the column's own data, the sortable container, the hovered
      card's status, a column with the target's id. */
  function ResolveTarget(over: Over, cs: seq<Card>): (r: Option<string>)
    ensures over.data.Some? && over.data.value.kind == Some("column") ==> r == over.data.value.status
    ensures over.data.Some? && over.data.value.kind != Some("column") && Present(over.data.value.containerId) ==>
      r == over.data.value.containerId
    ensures over.data.None? ==> r == (if over.id in Columns then Some(over.id) else None)
  {
    if over.data.Some? && over.data.value.kind == Some("column") then over.data.value.status
    else if over.data.Some? && Present(over.data.value.containerId) then over.data.value.containerId
    else if over.data.Some? && over.data.value.kind == Some("task") then
      var overTask := FindCard(cs, over.id);
      if overTask.Some? then Some(overTask.value.status) else None
    else if over.id in Columns then Some(over.id)
    else None
  }

  /** The status handleDragEnd sends, if any: only with a drop target, a
      status captured at drag start, and a resolved target that differs
      from that captured status. */
  function DragEndTarget(original: Option<string>, over: Option<Over>, cs: seq<Card>): (r: Option<string>)
    ensures r.Some? <==>
      && over.Some? && Present(original)
      && Present(ResolveTarget(over.value, cs))
      && ResolveTarget(over.value, cs).value != original.value
    ensures r.Some? ==> r == ResolveTarget(over.value, cs) && r.value != original.value && r.value != ""
  {
    if over.None? || !Present(original) then None
    else
      var target := ResolveTarget(over.value, cs);
      if Present(target) && target.value != original.value then target else None
  }

  /** Dropping on a column, or on a card inside it, targets that column. */
  lemma DropTargets(cs: seq<Card>, column: string, card: Id)
    requires column != ""
    ensures ResolveTarget(ColumnOver(column), cs) == Some(column)
    ensures ResolveTarget(CardOver(card, column), cs) == Some(column)
  {
  }

  /** The request compares with the status captured at drag start, not with
      the status the drag-over preview already gave the card: dragging a
      card over another column and dropping it there sends that column,
      and dropping it back on its own column sends nothing. */
  lemma OriginalStatusDecides(cs: seq<Card>, active: Id, column: string)
    requires FindCard(cs, active).Some?
    requires column in Columns && column != FindCard(cs, active).value.status
    requires FindCard(cs, active).value.status != ""
    ensures var original := FindCard(cs, active).value.status;
      var moved := DragOverTasks(cs, active, Some(ColumnOver(column)));
      && moved == WithStatus(cs, active, column)
      && FindCard(moved, active).value.status == column
      && DragEndTarget(Some(original), Some(ColumnOver(column)), moved) == Some(column)
      && DragEndTarget(Some(original), Some(ColumnOver(original)), moved) == None
  {
    var original := FindCard(cs, active).value.status;
    var moved := WithStatus(cs, active, column);
    assert column != "";
    assert ColumnOver(column).id == column;
    assert DragOverTasks(cs, active, Some(ColumnOver(column))) == moved;
    WithStatusFindSame(cs, active, column);
    DropTargets(moved, column, active);
    DropTargets(moved, original, active);
  }

  class Board {
    var tasks: seq<Card>
    var activeId: Option<Id>
    var originalStatus: Option<string>
    var loading: bool

    constructor()
      ensures tasks == [] && activeId == None && originalStatus == None && loading
    {
      tasks := [];
      activeId := None;
      originalStatus := None;
      loading := true;
    }

    /** fetchTasks: the fetched list when the request succeeds (None when it
        fails, which keeps the list); loading ends either way. */
    method FetchTasks(response: Option<seq<Card>>)
      modifies this
      ensures tasks == (if response.Some? then response.value else old(tasks))
      ensures !loading
      ensures activeId == old(activeId) && originalStatus == old(originalStatus)
    {
      if response.Some? {
        tasks := response.value;
      }
      loading := false;
    }

    /** handleDragStart: remembers the dragged card's status; when no card
        has that id the remembered status stays as it was. */
    method DragStart(active: Id)
      modifies this
      ensures activeId == Some(active)
      ensures FindCard(tasks, active).Some? ==> originalStatus == Some(FindCard(tasks, active).value.status)
      ensures FindCard(tasks, active).None? ==> originalStatus == old(originalStatus)
      ensures tasks == old(tasks) && loading == old(loading)
    {
      var activeTask := FindCard(tasks, active);
      if activeTask.Some? {
        originalStatus := Some(activeTask.value.status);
      }
      activeId := Some(active);
    }

    /** handleDragOver: the preview move of the dragged card. */
    method DragOver(active: Id, over: Option<Over>)
      modifies this
      ensures tasks == DragOverTasks(old(tasks), active, over)
      ensures activeId == old(activeId) && originalStatus == old(originalStatus) && loading == old(loading)
    {
      if over.None? {
        return;
      }
      var activeTask := FindCard(tasks, active);
      if activeTask.None? {
        return;
      }
      if over.value.id in Columns && activeTask.value.status != over.value.id {
        tasks := WithStatus(tasks, active, over.value.id);
      }
    }

    /** handleDragEnd: clears the drag state, and when the drop changes the
        card's original status moves the card, sends the request and
        refetches the list. The list is refetched whether the request
        succeeds or fails, so its outcome does not matter here;
        `refetched` is what the refetch returns (None when it fails). */
    method DragEnd(active: Id, over: Option<Over>, refetched: Option<seq<Card>>)
      returns (request: Option<StatusRequest>)
      modifies this
      ensures activeId == None && originalStatus == None
      ensures var target := DragEndTarget(old(originalStatus), over, old(tasks));
        request == (if target.Some? then Some(StatusRequest(active, target.value)) else None)
      ensures request.None? ==> tasks == old(tasks) && loading == old(loading)
      ensures request.Some? ==> !loading
      ensures request.Some? && refetched.Some? ==> tasks == refetched.value
      ensures request.Some? && refetched.None? ==> tasks == WithStatus(old(tasks), active, request.value.status)
    {
      var original := originalStatus;
      activeId := None;
      originalStatus := None;
      request := None;
      if over.None? || !Present(original) {
        return;
      }
      var target := ResolveTarget(over.value, tasks);
      if Present(target) && original.value != target.value {
        tasks := WithStatus(tasks, active, target.value);
        request := Some(StatusRequest(active, target.value));
        FetchTasks(refetched);
      }
    }
  }

  /** A whole drag: start on a card, move it over another column, drop it
      there. The board sends that column as the card's new status, and the
      list the drag leaves (before the refetch answers) shows only that card
      moved. */
  method DragToColumn(b: Board, active: Id, column: string) returns (request: Option<StatusRequest>)
    requires FindCard(b.tasks, active).Some?
    requires FindCard(b.tasks, active).value.status != ""
    requires column in Columns && column != FindCard(b.tasks, active).value.status
    modifies b
    ensures request == Some(StatusRequest(active, column))
    ensures b.tasks == WithStatus(old(b.tasks), active, column)
    ensures b.activeId == None && b.originalStatus == None
  {
    OriginalStatusDecides(b.tasks, active, column);
    b.DragStart(active);
    b.DragOver(active, Some(ColumnOver(column)));
    request := b.DragEnd(active, Some(ColumnOver(column)), None);
    assert WithStatus(WithStatus(old(b.tasks), active, column), active, column) == WithStatus(old(b.tasks), active, column);
  }
}
