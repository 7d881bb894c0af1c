/** server/controllers/taskController.js over a collection of tasks: the
    queries its listings send (who may see what, the date windows, the sort
    orders), the document create and update build, and the handlers as
    methods of a task store. The clock (`now`, local midnight of today) and
    the ids MongoDB generates are parameters. */
module TaskController {
  import opened Wrappers
  import opened Text
  import opened FieldErrors
  import opened Requests
  import opened TaskModel
  import opened TaskValidation
  import opened ValidateMiddleware

  /** One day in milliseconds, `setDate(getDate() + 1)` on a day with no
      clock change. */
  const DayMs := 86_400_000

  const ValidationFailed := "Validation failed"
  const TaskNotFound := "Task not found"
  const AccessDenied := "Access denied"
  const TaskDeleted := "Task deleted successfully"

  /** Role "user" sees and touches only tasks assigned to them; every other
      role sees every task. */
  predicate InScope(actor: Actor, t: Task)
  {
    actor.role != "user" || t.assignedTo == actor.id
  }

  // ---------------------------------------------------------------------
  // Queries

  /** The MongoDB filter the listings build: each present part is one
      condition, absent parts match everything. */
  datatype Filter = Filter(
    assignedTo: Option<Id>,
    status: Option<string>,
    statusNot: Option<string>,
    titleSearch: Option<string>,
    dueFrom: Option<int>,
    dueBefore: Option<int>)

  const NoFilter := Filter(None, None, None, None, None, None)

  /** A task matches when it meets every condition; a range condition on
      dueDate never matches a task without one. The title search is a
      case-insensitive substring match. */
  predicate Matches(t: Task, f: Filter)
  {
    && (f.assignedTo.Some? ==> t.assignedTo == f.assignedTo.value)
    && (f.status.Some? ==> StatusName(t.status) == f.status.value)
    && (f.statusNot.Some? ==> StatusName(t.status) != f.statusNot.value)
    && (f.titleSearch.Some? ==> Contains(ToLower(t.title), ToLower(f.titleSearch.value)))
    && (f.dueFrom.Some? ==> t.dueDate.Some? && t.dueDate.value >= f.dueFrom.value)
    && (f.dueBefore.Some? ==> t.dueDate.Some? && t.dueDate.value < f.dueBefore.value)
  }

  /** `Task.find(filter)`: the matching tasks, each as often as stored. */
  function Select(ts: seq<Task>, f: Filter): (r: seq<Task>)
    ensures forall t :: multiset(r)[t] == if Matches(t, f) then multiset(ts)[t] else 0
    ensures forall t :: t in r <==> t in ts && Matches(t, f)
  {
    if ts == [] then []
    else
      var rest := Select(ts[1..], f);
      assert ts == [ts[0]] + ts[1..];
      if Matches(ts[0], f) then [ts[0]] + rest else rest
  }

  // ---------------------------------------------------------------------
  // Sort orders

  /** The four `.sort(...)` specifications of the listings. */
  datatype SortKey = CreatedAtDesc | PriorityDesc | CompletedAtDesc | DueDateAsc

  /** Whether `a` may come before `b`. Strings compare in binary order, so
      the priority texts sort as "medium", "low", "high" descending; a
      missing date is the smallest value. */
  predicate Before(k: SortKey, a: Task, b: Task)
  {
    match k
    case CreatedAtDesc => a.createdAt >= b.createdAt
    case PriorityDesc => LexLe(PriorityName(b.priority), PriorityName(a.priority))
    case CompletedAtDesc => b.completedAt.None? || (a.completedAt.Some? && a.completedAt.value >= b.completedAt.value)
    case DueDateAsc => a.dueDate.None? || (b.dueDate.Some? && a.dueDate.value <= b.dueDate.value)
  }

  lemma BeforeTotal(k: SortKey, a: Task, b: Task)
    ensures Before(k, a, b) || Before(k, b, a)
  {
    if k == PriorityDesc {
      LexLeTotal(PriorityName(a.priority), PriorityName(b.priority));
    }
  }

  lemma BeforeTransitive(k: SortKey, a: Task, b: Task, c: Task)
    requires Before(k, a, b) && Before(k, b, c)
    ensures Before(k, a, c)
  {
    if k == PriorityDesc {
      LexLeTransitive(PriorityName(c.priority), PriorityName(b.priority), PriorityName(a.priority));
    }
  }

  predicate Sorted(k: SortKey, s: seq<Task>)
  {
    forall i, j :: 0 <= i < j < |s| ==> Before(k, s[i], s[j])
  }

  function Insert(k: SortKey, x: Task, s: seq<Task>): (r: seq<Task>)
    requires Sorted(k, s)
    ensures Sorted(k, r)
    ensures multiset(r) == multiset(s) + multiset{x}
  {
    if s == [] then [x]
    else if Before(k, x, s[0]) then
      assert forall j :: 0 <= j < |s| ==> Before(k, x, s[j]) by {
        forall j | 0 <= j < |s| ensures Before(k, x, s[j]) {
          if j > 0 { BeforeTransitive(k, x, s[0], s[j]); }
        }
      }
      [x] + s
    else
      BeforeTotal(k, x, s[0]);
      assert s == [s[0]] + s[1..];
      var rest := Insert(k, x, s[1..]);
      HeadBeforeAll(k, s[0], s[1..], x, rest);
      [s[0]] + rest
  }

  /** Putting `h` in front of a sorted `rest` keeps it sorted when `h` may
      precede every element `rest` is made of. */
  lemma HeadBeforeAll(k: SortKey, h: Task, tail: seq<Task>, x: Task, rest: seq<Task>)
    requires Sorted(k, [h] + tail)
    requires Before(k, h, x)
    requires Sorted(k, rest)
    requires multiset(rest) == multiset(tail) + multiset{x}
    ensures Sorted(k, [h] + rest)
  {
    var r := [h] + rest;
    var ht := [h] + tail;
    forall i, j | 0 <= i < j < |r| ensures Before(k, r[i], r[j]) {
      if i > 0 {
        assert r[i] == rest[i - 1] && r[j] == rest[j - 1];
        assert Before(k, rest[i - 1], rest[j - 1]);
      } else {
        var y := rest[j - 1];
        assert r[0] == h && r[j] == y;
        assert y in multiset(rest);
        if y != x {
          assert y in multiset(tail);
          var m :| 0 <= m < |tail| && tail[m] == y;
          assert ht[0] == h && ht[m + 1] == y;
          assert Before(k, ht[0], ht[m + 1]);
        }
      }
    }
  }

  /** `.sort(key)`: the same tasks, ordered by the key. */
  function SortBy(k: SortKey, s: seq<Task>): (r: seq<Task>)
    ensures Sorted(k, r)
    ensures multiset(r) == multiset(s)
  {
    if s == [] then []
    else
      assert s == [s[0]] + s[1..];
      Insert(k, s[0], SortBy(k, s[1..]))
  }

  /** Under the today view's order a medium task comes before a low one and
      a low one before a high one, and never the other way round. */
  lemma PriorityTextOrder(a: Task, b: Task)
    ensures a.priority == Medium && b.priority == Low ==> Before(PriorityDesc, a, b) && !Before(PriorityDesc, b, a)
    ensures a.priority == Low && b.priority == High ==> Before(PriorityDesc, a, b) && !Before(PriorityDesc, b, a)
    ensures a.priority == Medium && b.priority == High ==> Before(PriorityDesc, a, b) && !Before(PriorityDesc, b, a)
  {
    var m, l, h := PriorityName(Medium), PriorityName(Low), PriorityName(High);
    assert m[0] == 'm' && l[0] == 'l' && h[0] == 'h';
  }

  // ---------------------------------------------------------------------
  // Create

  /** The document `Task.create` builds: the body's status is never read,
      a falsy assignedTo falls back to the actor. */
  function NewDoc(actor: Actor, b: TaskBody, id: Id, now: int): (d: Doc)
    ensures d.status == Some(StatusName(DefaultStatus)) && d.completedAt.None?
    ensures d.createdBy == actor.id && d.createdAt == now && d.id == id
    ensures d.assignedTo == if Truthy(b.assignedTo) then SetObjectId(b.assignedTo.s) else Ok(actor.id)
  {
    Doc(
      id := id,
      title := SetTrimmed(b.title),
      description := SetTrimmed(b.description),
      dueDate := SetDate(b.dueDate),
      category := SetWithDefault(b.category, CategoryName(DefaultCategory)),
      status := Some(StatusName(DefaultStatus)),
      priority := SetWithDefault(b.priority, PriorityName(DefaultPriority)),
      assignedTo := if Truthy(b.assignedTo) then SetObjectId(b.assignedTo.s) else Ok(actor.id),
      createdBy := actor.id,
      completedAt := None,
      createdAt := now)
  }

  /** The bodies Mongoose accepts on create. */
  predicate CreateSavable(b: TaskBody)
  {
    && b.title.Str? && Trim(b.title.s) != ""
    && !(DateTruthy(b.dueDate) && b.dueDate.parsed.None?)
    && (b.category.Absent? || (b.category.Str? && ParseCategory(b.category.s).Some?))
    && (b.priority.Absent? || (b.priority.Str? && ParsePriority(b.priority.s).Some?))
    && (Truthy(b.assignedTo) ==> IsObjectIdText(b.assignedTo.s))
  }

  /** The stored task or the ValidationError of `Task.create`: saved
      exactly when the body is savable, otherwise one message per failing
      path. */
  function CreateResult(actor: Actor, b: TaskBody, id: Id, now: int): (r: Result<Task, seq<Violation>>)
    ensures r.Ok? <==> CreateSavable(b)
    ensures r.Err? ==> r.error != [] && DistinctPaths(r.error)
  {
    var d := NewDoc(actor, b, id, now);
    SchemaViolationPathsDistinct(d);
    Save(d, now)
  }

  /** A new task is pending with no completion time whatever the body says,
      is created by the actor, and is assigned to the id given or else to the
      actor. */
  lemma CreatedTaskOwnership(actor: Actor, b: TaskBody, id: Id, now: int)
    requires CreateResult(actor, b, id, now).Ok?
    ensures var t := CreateResult(actor, b, id, now).value;
      && t.id == id && t.status == Pending && t.completedAt.None?
      && t.createdBy == actor.id && t.createdAt == now && t.updatedAt == now
      && t.assignedTo == (if Truthy(b.assignedTo) then ToLower(b.assignedTo.s) else actor.id)
      && CompletionConsistent(t)
  {
    var t := CreateResult(actor, b, id, now).value;
    assert ParseStatus(StatusName(t.status)) == Some(t.status);
  }

  /** A new task holds the body's trimmed texts, its due date, and its
      category and priority or else their defaults. */
  lemma CreatedTaskContent(actor: Actor, b: TaskBody, id: Id, now: int)
    requires CreateResult(actor, b, id, now).Ok?
    ensures var t := CreateResult(actor, b, id, now).value;
      && t.title == Trim(b.title.s)
      && t.description == (if b.description.Str? then Some(Trim(b.description.s)) else None)
      && t.dueDate == (if DateTruthy(b.dueDate) then b.dueDate.parsed else None)
      && t.category == (if b.category.Absent? then DefaultCategory else ParseCategory(b.category.s).value)
      && t.priority == (if b.priority.Absent? then DefaultPriority else ParsePriority(b.priority.s).value)
      && WellFormed(t)
  {
    var t := CreateResult(actor, b, id, now).value;
    assert ParseCategory(CategoryName(t.category)) == Some(t.category);
    assert ParsePriority(PriorityName(t.priority)) == Some(t.priority);
  }

  /** A task is completed exactly when it has a completion time. */
  predicate CompletionConsistent(t: Task)
  {
    t.status == Completed <==> t.completedAt.Some?
  }

  /** Every body createTaskSchema accepts is saved: on the POST route the
      Mongoose branch of createTask is never reached. */
  lemma CreateAcceptedSaves(actor: Actor, b: TaskBody, loadMidnight: int, id: Id, now: int)
    requires AcceptsCreate(b, loadMidnight)
    ensures CreateResult(actor, b, id, now).Ok?
  {
    AcceptedIsCreateSavable(b, loadMidnight);
  }

  lemma AcceptedIsCreateSavable(b: TaskBody, loadMidnight: int)
    requires AcceptsCreate(b, loadMidnight)
    ensures CreateSavable(b)
  {
    assert |Trim(b.title.s)| >= TitleMin;
  }

  // ---------------------------------------------------------------------
  // Update

  /** The document updateTask saves: the loaded task with the body's
      assignments applied (lines 168-185). */
  function Patched(d: Doc, b: TaskBody, actor: Actor, now: int): Doc
  {
    d.(
      title := if Truthy(b.title) then SetTrimmed(b.title) else d.title,
      description := if b.description.Absent? then d.description else SetTrimmed(b.description),
      dueDate := if DateTruthy(b.dueDate) then SetDate(b.dueDate) else d.dueDate,
      category := if Truthy(b.category) then Some(b.category.s) else d.category,
      priority := if Truthy(b.priority) then Some(b.priority.s) else d.priority,
      status := if Truthy(b.status) then Some(b.status.s) else d.status,
      completedAt :=
        if !Truthy(b.status) then d.completedAt
        else if b.status.s != "completed" then None
        else if d.completedAt.None? then Some(now)
        else d.completedAt,
      assignedTo := if actor.role == "admin" && Truthy(b.assignedTo) then SetObjectId(b.assignedTo.s) else d.assignedTo)
  }

  /** The bodies Mongoose accepts when updating a stored task. */
  predicate UpdateSavable(b: TaskBody, actor: Actor)
  {
    && (Truthy(b.title) ==> Trim(b.title.s) != "")
    && !(DateTruthy(b.dueDate) && b.dueDate.parsed.None?)
    && (Truthy(b.category) ==> ParseCategory(b.category.s).Some?)
    && (Truthy(b.priority) ==> ParsePriority(b.priority.s).Some?)
    && (Truthy(b.status) ==> ParseStatus(b.status.s).Some?)
    && (actor.role == "admin" && Truthy(b.assignedTo) ==> IsObjectIdText(b.assignedTo.s))
  }

  /** Saving the updated task: saved exactly when every supplied value is
      one Mongoose accepts, otherwise one message per failing path. */
  function ApplyUpdate(t: Task, b: TaskBody, actor: Actor, now: int): (r: Result<Task, seq<Violation>>)
    requires WellFormed(t)
    ensures r.Ok? <==> UpdateSavable(b, actor)
    ensures r.Err? ==> r.error != [] && DistinctPaths(r.error)
  {
    var d := Patched(ToDoc(t), b, actor, now);
    SchemaViolationPathsDistinct(d);
    PatchedTexts(t, b, actor, now);
    PatchedChoices(t, b, actor, now);
    Save(d, now)
  }

  lemma PatchedTexts(t: Task, b: TaskBody, actor: Actor, now: int)
    requires WellFormed(t)
    ensures var d := Patched(ToDoc(t), b, actor, now);
      && ((d.title.Some? && d.title.value != "") <==> (Truthy(b.title) ==> Trim(b.title.s) != ""))
      && (!d.dueDate.CastFailed? <==> !(DateTruthy(b.dueDate) && b.dueDate.parsed.None?))
      && (d.assignedTo.Ok? <==> (actor.role == "admin" && Truthy(b.assignedTo) ==> IsObjectIdText(b.assignedTo.s)))
  {
  }

  lemma PatchedChoices(t: Task, b: TaskBody, actor: Actor, now: int)
    ensures var d := Patched(ToDoc(t), b, actor, now);
      && ((d.category.Some? && ParseCategory(d.category.value).Some?) <==> (Truthy(b.category) ==> ParseCategory(b.category.s).Some?))
      && (StatusOk(d) <==> (Truthy(b.status) ==> ParseStatus(b.status.s).Some?))
      && (PriorityOk(d) <==> (Truthy(b.priority) ==> ParsePriority(b.priority.s).Some?))
  {
    assert ParseCategory(CategoryName(t.category)) == Some(t.category);
    assert ParseStatus(StatusName(t.status)) == Some(t.status);
    assert ParsePriority(PriorityName(t.priority)) == Some(t.priority);
  }

  /** id, creator and creation time never change, updatedAt becomes now,
      and a falsy dueDate keeps the stored one. */
  lemma UpdatedTaskKeeps(t: Task, b: TaskBody, actor: Actor, now: int)
    requires WellFormed(t)
    requires ApplyUpdate(t, b, actor, now).Ok?
    ensures var u := ApplyUpdate(t, b, actor, now).value;
      && u.id == t.id && u.createdBy == t.createdBy && u.createdAt == t.createdAt && u.updatedAt == now
      && u.dueDate == (if DateTruthy(b.dueDate) then b.dueDate.parsed else t.dueDate)
  {
    var d := Patched(ToDoc(t), b, actor, now);
    assert ApplyUpdate(t, b, actor, now) == Save(d, now);
  }

  /** A falsy title keeps the stored one, a description is replaced unless
      left out, and both are stored trimmed. */
  lemma UpdatedTaskTexts(t: Task, b: TaskBody, actor: Actor, now: int)
    requires WellFormed(t)
    requires ApplyUpdate(t, b, actor, now).Ok?
    ensures var u := ApplyUpdate(t, b, actor, now).value;
      && u.title == (if Truthy(b.title) then Trim(b.title.s) else t.title)
      && u.description == (if b.description.Absent? then t.description else SetTrimmed(b.description))
      && WellFormed(u)
  {
    var d := Patched(ToDoc(t), b, actor, now);
    assert ApplyUpdate(t, b, actor, now) == Save(d, now);
    TrimIdempotent(if b.title.Str? then b.title.s else "");
  }

  /** Falsy category, priority and status keep the stored value, and only an
      admin's truthy assignedTo reassigns the task. */
  lemma UpdatedTaskChoices(t: Task, b: TaskBody, actor: Actor, now: int)
    requires WellFormed(t)
    requires ApplyUpdate(t, b, actor, now).Ok?
    ensures var u := ApplyUpdate(t, b, actor, now).value;
      && u.category == (if Truthy(b.category) then ParseCategory(b.category.s).value else t.category)
      && u.priority == (if Truthy(b.priority) then ParsePriority(b.priority.s).value else t.priority)
      && u.status == (if Truthy(b.status) then ParseStatus(b.status.s).value else t.status)
      && u.assignedTo == (if actor.role == "admin" && Truthy(b.assignedTo) then ToLower(b.assignedTo.s) else t.assignedTo)
  {
    var u := ApplyUpdate(t, b, actor, now).value;
    assert ParseCategory(CategoryName(u.category)) == Some(u.category);
    assert ParseStatus(StatusName(u.status)) == Some(u.status);
    assert ParsePriority(PriorityName(u.priority)) == Some(u.priority);
  }

  /** A supplied "completed" stamps the completion time unless one is
      already set, any other supplied status clears it, and no status leaves
      it alone; so a consistent task stays consistent. */
  lemma UpdatedCompletion(t: Task, b: TaskBody, actor: Actor, now: int)
    requires WellFormed(t)
    requires ApplyUpdate(t, b, actor, now).Ok?
    ensures var u := ApplyUpdate(t, b, actor, now).value;
      && (b.status == Str("completed") && t.completedAt.None? ==> u.completedAt == Some(now))
      && (b.status == Str("completed") && t.completedAt.Some? ==> u.completedAt == t.completedAt)
      && (Truthy(b.status) && b.status.s != "completed" ==> u.completedAt.None?)
      && (!Truthy(b.status) ==> u.completedAt == t.completedAt)
      && (CompletionConsistent(t) ==> CompletionConsistent(u))
  {
    var u := ApplyUpdate(t, b, actor, now).value;
    assert ParseStatus(StatusName(u.status)) == Some(u.status);
    assert ParseStatus(StatusName(t.status)) == Some(t.status);
  }

  /** Every body updateTaskSchema accepts is saved: on the PUT route the
      Mongoose branch of updateTask is never reached. */
  lemma UpdateAcceptedSaves(t: Task, b: TaskBody, actor: Actor, now: int)
    requires WellFormed(t)
    requires AcceptsUpdate(b)
    ensures ApplyUpdate(t, b, actor, now).Ok?
  {
    AcceptedIsUpdateSavable(b, actor);
  }

  lemma AcceptedIsUpdateSavable(b: TaskBody, actor: Actor)
    requires AcceptsUpdate(b)
    ensures UpdateSavable(b, actor)
  {
    if Truthy(b.title) {
      assert |Trim(b.title.s)| >= TitleMin;
    }
  }

  // ---------------------------------------------------------------------
  // The store and its handlers

  /** The answer of a handler: the payload, a 400 with its error object, a
      404 or a 403. */
  datatype Outcome<T> =
    | Done(value: T)
    | Invalid(errors: map<string, string>)
    | NotFound
    | Forbidden
    | ServerError(message: string)

  /** The status code and message sent for an outcome; `success` is 201 for
      create and 200 otherwise. */
  function HttpStatus<T>(o: Outcome<T>, success: int): int
  {
    match o
    case Done(_) => success
    case Invalid(_) => 400
    case NotFound => 404
    case Forbidden => 403
    case ServerError(_) => 500
  }

  function FailureMessage<T>(o: Outcome<T>): string
    requires !o.Done?
  {
    match o
    case Invalid(_) => ValidationFailed
    case NotFound => TaskNotFound
    case Forbidden => AccessDenied
    case ServerError(message) => message
  }

  predicate UniqueIds(ts: seq<Task>)
  {
    forall i, j :: 0 <= i < j < |ts| ==> ts[i].id != ts[j].id
  }

  /** `findById`: the position of the task with the id, if stored. */
  function IndexOf(ts: seq<Task>, id: Id): (r: Option<nat>)
    ensures r.Some? ==> r.value < |ts| && ts[r.value].id == id
    ensures r.None? <==> forall t :: t in ts ==> t.id != id
    ensures r.Some? && UniqueIds(ts) ==> forall j :: 0 <= j < |ts| && ts[j].id == id ==> j == r.value
  {
    if ts == [] then None
    else if ts[0].id == id then Some(0)
    else
      var r := IndexOf(ts[1..], id);
      assert forall t :: t in ts ==> t == ts[0] || t in ts[1..];
      if r.None? then None
      else
        assert forall j :: 1 <= j < |ts| ==> ts[j] == ts[1..][j - 1];
        Some(r.value + 1)
  }

  /** The message of the CastError that findById throws for an `:id` that
      is not an ObjectId. */
  function IdCastMessage(id: string): string
  {
    CastMessage("ObjectId", id, "_id") + " for model \"Task\""
  }

  /** `Task.findById(req.params.id)`: the text is cast to an ObjectId
      first, which throws for anything but 24 hex characters; otherwise the
      lower-case id is looked up. */
  function FindById(ts: seq<Task>, id: string): (r: Result<Option<nat>, string>)
    ensures r.Err? <==> !IsObjectIdText(id)
    ensures r.Err? ==> r.error == IdCastMessage(id)
    ensures r.Ok? && r.value.Some? ==> r.value.value < |ts| && ts[r.value.value].id == ToLower(id)
    ensures r.Ok? && r.value.None? <==> IsObjectIdText(id) && forall t :: t in ts ==> t.id != ToLower(id)
  {
    match SetObjectId(id)
    case Err(_) => Err(IdCastMessage(id))
    case Ok(key) => Ok(IndexOf(ts, key))
  }

  /** The store without position i. */
  function RemoveAt(ts: seq<Task>, i: nat): (r: seq<Task>)
    requires i < |ts|
    requires UniqueIds(ts)
    ensures UniqueIds(r)
    ensures forall t :: t in r <==> t in ts && t.id != ts[i].id
  {
    var r := ts[..i] + ts[i + 1..];
    assert forall j :: 0 <= j < |r| ==> r[j] == if j < i then ts[j] else ts[j + 1];
    forall t | t in ts && t.id != ts[i].id ensures t in r {
      var j :| 0 <= j < |ts| && ts[j] == t;
      if j < i { assert r[j] == t; } else { assert j > i; assert r[j - 1] == t; }
    }
    r
  }

  /** Storing a task under a fresh id keeps the store's invariant when the
      new task satisfies the schema. */
  lemma AppendKeepsStore(ts: seq<Task>, u: Task)
    requires UniqueIds(ts) && forall t :: t in ts ==> WellFormed(t) && CompletionConsistent(t)
    requires forall t :: t in ts ==> t.id != u.id
    requires WellFormed(u) && CompletionConsistent(u)
    ensures UniqueIds(ts + [u])
    ensures forall t :: t in ts + [u] ==> WellFormed(t) && CompletionConsistent(t)
  {
    var r := ts + [u];
    forall i, j | 0 <= i < j < |r| ensures r[i].id != r[j].id {
      assert r[i] == ts[i];
      if j < |ts| { assert r[j] == ts[j]; } else { assert ts[i] in ts; }
    }
  }

  /** Saving a task back in place under its own id keeps the store's
      invariant when the saved task satisfies the schema. */
  lemma ReplaceKeepsStore(ts: seq<Task>, i: nat, u: Task)
    requires i < |ts| && u.id == ts[i].id
    requires UniqueIds(ts) && forall t :: t in ts ==> WellFormed(t) && CompletionConsistent(t)
    requires WellFormed(u) && CompletionConsistent(u)
    ensures UniqueIds(ts[i := u])
    ensures forall t :: t in ts[i := u] ==> WellFormed(t) && CompletionConsistent(t)
  {
    var r := ts[i := u];
    forall t | t in r ensures WellFormed(t) && CompletionConsistent(t) {
      var j :| 0 <= j < |r| && r[j] == t;
      if j != i { assert ts[j] in ts; }
    }
  }

  /** In the list of getTasks: in scope, of the requested status, and with
      the search text in the title, ignoring case. */
  predicate Listed(actor: Actor, status: Value, search: Value, t: Task)
  {
    && InScope(actor, t)
    && (Truthy(status) ==> StatusName(t.status) == status.s)
    && (Truthy(search) ==> Contains(ToLower(t.title), ToLower(search.s)))
  }

  /** In scope and due between today's midnight and the next. */
  predicate DueToday(actor: Actor, startOfToday: int, t: Task)
  {
    InScope(actor, t) && t.dueDate.Some? && startOfToday <= t.dueDate.value < startOfToday + DayMs
  }

  /** In scope, due before today's midnight and not completed. */
  predicate Overdue(actor: Actor, startOfToday: int, t: Task)
  {
    InScope(actor, t) && t.dueDate.Some? && t.dueDate.value < startOfToday && t.status != Completed
  }

  class TaskStore {
    var tasks: seq<Task>

    /** Ids are unique and every stored task is one the schema could have
        produced, with its completion time consistent with its status. */
    ghost predicate Valid()
      reads this
    {
      && UniqueIds(tasks)
      && forall t :: t in tasks ==> WellFormed(t) && CompletionConsistent(t)
    }

    constructor ()
      ensures tasks == [] && Valid()
    {
      tasks := [];
    }

    /** createTask (lines 3-33), with `newId` the id MongoDB assigns. */
    method CreateTask(actor: Actor, b: TaskBody, newId: Id, now: int) returns (o: Outcome<Task>)
      requires Valid()
      requires forall t :: t in tasks ==> t.id != newId
      modifies this
      ensures Valid()
      ensures var r := CreateResult(actor, b, newId, now);
        && (r.Ok? ==> o == Done(r.value) && tasks == old(tasks) + [r.value])
        && (r.Err? ==> o == Invalid(ErrorMap(r.error)) && tasks == old(tasks))
    {
      var r := CreateResult(actor, b, newId, now);
      if r.Err? {
        var errors := Collect(r.error);
        return Invalid(errors);
      }
      CreatedTaskOwnership(actor, b, newId, now);
      CreatedTaskContent(actor, b, newId, now);
      AppendKeepsStore(tasks, r.value);
      tasks := tasks + [r.value];
      return Done(r.value);
    }

    /** getTasks (lines 35-62): the actor's scope, the exact status and the
        title search when given, newest first. */
    method GetTasks(actor: Actor, status: Value, search: Value) returns (r: seq<Task>)
      ensures Sorted(CreatedAtDesc, r)
      ensures forall t :: multiset(r)[t] == if Listed(actor, status, search, t) then multiset(tasks)[t] else 0
    {
      var query := NoFilter;
      if actor.role == "user" {
        query := query.(assignedTo := Some(actor.id));
      }
      if Truthy(status) {
        query := query.(status := Some(status.s));
      }
      if Truthy(search) {
        query := query.(titleSearch := Some(search.s));
      }
      r := SortBy(CreatedAtDesc, Select(tasks, query));
    }

    /** getTodayTasks (lines 64-88): due on [midnight, next midnight), by
        priority text descending. */
    method GetTodayTasks(actor: Actor, startOfToday: int) returns (r: seq<Task>)
      ensures Sorted(PriorityDesc, r)
      ensures forall t :: multiset(r)[t] == if DueToday(actor, startOfToday, t) then multiset(tasks)[t] else 0
    {
      var tomorrow := startOfToday + DayMs;
      var query := NoFilter.(dueFrom := Some(startOfToday), dueBefore := Some(tomorrow));
      if actor.role == "user" {
        query := query.(assignedTo := Some(actor.id));
      }
      r := SortBy(PriorityDesc, Select(tasks, query));
    }

    /** getCompletedTasks (lines 90-107): completed, latest completion first. */
    method GetCompletedTasks(actor: Actor) returns (r: seq<Task>)
      ensures Sorted(CompletedAtDesc, r)
      ensures forall t :: multiset(r)[t] == if InScope(actor, t) && t.status == Completed then multiset(tasks)[t] else 0
    {
      var query := NoFilter.(status := Some(StatusName(Completed)));
      if actor.role == "user" {
        query := query.(assignedTo := Some(actor.id));
      }
      r := SortBy(CompletedAtDesc, Select(tasks, query));
    }

    /** getOverdueTasks (lines 109-132): due before today's midnight and not
        completed, earliest due first. */
    method GetOverdueTasks(actor: Actor, startOfToday: int) returns (r: seq<Task>)
      ensures Sorted(DueDateAsc, r)
      ensures forall t :: multiset(r)[t] == if Overdue(actor, startOfToday, t) then multiset(tasks)[t] else 0
    {
      var query := NoFilter.(dueBefore := Some(startOfToday), statusNot := Some(StatusName(Completed)));
      if actor.role == "user" {
        query := query.(assignedTo := Some(actor.id));
      }
      r := SortBy(DueDateAsc, Select(tasks, query));
    }

    /** getTaskById (lines 134-152): not found is decided before access. */
    method GetTaskById(actor: Actor, id: string) returns (o: Outcome<Task>)
      requires Valid()
      ensures o.ServerError? <==> !IsObjectIdText(id)
      ensures o.ServerError? ==> o.message == IdCastMessage(id)
      ensures o == NotFound <==> IsObjectIdText(id) && forall t :: t in tasks ==> t.id != ToLower(id)
      ensures o.Forbidden? <==> IsObjectIdText(id) && exists t :: t in tasks && t.id == ToLower(id) && !InScope(actor, t)
      ensures o.Done? ==> o.value in tasks && o.value.id == ToLower(id) && InScope(actor, o.value)
      ensures !o.Invalid?
    {
      var found := FindById(tasks, id);
      if found.Err? {
        return ServerError(found.error);
      }
      if found.value.None? {
        return NotFound;
      }
      var t := tasks[found.value.value];
      if actor.role == "user" && t.assignedTo != actor.id {
        return Forbidden;
      }
      return Done(t);
    }

    /** updateTask (lines 154-204): the loaded task is patched and saved in
        place; a 404, a 403 or a failed save leaves the store unchanged. */
    method UpdateTask(actor: Actor, id: string, b: TaskBody, now: int) returns (o: Outcome<Task>)
      requires Valid()
      modifies this
      ensures Valid()
      ensures var f := FindById(old(tasks), id);
        && (f.Err? ==> o == ServerError(f.error) && tasks == old(tasks))
        && (f == Ok(None) ==> o == NotFound && tasks == old(tasks))
        && (f.Ok? && f.value.Some? && !InScope(actor, old(tasks)[f.value.value]) ==>
              o == Forbidden && tasks == old(tasks))
        && (f.Ok? && f.value.Some? && InScope(actor, old(tasks)[f.value.value]) ==>
              var i := f.value.value;
              var r := ApplyUpdate(old(tasks)[i], b, actor, now);
              && (r.Ok? ==> o == Done(r.value) && tasks == old(tasks)[i := r.value])
              && (r.Err? ==> o == Invalid(ErrorMap(r.error)) && tasks == old(tasks)))
    {
      var found := FindById(tasks, id);
      if found.Err? {
        return ServerError(found.error);
      }
      if found.value.None? {
        return NotFound;
      }
      var i := found.value;
      var t := tasks[i.value];
      if actor.role == "user" && t.assignedTo != actor.id {
        return Forbidden;
      }
      var r := ApplyUpdate(t, b, actor, now);
      if r.Err? {
        var errors := Collect(r.error);
        return Invalid(errors);
      }
      UpdatedTaskTexts(t, b, actor, now);
      UpdatedTaskKeeps(t, b, actor, now);
      UpdatedCompletion(t, b, actor, now);
      ReplaceKeepsStore(tasks, i.value, r.value);
      tasks := tasks[i.value := r.value];
      return Done(r.value);
    }

    /** deleteTask (lines 206-223): removed only after both checks pass. */
    method DeleteTask(actor: Actor, id: string) returns (o: Outcome<string>)
      requires Valid()
      modifies this
      ensures Valid()
      ensures !o.Invalid?
      ensures o.ServerError? <==> !IsObjectIdText(id)
      ensures o.ServerError? ==> o.message == IdCastMessage(id)
      ensures o == NotFound <==> IsObjectIdText(id) && forall t :: t in old(tasks) ==> t.id != ToLower(id)
      ensures o.Forbidden? <==>
        IsObjectIdText(id) && exists t :: t in old(tasks) && t.id == ToLower(id) && !InScope(actor, t)
      ensures !o.Done? ==> tasks == old(tasks)
      ensures o.Done? ==> o.value == TaskDeleted && IsObjectIdText(id)
      ensures o.Done? ==> forall t :: t in tasks <==> t in old(tasks) && t.id != ToLower(id)
    {
      var found := FindById(tasks, id);
      if found.Err? {
        return ServerError(found.error);
      }
      if found.value.None? {
        return NotFound;
      }
      var i := found.value;
      var t := tasks[i.value];
      if actor.role == "user" && t.assignedTo != actor.id {
        return Forbidden;
      }
      tasks := RemoveAt(tasks, i.value);
      return Done(TaskDeleted);
    }

    /** POST /tasks: createTaskSchema, then createTask. An accepted body is
        always stored. */
    method PostTask(actor: Actor, b: TaskBody, loadMidnight: int, newId: Id, now: int) returns (o: Outcome<Task>)
      requires Valid()
      requires forall t :: t in tasks ==> t.id != newId
      modifies this
      ensures Valid()
      ensures !AcceptsCreate(b, loadMidnight) ==>
        o == Invalid(ErrorMap(Stripped(CreateTaskViolations(b, loadMidnight)))) && tasks == old(tasks)
      ensures AcceptsCreate(b, loadMidnight) ==>
        o.Done? && CreateResult(actor, b, newId, now) == Ok(o.value) && tasks == old(tasks) + [o.value]
    {
      var verdict := Validate(b, CreateTaskViolations(b, loadMidnight));
      if verdict.Reject? {
        return Invalid(verdict.errors);
      }
      CreateAcceptedSaves(actor, b, loadMidnight, newId, now);
      o := CreateTask(actor, verdict.body, newId, now);
    }

    /** PUT /tasks/:id: updateTaskSchema, then updateTask. A rejected body is
        answered 400 before the id is cast or looked up; an accepted one
        never fails to save. */
    method PutTask(actor: Actor, id: string, b: TaskBody, now: int) returns (o: Outcome<Task>)
      requires Valid()
      modifies this
      ensures Valid()
      ensures !AcceptsUpdate(b) ==>
        o == Invalid(ErrorMap(Stripped(UpdateTaskViolations(b)))) && tasks == old(tasks)
      ensures AcceptsUpdate(b) ==> var f := FindById(old(tasks), id);
        && (f.Err? ==> o == ServerError(IdCastMessage(id)) && tasks == old(tasks))
        && (f == Ok(None) ==> o == NotFound && tasks == old(tasks))
        && (f.Ok? && f.value.Some? && !InScope(actor, old(tasks)[f.value.value]) ==>
              o == Forbidden && tasks == old(tasks))
        && (f.Ok? && f.value.Some? && InScope(actor, old(tasks)[f.value.value]) ==>
              var i := f.value.value;
              var r := ApplyUpdate(old(tasks)[i], b, actor, now);
              && r.Ok? && o == Done(r.value) && tasks == old(tasks)[i := r.value])
    {
      var verdict := Validate(b, UpdateTaskViolations(b));
      if verdict.Reject? {
        return Invalid(verdict.errors);
      }
      var found := FindById(tasks, id);
      if found.Ok? && found.value.Some? {
        UpdateAcceptedSaves(tasks[found.value.value], b, actor, now);
      }
      o := UpdateTask(actor, id, verdict.body, now);
    }
  }
}
