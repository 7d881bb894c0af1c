/** The Task schema of server/models/Task.js: the three enumerations and
    their defaults, the stored record, and what Mongoose does when a task
    document is assigned to and saved (trim on assignment, ObjectId and date
    casts, defaults for missing keys, required and enum validators, the
    createdAt/updatedAt timestamps). */
module TaskModel {
  import opened Wrappers
  import opened Text
  import opened FieldErrors
  import opened Requests

  datatype Status = Pending | InProgress | Completed

  datatype Priority = Low | Medium | High

  datatype Category = Home | Personal | Office | Other

  const DefaultStatus: Status := Pending
  const DefaultPriority: Priority := Medium
  const DefaultCategory: Category := Personal

  function StatusName(s: Status): string
  {
    match s
    case Pending => "pending"
    case InProgress => "in-progress"
    case Completed => "completed"
  }

  function PriorityName(p: Priority): string
  {
    match p
    case Low => "low"
    case Medium => "medium"
    case High => "high"
  }

  function CategoryName(c: Category): string
  {
    match c
    case Home => "Home"
    case Personal => "Personal"
    case Office => "Office"
    case Other => "Other"
  }

  /** Enum membership of a status text: the status it names, if any. */
  function ParseStatus(s: string): (r: Option<Status>)
    ensures forall x :: r == Some(x) <==> s == StatusName(x)
  {
    if s == "pending" then Some(Pending)
    else if s == "in-progress" then Some(InProgress)
    else if s == "completed" then Some(Completed)
    else None
  }

  function ParsePriority(s: string): (r: Option<Priority>)
    ensures forall x :: r == Some(x) <==> s == PriorityName(x)
  {
    if s == "low" then Some(Low)
    else if s == "medium" then Some(Medium)
    else if s == "high" then Some(High)
    else None
  }

  function ParseCategory(s: string): (r: Option<Category>)
    ensures forall x :: r == Some(x) <==> s == CategoryName(x)
  {
    if s == "Home" then Some(Home)
    else if s == "Personal" then Some(Personal)
    else if s == "Office" then Some(Office)
    else if s == "Other" then Some(Other)
    else None
  }

  /** A stored task. Optional paths (description, dueDate, completedAt) may
      be missing; createdAt and updatedAt come from `timestamps: true`. */
  datatype Task = Task(
    id: Id,
    title: string,
    description: Option<string>,
    dueDate: Option<int>,
    category: Category,
    status: Status,
    priority: Priority,
    assignedTo: Id,
    createdBy: Id,
    completedAt: Option<int>,
    createdAt: int,
    updatedAt: int)

  /** What the schema guarantees of every saved task: title present and
      trimmed, description trimmed. */
  predicate WellFormed(t: Task)
  {
    && t.title != "" && Trim(t.title) == t.title
    && (t.description.Some? ==> Trim(t.description.value) == t.description.value)
  }

  /** The outcome of casting an assigned value to a typed path. */
  datatype Cast<T> = Unset | Cast(value: T) | CastFailed(raw: string)

  /** A task document between assignment and save: string paths hold the
      text after their setters ran, typed paths hold their cast outcome. */
  datatype Doc = Doc(
    id: Id,
    title: Option<string>,
    description: Option<string>,
    dueDate: Cast<int>,
    category: Option<string>,
    status: Option<string>,
    priority: Option<string>,
    assignedTo: Result<Id, string>,
    createdBy: Id,
    completedAt: Option<int>,
    createdAt: int)

  /** Assigning to a path declared `trim: true` (title, description):
      undefined and null leave it empty, a string is stored trimmed. */
  function SetTrimmed(v: Value): (r: Option<string>)
    ensures r.Some? <==> v.Str?
    ensures r.Some? ==> r.value == Trim(v.s) && Trim(r.value) == r.value
  {
    match v
    case Absent => None
    case Null => None
    case Str(s) => TrimIdempotent(s); Some(Trim(s))
  }

  /** Assigning to a path whose value is used as the raw text (category,
      status, priority) with a schema default for a missing key. */
  function SetWithDefault(v: Value, default: string): (r: Option<string>)
    ensures v.Absent? ==> r == Some(default)
    ensures v.Null? ==> r == None
    ensures v.Str? ==> r == Some(v.s)
  {
    match v
    case Absent => Some(default)
    case Null => None
    case Str(s) => Some(s)
  }

  /** Casting to the Date path: the empty string and null clear it. */
  function SetDate(d: DateValue): (r: Cast<int>)
    ensures !DateTruthy(d) ==> r == Unset
    ensures DateTruthy(d) && d.parsed.Some? ==> r == Cast(d.parsed.value)
    ensures DateTruthy(d) && d.parsed.None? ==> r == CastFailed(d.raw)
  {
    match d
    case NoDate => Unset
    case NullDate => Unset
    case DateText(raw, parsed) =>
      if raw == "" then Unset
      else if parsed.Some? then Cast(parsed.value)
      else CastFailed(raw)
  }

  /** Casting text to an ObjectId path (assignedTo is always given a value,
      so it is either a cast id or the text that failed to cast); the id keeps
      its lower-case hex form. */
  function SetObjectId(s: string): (r: Result<Id, string>)
    ensures r.Ok? <==> IsObjectIdText(s)
    ensures r.Ok? ==> r.value == ToLower(s) && IsObjectIdText(r.value)
    ensures r.Err? ==> r.error == s
  {
    if IsObjectIdText(s) then Ok(ToLower(s)) else Err(s)
  }

  const TitleRequired := "Task title is required"
  const CategoryRequired := "Category is required"

  function EnumMessage(value: string, path: string): string
  {
    "`" + value + "` is not a valid enum value for path `" + path + "`."
  }

  function CastMessage(kind: string, raw: string, path: string): string
  {
    "Cast to " + kind + " failed for value \"" + raw + "\" at path \"" + path + "\""
  }

  /** `required` on title: missing, null and the empty string fail. */
  function TitleViolations(title: Option<string>): (r: seq<Violation>)
    ensures r == [] <==> title.Some? && title.value != ""
    ensures r != [] ==> r == [Violation("title", TitleRequired)]
  {
    if title.None? || title.value == "" then [Violation("title", TitleRequired)] else []
  }

  /** `required` then `enum` on category; the first failing validator is
      reported. */
  function CategoryViolations(category: Option<string>): (r: seq<Violation>)
    ensures r == [] <==> category.Some? && ParseCategory(category.value).Some?
    ensures |r| <= 1 && forall v :: v in r ==> v.path == "category"
  {
    match category
    case None => [Violation("category", CategoryRequired)]
    case Some(s) =>
      if s == "" then [Violation("category", CategoryRequired)]
      else if ParseCategory(s).None? then [Violation("category", EnumMessage(s, "category"))]
      else []
  }

  /** `enum` on an optional path (status, priority); an explicit null is
      reported as an enum failure. */
  function EnumViolations(path: string, value: Option<string>, valid: bool): (r: seq<Violation>)
    ensures r == [] <==> value.Some? && valid
    ensures |r| <= 1 && forall v :: v in r ==> v.path == path
  {
    match value
    case None => [Violation(path, EnumMessage("null", path))]
    case Some(s) => if valid then [] else [Violation(path, EnumMessage(s, path))]
  }

  function CastViolations<T>(path: string, kind: string, c: Cast<T>): (r: seq<Violation>)
    ensures r == [] <==> !c.CastFailed?
    ensures |r| <= 1 && forall v :: v in r ==> v.path == path
  {
    if c.CastFailed? then [Violation(path, CastMessage(kind, c.raw, path))] else []
  }

  function IdCastViolations(path: string, c: Result<Id, string>): (r: seq<Violation>)
    ensures r == [] <==> c.Ok?
    ensures |r| <= 1 && forall v :: v in r ==> v.path == path
  {
    if c.Err? then [Violation(path, CastMessage("ObjectId", c.error, path))] else []
  }

  predicate StatusOk(d: Doc) { d.status.Some? && ParseStatus(d.status.value).Some? }

  predicate PriorityOk(d: Doc) { d.priority.Some? && ParsePriority(d.priority.value).Some? }

  /** Every failing path of a document, one violation each. */
  function SchemaViolations(d: Doc): (r: seq<Violation>)
    ensures r == [] <==>
      && d.title.Some? && d.title.value != ""
      && d.category.Some? && ParseCategory(d.category.value).Some?
      && StatusOk(d) && PriorityOk(d)
      && d.assignedTo.Ok? && !d.dueDate.CastFailed?
  {
    TitleViolations(d.title)
    + CategoryViolations(d.category)
    + EnumViolations("status", d.status, d.status.Some? && ParseStatus(d.status.value).Some?)
    + EnumViolations("priority", d.priority, d.priority.Some? && ParsePriority(d.priority.value).Some?)
    + IdCastViolations("assignedTo", d.assignedTo)
    + CastViolations("dueDate", "date", d.dueDate)
  }

  /** Validating and writing a document at time `now`: a ValidationError
      listing every failing path, or the stored task. */
  function Save(d: Doc, now: int): (r: Result<Task, seq<Violation>>)
    ensures r.Ok? <==> SchemaViolations(d) == []
    ensures r.Err? ==> r.error == SchemaViolations(d) && r.error != []
    ensures r.Ok? ==>
      var t := r.value;
      && t.id == d.id && d.title == Some(t.title) && t.title != ""
      && t.description == d.description
      && d.category == Some(CategoryName(t.category))
      && d.status == Some(StatusName(t.status))
      && d.priority == Some(PriorityName(t.priority))
      && d.assignedTo == Ok(t.assignedTo)
      && t.dueDate == (if d.dueDate.Cast? then Some(d.dueDate.value) else None)
      && t.createdBy == d.createdBy && t.completedAt == d.completedAt
      && t.createdAt == d.createdAt && t.updatedAt == now
  {
    var errors := SchemaViolations(d);
    if errors != [] then Err(errors)
    else
      Ok(Task(
        id := d.id,
        title := d.title.value,
        description := d.description,
        dueDate := if d.dueDate.Cast? then Some(d.dueDate.value) else None,
        category := ParseCategory(d.category.value).value,
        status := ParseStatus(d.status.value).value,
        priority := ParsePriority(d.priority.value).value,
        assignedTo := d.assignedTo.value,
        createdBy := d.createdBy,
        completedAt := d.completedAt,
        createdAt := d.createdAt,
        updatedAt := now))
  }

  /** The paths of a ValidationError are distinct: one message per field. */
  lemma SchemaViolationPathsDistinct(d: Doc)
    ensures DistinctPaths(SchemaViolations(d))
  {
    var a := TitleViolations(d.title);
    var b := CategoryViolations(d.category);
    var c := EnumViolations("status", d.status, d.status.Some? && ParseStatus(d.status.value).Some?);
    var e := EnumViolations("priority", d.priority, d.priority.Some? && ParsePriority(d.priority.value).Some?);
    var f := IdCastViolations("assignedTo", d.assignedTo);
    var g := CastViolations("dueDate", "date", d.dueDate);
    assert AtMostOneAt(a, "title") && AtMostOneAt(b, "category") && AtMostOneAt(c, "status");
    assert AtMostOneAt(e, "priority") && AtMostOneAt(f, "assignedTo") && AtMostOneAt(g, "dueDate");
    SchemaPaths();
    assert SchemaViolations(d) == a + b + c + e + f + g;
    SixPathsDistinct(a, b, c, e, f, g, "title", "category", "status", "priority", "assignedTo", "dueDate");
  }

  lemma SchemaPaths()
    ensures |{"title", "category", "status", "priority", "assignedTo", "dueDate"}| == 6
  {
  }

  predicate AtMostOneAt(vs: seq<Violation>, p: string)
  {
    |vs| <= 1 && forall v :: v in vs ==> v.path == p
  }

  /** Six lists of at most one violation each, at six different paths. */
  lemma SixPathsDistinct(a: seq<Violation>, b: seq<Violation>, c: seq<Violation>,
                         e: seq<Violation>, f: seq<Violation>, g: seq<Violation>,
                         pa: string, pb: string, pc: string, pe: string, pf: string, pg: string)
    requires AtMostOneAt(a, pa) && AtMostOneAt(b, pb) && AtMostOneAt(c, pc)
    requires AtMostOneAt(e, pe) && AtMostOneAt(f, pf) && AtMostOneAt(g, pg)
    requires |{pa, pb, pc, pe, pf, pg}| == 6
    ensures DistinctPaths(a + b + c + e + f + g)
  {
    AppendNewPath([], a, {}, pa);
    assert [] + a == a;
    AppendNewPath(a, b, {pa}, pb);
    AppendNewPath(a + b, c, {pa} + {pb}, pc);
    AppendNewPath(a + b + c, e, {pa} + {pb} + {pc}, pe);
    AppendNewPath(a + b + c + e, f, {pa} + {pb} + {pc} + {pe}, pf);
    AppendNewPath(a + b + c + e + f, g, {pa} + {pb} + {pc} + {pe} + {pf}, pg);
  }

  /** The document a stored task loads as. */
  function ToDoc(t: Task): Doc
  {
    Doc(
      id := t.id,
      title := Some(t.title),
      description := t.description,
      dueDate := if t.dueDate.Some? then Cast(t.dueDate.value) else Unset,
      category := Some(CategoryName(t.category)),
      status := Some(StatusName(t.status)),
      priority := Some(PriorityName(t.priority)),
      assignedTo := Ok(t.assignedTo),
      createdBy := t.createdBy,
      completedAt := t.completedAt,
      createdAt := t.createdAt)
  }

  /** Loading a stored task and saving it again writes it back unchanged
      except for updatedAt. */
  lemma SaveLoadedRoundTrip(t: Task, now: int)
    requires WellFormed(t)
    ensures Save(ToDoc(t), now) == Ok(t.(updatedAt := now))
  {
    var d := ToDoc(t);
    assert ParseCategory(CategoryName(t.category)) == Some(t.category);
    assert ParseStatus(StatusName(t.status)) == Some(t.status);
    assert ParsePriority(PriorityName(t.priority)) == Some(t.priority);
    assert StatusOk(d) && PriorityOk(d);
    assert SchemaViolations(d) == [];
  }
}
