/** The request-body schemas of server/validation/taskValidation.js:
    createTaskSchema and updateTaskSchema, as the list of violations each
    reports for a body (paths are prefixed with "body.", as yup names them).
    The bound of "Due date cannot be in the past" is midnight of the day the
    module was loaded, passed in as `loadMidnight`. */
module TaskValidation {
  import opened Wrappers
  import opened Text
  import opened FieldErrors
  import opened Requests
  import opened TaskModel
  import opened SchemaRules

  const TitleMin := 3
  const TitleMax := 200
  const DescriptionMax := 1000

  const TitleMinMessage := "Title must be at least 3 characters"
  const TitleMaxMessage := "Title must not exceed 200 characters"

  /** create: `string().required().trim().min(3).max(200)`. */
  function CreateTitleViolations(v: Value): (r: seq<Violation>)
    ensures r == [] <==> v.Str? && TitleMin <= |Trim(v.s)| <= TitleMax
    ensures AllAt(r, BodyPath("title"))
  {
    var path := BodyPath("title");
    match v
    case Absent => [Violation(path, "Title is required")]
    case Null => [Violation(path, "Title is required")]
    case Str(s) =>
      var t := Trim(s);
      Check(t != "", path, "Title is required")
      + Check(|t| >= TitleMin, path, TitleMinMessage)
      + Check(|t| <= TitleMax, path, TitleMaxMessage)
  }

  /** update: `string().trim().min(3).max(200).optional()`. */
  function UpdateTitleViolations(v: Value): (r: seq<Violation>)
    ensures r == [] <==> !v.Null? && (v.Str? ==> TitleMin <= |Trim(v.s)| <= TitleMax)
    ensures AllAt(r, BodyPath("title"))
  {
    var path := BodyPath("title");
    match v
    case Absent => []
    case Null => [Violation(path, NotNullMessage(path))]
    case Str(s) =>
      var t := Trim(s);
      Check(|t| >= TitleMin, path, TitleMinMessage) + Check(|t| <= TitleMax, path, TitleMaxMessage)
  }

  /** Both schemas: `string().nullable()`, '' becomes null, then trimmed text
      of at most 1000 characters. */
  function DescriptionViolations(v: Value): (r: seq<Violation>)
    ensures r == [] <==> !v.Str? || v.s == "" || |Trim(v.s)| <= DescriptionMax
    ensures AllAt(r, BodyPath("description"))
  {
    match v
    case Absent => []
    case Null => []
    case Str(s) =>
      if s == "" then []
      else Check(|Trim(s)| <= DescriptionMax, BodyPath("description"), "Description must not exceed 1000 characters")
  }

  /** create: `date().required().min(loadMidnight)`. The empty text casts
      to an Invalid Date, so it fails the type test whatever the parser. */
  function CreateDueDateViolations(d: DateValue, loadMidnight: int): (r: seq<Violation>)
    ensures r == [] <==> DateTruthy(d) && d.parsed.Some? && d.parsed.value >= loadMidnight
    ensures AllAt(r, BodyPath("dueDate"))
  {
    var path := BodyPath("dueDate");
    match d
    case NoDate => [Violation(path, "Due date is required")]
    case NullDate => [Violation(path, "Due date is required")]
    case DateText(raw, parsed) =>
      if raw == "" || parsed.None? then [Violation(path, DateTypeMessage(path))]
      else Check(parsed.value >= loadMidnight, path, "Due date cannot be in the past")
  }

  /** update: `date().optional()`, with no lower bound; the empty text
      fails the type test here too. */
  function UpdateDueDateViolations(d: DateValue): (r: seq<Violation>)
    ensures r == [] <==> d.NoDate? || (DateTruthy(d) && d.parsed.Some?)
    ensures AllAt(r, BodyPath("dueDate"))
  {
    var path := BodyPath("dueDate");
    match d
    case NoDate => []
    case NullDate => [Violation(path, NotNullMessage(path))]
    case DateText(raw, parsed) =>
      if raw == "" || parsed.None? then [Violation(path, DateTypeMessage(path))] else []
  }

  /** create: `string().required().oneOf([...categories])`. */
  function CreateCategoryViolations(v: Value): (r: seq<Violation>)
    ensures r == [] <==> v.Str? && ParseCategory(v.s).Some?
    ensures v.Str? && ParseCategory(v.s).None? ==> r == [Violation(BodyPath("category"), "Invalid category")]
    ensures AllAt(r, BodyPath("category"))
  {
    var path := BodyPath("category");
    match v
    case Absent => [Violation(path, "Category is required")]
    case Null => [Violation(path, "Category is required")]
    case Str(s) =>
      // oneOf is one of yup's initial checks, which stop the field when
      // they fail, so the empty text is reported only as not a category.
      if ParseCategory(s).None? then [Violation(path, "Invalid category")]
      else Check(s != "", path, "Category is required")
  }

  /** `string().oneOf(names)` on a path that is optional (or has a default):
      undefined passes, null does not, text must be one of the names. */
  function OptionalEnumViolations(v: Value, path: string, valid: bool, message: string): (r: seq<Violation>)
    ensures r == [] <==> v.Absent? || (v.Str? && valid)
    ensures AllAt(r, path)
  {
    match v
    case Absent => []
    case Null => [Violation(path, NotNullMessage(path))]
    case Str(_) => Check(valid, path, message)
  }

  function CategoryEnum(v: Value): (r: seq<Violation>)
    ensures r == [] <==> v.Absent? || (v.Str? && ParseCategory(v.s).Some?)
    ensures AllAt(r, BodyPath("category"))
  {
    OptionalEnumViolations(v, BodyPath("category"), v.Str? && ParseCategory(v.s).Some?, "Invalid category")
  }

  function PriorityEnum(v: Value): (r: seq<Violation>)
    ensures r == [] <==> v.Absent? || (v.Str? && ParsePriority(v.s).Some?)
    ensures AllAt(r, BodyPath("priority"))
  {
    OptionalEnumViolations(v, BodyPath("priority"), v.Str? && ParsePriority(v.s).Some?, "Invalid priority")
  }

  function StatusEnum(v: Value): (r: seq<Violation>)
    ensures r == [] <==> v.Absent? || (v.Str? && ParseStatus(v.s).Some?)
    ensures AllAt(r, BodyPath("status"))
  {
    OptionalEnumViolations(v, BodyPath("status"), v.Str? && ParseStatus(v.s).Some?, "Invalid status")
  }

  /** Both schemas: `string().nullable()`, '' becomes null, otherwise
      /^[0-9a-fA-F]{24}$/. */
  function AssignedToViolations(v: Value): (r: seq<Violation>)
    ensures r == [] <==> !Truthy(v) || IsObjectIdText(v.s)
    ensures AllAt(r, BodyPath("assignedTo"))
  {
    match v
    case Absent => []
    case Null => []
    case Str(s) => if s == "" then [] else Check(IsObjectIdText(s), BodyPath("assignedTo"), "Invalid user ID")
  }

  /** createTaskSchema, every failing test, field by field. */
  function CreateTaskViolations(b: TaskBody, loadMidnight: int): (r: seq<Violation>)
    ensures r == [] <==> AcceptsCreate(b, loadMidnight)
  {
    CreateTitleViolations(b.title)
    + DescriptionViolations(b.description)
    + CreateDueDateViolations(b.dueDate, loadMidnight)
    + CreateCategoryViolations(b.category)
    + PriorityEnum(b.priority)
    + StatusEnum(b.status)
    + AssignedToViolations(b.assignedTo)
  }

  /** updateTaskSchema, every failing test, field by field. */
  function UpdateTaskViolations(b: TaskBody): (r: seq<Violation>)
    ensures r == [] <==> AcceptsUpdate(b)
  {
    UpdateTitleViolations(b.title)
    + DescriptionViolations(b.description)
    + UpdateDueDateViolations(b.dueDate)
    + CategoryEnum(b.category)
    + PriorityEnum(b.priority)
    + StatusEnum(b.status)
    + AssignedToViolations(b.assignedTo)
  }

  /** The bodies createTaskSchema accepts, field rule by field rule. */
  predicate AcceptsCreate(b: TaskBody, loadMidnight: int)
  {
    && b.title.Str? && TitleMin <= |Trim(b.title.s)| <= TitleMax
    && DescriptionAccepted(b.description)
    && DateTruthy(b.dueDate) && b.dueDate.parsed.Some? && b.dueDate.parsed.value >= loadMidnight
    && b.category.Str? && ParseCategory(b.category.s).Some?
    && (b.priority.Absent? || (b.priority.Str? && ParsePriority(b.priority.s).Some?))
    && (b.status.Absent? || (b.status.Str? && ParseStatus(b.status.s).Some?))
    && AssignedToAccepted(b.assignedTo)
  }

  /** The bodies updateTaskSchema accepts: every field optional, a present
      field under the create rule, except that no due date is too early. */
  predicate AcceptsUpdate(b: TaskBody)
  {
    && (b.title.Absent? || (b.title.Str? && TitleMin <= |Trim(b.title.s)| <= TitleMax))
    && DescriptionAccepted(b.description)
    && (b.dueDate.NoDate? || (DateTruthy(b.dueDate) && b.dueDate.parsed.Some?))
    && (b.category.Absent? || (b.category.Str? && ParseCategory(b.category.s).Some?))
    && (b.priority.Absent? || (b.priority.Str? && ParsePriority(b.priority.s).Some?))
    && (b.status.Absent? || (b.status.Str? && ParseStatus(b.status.s).Some?))
    && AssignedToAccepted(b.assignedTo)
  }

  predicate DescriptionAccepted(v: Value)
  {
    !v.Str? || v.s == "" || |Trim(v.s)| <= DescriptionMax
  }

  predicate AssignedToAccepted(v: Value)
  {
    !Truthy(v) || IsObjectIdText(v.s)
  }

  /** Whatever createTaskSchema accepts, updateTaskSchema accepts too. */
  lemma CreateAcceptedIsUpdateAccepted(b: TaskBody, loadMidnight: int)
    requires AcceptsCreate(b, loadMidnight)
    ensures AcceptsUpdate(b)
  {
  }

  /** Update has no past-date check: a due date of any instant, however far
      before the load-time midnight, is accepted. */
  lemma UpdateAcceptsPastDueDate(b: TaskBody, raw: string, instant: int, loadMidnight: int)
    requires AcceptsCreate(b, loadMidnight)
    requires raw != "" && instant < loadMidnight
    ensures !AcceptsCreate(b.(dueDate := DateText(raw, Some(instant))), loadMidnight)
    ensures AcceptsUpdate(b.(dueDate := DateText(raw, Some(instant))))
  {
  }

  /** An empty due-date text fails both schemas' type test, whatever
      instant the parser is said to make of it. */
  lemma EmptyDateRejected(parsed: Option<int>, loadMidnight: int)
    ensures CreateDueDateViolations(DateText("", parsed), loadMidnight)
      == [Violation(BodyPath("dueDate"), DateTypeMessage(BodyPath("dueDate")))]
    ensures UpdateDueDateViolations(DateText("", parsed))
      == [Violation(BodyPath("dueDate"), DateTypeMessage(BodyPath("dueDate")))]
  {
  }
}
