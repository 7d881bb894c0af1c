/** client/src/components/TaskModal.jsx: the task form, its client-side
    schema (which checks the text as typed, with no trim, and requires
    priority and status), the payload it hands to the page, and how the
    form's error map is filled and cleared. Dates are parsed by a function
    given as a parameter (`parseDate`). */
module TaskModal {
  import opened Wrappers
  import opened Text
  import opened FieldErrors
  import opened Requests
  import opened SchemaRules
  import TaskModel
  import TaskValidation

  /** The form state: every input holds text. */
  datatype TaskForm = TaskForm(
    title: string,
    description: string,
    dueDate: string,
    category: string,
    priority: string,
    status: string,
    assignedTo: string)

  /** The initial form, and the one handleClose restores. */
  const EmptyForm := TaskForm("", "", "", "Personal", "medium", "pending", "")

  /** The inputs, named as in their `name` attribute. */
  datatype Field = TitleField | DescriptionField | DueDateField | CategoryField
                 | PriorityField | StatusField | AssignedToField

  function FieldName(f: Field): string
  {
    match f
    case TitleField => "title"
    case DescriptionField => "description"
    case DueDateField => "dueDate"
    case CategoryField => "category"
    case PriorityField => "priority"
    case StatusField => "status"
    case AssignedToField => "assignedTo"
  }

  function Get(form: TaskForm, f: Field): string
  {
    match f
    case TitleField => form.title
    case DescriptionField => form.description
    case DueDateField => form.dueDate
    case CategoryField => form.category
    case PriorityField => form.priority
    case StatusField => form.status
    case AssignedToField => form.assignedTo
  }

  /** `{ ...formData, [name]: value }`: one input changes, the others keep
      their text. */
  function Set(form: TaskForm, f: Field, value: string): (r: TaskForm)
    ensures Get(r, f) == value
    ensures forall g :: g != f ==> Get(r, g) == Get(form, g)
  {
    match f
    case TitleField => form.(title := value)
    case DescriptionField => form.(description := value)
    case DueDateField => form.(dueDate := value)
    case CategoryField => form.(category := value)
    case PriorityField => form.(priority := value)
    case StatusField => form.(status := value)
    case AssignedToField => form.(assignedTo := value)
  }

  const DueDateTypeMessage := "Please enter a valid date"
  const DueDatePastMessage := "Due date cannot be in the past"

  /** `string().required().min(3).max(200)` on the text as typed. */
  function TitleViolations(s: string): (r: seq<Violation>)
    ensures r == [] <==> TaskValidation.TitleMin <= |s| <= TaskValidation.TitleMax
    ensures AllAt(r, "title")
  {
    Check(s != "", "title", "Title is required")
    + Check(|s| >= TaskValidation.TitleMin, "title", TaskValidation.TitleMinMessage)
    + Check(|s| <= TaskValidation.TitleMax, "title", TaskValidation.TitleMaxMessage)
  }

  function DescriptionViolations(s: string): (r: seq<Violation>)
    ensures r == [] <==> |s| <= TaskValidation.DescriptionMax
    ensures AllAt(r, "description")
  {
    Check(|s| <= TaskValidation.DescriptionMax, "description", "Description must not exceed 1000 characters")
  }

  /** `date().required().min(midnight).typeError(...)`: text that does not
      parse (the empty text included) fails the type check, which stops
      this field; a parsed date must not be before the midnight fixed when
      the module was loaded. */
  function DueDateViolations(s: string, loadMidnight: int, parseDate: string -> Option<int>): (r: seq<Violation>)
    ensures r == [] <==> s != "" && parseDate(s).Some? && parseDate(s).value >= loadMidnight
    ensures AllAt(r, "dueDate") && |r| <= 1
  {
    if s == "" || parseDate(s).None? then [Violation("dueDate", DueDateTypeMessage)]
    else Check(parseDate(s).value >= loadMidnight, "dueDate", DueDatePastMessage)
  }

  /** `string().required(...).oneOf([...], ...)`: oneOf is checked first
      and stops the field when it fails, so a text outside the list, the
      empty one included, gets only the oneOf message. */
  function ChoiceViolations(s: string, path: string, valid: bool, required: string, invalid: string): (r: seq<Violation>)
    ensures r == [] <==> s != "" && valid
    ensures !valid ==> r == [Violation(path, invalid)]
    ensures AllAt(r, path)
  {
    if !valid then [Violation(path, invalid)] else Check(s != "", path, required)
  }

  function CategoryViolations(s: string): (r: seq<Violation>)
    ensures r == [] <==> TaskModel.ParseCategory(s).Some?
    ensures AllAt(r, "category")
  {
    ChoiceViolations(s, "category", TaskModel.ParseCategory(s).Some?, "Category is required", "Invalid category")
  }

  function PriorityViolations(s: string): (r: seq<Violation>)
    ensures r == [] <==> TaskModel.ParsePriority(s).Some?
    ensures AllAt(r, "priority")
  {
    ChoiceViolations(s, "priority", TaskModel.ParsePriority(s).Some?, "Priority is required", "Invalid priority")
  }

  function StatusViolations(s: string): (r: seq<Violation>)
    ensures r == [] <==> TaskModel.ParseStatus(s).Some?
    ensures AllAt(r, "status")
  {
    ChoiceViolations(s, "status", TaskModel.ParseStatus(s).Some?, "Status is required", "Invalid status")
  }

  /** The forms taskSchema accepts; assignedTo is not checked. */
  predicate AcceptsForm(form: TaskForm, loadMidnight: int, parseDate: string -> Option<int>)
  {
    && TaskValidation.TitleMin <= |form.title| <= TaskValidation.TitleMax
    && |form.description| <= TaskValidation.DescriptionMax
    && form.dueDate != "" && parseDate(form.dueDate).Some? && parseDate(form.dueDate).value >= loadMidnight
    && TaskModel.ParseCategory(form.category).Some?
    && TaskModel.ParsePriority(form.priority).Some?
    && TaskModel.ParseStatus(form.status).Some?
  }

  /** taskSchema with `abortEarly: false`: every failing test, field by
      field. */
  function FormViolations(form: TaskForm, loadMidnight: int, parseDate: string -> Option<int>): (r: seq<Violation>)
    ensures r == [] <==> AcceptsForm(form, loadMidnight, parseDate)
  {
    TitleViolations(form.title)
    + DescriptionViolations(form.description)
    + DueDateViolations(form.dueDate, loadMidnight, parseDate)
    + CategoryViolations(form.category)
    + PriorityViolations(form.priority)
    + StatusViolations(form.status)
  }

  /** An empty title fails both `required` and `min`; the error map keeps
      the later message, so the form shows the length message. */
  lemma EmptyTitleShowsMinMessage(form: TaskForm, loadMidnight: int, parseDate: string -> Option<int>)
    requires form.title == ""
    ensures var m := ErrorMap(FormViolations(form, loadMidnight, parseDate));
      "title" in m && m["title"] == TaskValidation.TitleMinMessage
  {
    var a := TitleViolations(form.title);
    assert a == [Violation("title", "Title is required"), Violation("title", TaskValidation.TitleMinMessage)];
    var b, c := DescriptionViolations(form.description), DueDateViolations(form.dueDate, loadMidnight, parseDate);
    var d, e, f := CategoryViolations(form.category), PriorityViolations(form.priority), StatusViolations(form.status);
    PathsAvoid(b, c, d, e, f, "description", "dueDate", "category", "priority", "status", "title");
    Regroup(a, b, c, d, e, f);
    assert FormViolations(form, loadMidnight, parseDate) == a + b + c + d + e + f;
    LastMessageWins([], a, b + c + d + e + f, "title");
  }

  /** The payload handed to onSave: the form, without assignedTo and
      description when they are empty. */
  datatype Payload = Payload(
    title: string,
    description: Option<string>,
    dueDate: string,
    category: string,
    priority: string,
    status: string,
    assignedTo: Option<string>)

  function Cleaned(form: TaskForm): (p: Payload)
    ensures p.description.None? <==> form.description == ""
    ensures p.description.Some? ==> p.description.value == form.description
    ensures p.assignedTo.None? <==> form.assignedTo == ""
    ensures p.assignedTo.Some? ==> p.assignedTo.value == form.assignedTo
    ensures p.title == form.title && p.dueDate == form.dueDate && p.category == form.category
    ensures p.priority == form.priority && p.status == form.status
  {
    Payload(
      title := form.title,
      description := if form.description == "" then None else Some(form.description),
      dueDate := form.dueDate,
      category := form.category,
      priority := form.priority,
      status := form.status,
      assignedTo := if form.assignedTo == "" then None else Some(form.assignedTo))
  }

  /** The JSON body the server receives for a payload. */
  function ToBody(p: Payload, parseDate: string -> Option<int>): TaskBody
  {
    TaskBody(
      title := Str(p.title),
      description := if p.description.Some? then Str(p.description.value) else Absent,
      dueDate := DateText(p.dueDate, parseDate(p.dueDate)),
      category := Str(p.category),
      priority := Str(p.priority),
      status := Str(p.status),
      assignedTo := if p.assignedTo.Some? then Str(p.assignedTo.value) else Absent)
  }

  /** A form the client accepts is accepted by createTaskSchema too, when
      both use the same midnight and date parser, its title has no white
      space at either end, and its assignee is empty or an id. */
  lemma ClientAcceptedIsServerAccepted(form: TaskForm, loadMidnight: int, parseDate: string -> Option<int>)
    requires AcceptsForm(form, loadMidnight, parseDate)
    requires !IsSpace(form.title[0]) && !IsSpace(form.title[|form.title| - 1])
    requires form.assignedTo == "" || IsObjectIdText(form.assignedTo)
    ensures TaskValidation.AcceptsCreate(ToBody(Cleaned(form), parseDate), loadMidnight)
  {
    TrimUnchanged(form.title);
  }

  /** The client does not trim: a three-character title that starts with
      white space passes the form's check and fails the server's. */
  lemma PaddedTitleGap(form: TaskForm, loadMidnight: int, parseDate: string -> Option<int>)
    requires |form.title| == TaskValidation.TitleMin && IsSpace(form.title[0])
    ensures TitleViolations(form.title) == []
    ensures !TaskValidation.AcceptsCreate(ToBody(Cleaned(form), parseDate), loadMidnight)
  {
    TrimDropsLeadingSpace(form.title);
  }

  /** How onSave ended: saved, or a failed request carrying the server's
      `errors` object and `message`, when present. */
  datatype SaveOutcome = Saved | Failed(errors: Option<map<string, string>>, message: Option<string>)

  const SaveFailedMessage := "Failed to save task. Please try again."

  /** The error map after a failed save: the server's field errors, else
      its message as `general`, else the fixed message. */
  function FailureErrors(outcome: SaveOutcome): (m: map<string, string>)
    requires outcome.Failed?
    ensures outcome.errors.Some? ==> m == outcome.errors.value
    ensures outcome.errors.None? && outcome.message.Some? && outcome.message.value != "" ==>
      m == map["general" := outcome.message.value]
    ensures outcome.errors.None? && (outcome.message.None? || outcome.message.value == "") ==>
      m == map["general" := SaveFailedMessage]
  {
    if outcome.errors.Some? then outcome.errors.value
    else if outcome.message.Some? && outcome.message.value != "" then map["general" := outcome.message.value]
    else map["general" := SaveFailedMessage]
  }

  /** The call made to onSave: the cleaned payload and the edited task's id
      (None for a new task). */
  datatype SaveCall = SaveCall(payload: Payload, taskId: Option<Id>)

  class Modal {
    var form: TaskForm
    var errors: map<string, string>
    var open: bool

    constructor(isOpen: bool)
      ensures form == EmptyForm && errors == map[] && open == isOpen
    {
      form := EmptyForm;
      errors := map[];
      open := isOpen;
    }

    /** handleChange: stores the input and clears that input's error, when
        it has a non-empty one; other errors stay. */
    method Change(f: Field, value: string)
      modifies this
      ensures form == Set(old(form), f, value)
      ensures FieldName(f) in old(errors) && old(errors)[FieldName(f)] != "" ==>
        errors == old(errors) - {FieldName(f)}
      ensures !(FieldName(f) in old(errors) && old(errors)[FieldName(f)] != "") ==> errors == old(errors)
      ensures open == old(open)
    {
      form := Set(form, f, value);
      var name := FieldName(f);
      if name in errors && errors[name] != "" {
        errors := errors - {name};
      }
    }

    /** handleClose: the empty form, no errors, and the parent closes the
        modal. */
    method Close()
      modifies this
      ensures form == EmptyForm && errors == map[] && !open
    {
      form := EmptyForm;
      errors := map[];
      open := false;
    }

    /** handleSubmit. A form the schema rejects is not saved and its errors
        fill the map; otherwise the cleaned payload goes to onSave, after
        which the modal closes or shows the failure's errors. */
    method Submit(loadMidnight: int, parseDate: string -> Option<int>, taskId: Option<Id>, outcome: SaveOutcome)
      returns (call: Option<SaveCall>)
      modifies this
      ensures call.Some? <==> AcceptsForm(old(form), loadMidnight, parseDate)
      ensures call.None? ==> errors == ErrorMap(FormViolations(old(form), loadMidnight, parseDate))
      ensures call.None? ==> form == old(form) && open == old(open)
      ensures call.Some? ==> call.value == SaveCall(Cleaned(old(form)), taskId)
      ensures call.Some? && outcome.Saved? ==> form == EmptyForm && errors == map[] && !open
      ensures call.Some? && outcome.Failed? ==>
        errors == FailureErrors(outcome) && form == old(form) && open == old(open)
    {
      var f := form;
      errors := map[];
      var vs := FormViolations(f, loadMidnight, parseDate);
      if vs != [] {
        var m := Collect(vs);
        errors := m;
        call := None;
        return;
      }
      call := Some(SaveCall(Cleaned(f), taskId));
      if outcome.Saved? {
        form, errors, open := EmptyForm, map[], false;  // handleClose
      } else {
        errors := FailureErrors(outcome);
      }
    }
  }
}
