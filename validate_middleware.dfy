/** server/middleware/validate.js: run a schema over { body, query, params }
    with every test reported, and either pass the request on or answer 400
    with one message per field. The request passes on UNCHANGED: the casts and
    transforms the schema performs are used only for its tests. */
module ValidateMiddleware {
  import opened Text
  import opened FieldErrors
  import opened Requests
  import opened TaskValidation
  import opened SchemaRules

  /** The regular expression ^(body|query|params)\. removed from the front
      of a path, once. */
  function StripLocation(path: string): (r: string)
    ensures StartsWith(path, "body.") ==> r == path[5..]
    ensures !StartsWith(path, "body.") && StartsWith(path, "query.") ==> r == path[6..]
    ensures !StartsWith(path, "body.") && !StartsWith(path, "query.") && StartsWith(path, "params.") ==> r == path[7..]
    ensures !StartsWith(path, "body.") && !StartsWith(path, "query.") && !StartsWith(path, "params.") ==> r == path
  {
    if StartsWith(path, "body.") then path[5..]
    else if StartsWith(path, "query.") then path[6..]
    else if StartsWith(path, "params.") then path[7..]
    else path
  }

  /** A body field reported as "body.<name>" is keyed by its bare name. */
  lemma StripBodyField(f: string)
    ensures StripLocation(BodyPath(f)) == f
  {
    assert ("body." + f)[..5] == "body.";
    assert ("body." + f)[5..] == f;
  }

  function Stripped(vs: seq<Violation>): (r: seq<Violation>)
    ensures |r| == |vs|
    ensures forall i :: 0 <= i < |vs| ==> r[i] == Violation(StripLocation(vs[i].path), vs[i].message)
  {
    seq(|vs|, i requires 0 <= i < |vs| => Violation(StripLocation(vs[i].path), vs[i].message))
  }

  datatype Verdict<B> =
    | Next(body: B)
    | Reject(status: int, message: string, errors: map<string, string>)

  /** The middleware, given the request body and the violations its schema
      reports for it. */
  method Validate<B>(body: B, violations: seq<Violation>) returns (v: Verdict<B>)
    ensures violations == [] <==> v.Next?
    ensures v.Next? ==> v.body == body
    ensures v.Reject? ==>
      && v.status == 400 && v.message == "Validation failed"
      && v.errors == ErrorMap(Stripped(violations))
      && v.errors.Keys == (set x | x in violations :: StripLocation(x.path))
      && v.errors != map[]
  {
    if violations == [] {
      return Next(body);
    }
    var errors := Collect(Stripped(violations));
    assert Stripped(violations)[0].path in errors.Keys;
    KeysOfStripped(violations);
    return Reject(400, "Validation failed", errors);
  }

  lemma KeysOfStripped(vs: seq<Violation>)
    ensures Paths(Stripped(vs)) == (set x | x in vs :: StripLocation(x.path))
  {
    var s := Stripped(vs);
    forall p | p in Paths(s) ensures p in set x | x in vs :: StripLocation(x.path) {
      var v :| v in s && v.path == p;
      var i :| 0 <= i < |s| && s[i] == v;
      assert vs[i] in vs;
    }
    forall x | x in vs ensures StripLocation(x.path) in Paths(s) {
      var i :| 0 <= i < |vs| && vs[i] == x;
      assert s[i] in s;
    }
  }

  lemma StrippedConcat(a: seq<Violation>, b: seq<Violation>)
    ensures Stripped(a + b) == Stripped(a) + Stripped(b)
  {
  }

  /** The key one field contributes to the error object: its bare name when
      any of its tests failed, nothing otherwise. */
  function Key(vs: seq<Violation>, field: string): set<string>
  {
    if vs == [] then {} else {field}
  }

  lemma StrippedField(vs: seq<Violation>, field: string)
    requires AllAt(vs, BodyPath(field))
    ensures AllAt(Stripped(vs), field)
    ensures Paths(Stripped(vs)) == Key(vs, field)
  {
    StripBodyField(field);
    if vs != [] {
      assert Stripped(vs)[0] in Stripped(vs);
    }
  }

  lemma PathsConcat(a: seq<Violation>, b: seq<Violation>)
    ensures Paths(a + b) == Paths(a) + Paths(b)
  {
  }

  /** Appending one field's violations adds that field's key. */
  lemma AppendFieldKey(front: seq<Violation>, vs: seq<Violation>, field: string)
    requires AllAt(vs, BodyPath(field))
    ensures Paths(Stripped(front + vs)) == Paths(Stripped(front)) + Key(vs, field)
  {
    StrippedConcat(front, vs);
    StrippedField(vs, field);
    PathsConcat(Stripped(front), Stripped(vs));
  }

  /** A request rejected by createTaskSchema carries exactly one key per
      failing field, named without the "body." prefix. */
  lemma CreateErrorKeys(b: TaskBody, loadMidnight: int)
    ensures ErrorMap(Stripped(CreateTaskViolations(b, loadMidnight))).Keys ==
      Key(CreateTitleViolations(b.title), "title")
      + Key(DescriptionViolations(b.description), "description")
      + Key(CreateDueDateViolations(b.dueDate, loadMidnight), "dueDate")
      + Key(CreateCategoryViolations(b.category), "category")
      + Key(PriorityEnum(b.priority), "priority")
      + Key(StatusEnum(b.status), "status")
      + Key(AssignedToViolations(b.assignedTo), "assignedTo")
  {
    CreateFieldPaths(b, loadMidnight);
    SevenFieldKeys(
      CreateTitleViolations(b.title), DescriptionViolations(b.description),
      CreateDueDateViolations(b.dueDate, loadMidnight), CreateCategoryViolations(b.category),
      PriorityEnum(b.priority), StatusEnum(b.status), AssignedToViolations(b.assignedTo),
      "title", "description", "dueDate", "category", "priority", "status", "assignedTo");
  }

  lemma CreateFieldPaths(b: TaskBody, loadMidnight: int)
    ensures AllAt(CreateTitleViolations(b.title), BodyPath("title"))
    ensures AllAt(DescriptionViolations(b.description), BodyPath("description"))
    ensures AllAt(CreateDueDateViolations(b.dueDate, loadMidnight), BodyPath("dueDate"))
    ensures AllAt(CreateCategoryViolations(b.category), BodyPath("category"))
    ensures AllAt(PriorityEnum(b.priority), BodyPath("priority"))
    ensures AllAt(StatusEnum(b.status), BodyPath("status"))
    ensures AllAt(AssignedToViolations(b.assignedTo), BodyPath("assignedTo"))
  {
  }

  lemma SevenFieldKeys(t: seq<Violation>, d: seq<Violation>, u: seq<Violation>, c: seq<Violation>,
                       p: seq<Violation>, s: seq<Violation>, a: seq<Violation>,
                       ft: string, fd: string, fu: string, fc: string, fp: string, fs: string, fa: string)
    requires AllAt(t, BodyPath(ft)) && AllAt(d, BodyPath(fd)) && AllAt(u, BodyPath(fu))
    requires AllAt(c, BodyPath(fc)) && AllAt(p, BodyPath(fp)) && AllAt(s, BodyPath(fs))
    requires AllAt(a, BodyPath(fa))
    ensures Paths(Stripped(t + d + u + c + p + s + a)) ==
      Key(t, ft) + Key(d, fd) + Key(u, fu) + Key(c, fc) + Key(p, fp) + Key(s, fs) + Key(a, fa)
  {
    AppendFieldKey([], t, ft);
    assert [] + t == t;
    AppendFieldKey(t, d, fd);
    AppendFieldKey(t + d, u, fu);
    AppendFieldKey(t + d + u, c, fc);
    AppendFieldKey(t + d + u + c, p, fp);
    AppendFieldKey(t + d + u + c + p, s, fs);
    AppendFieldKey(t + d + u + c + p + s, a, fa);
  }

  /** When a field fails exactly one test and no later violation is about
      it, the error object holds that test's message under the field. */
  lemma SoleFirstMessage(message: string, rest: seq<Violation>, field: string)
    requires forall x :: x in rest ==> StripLocation(x.path) != field
    ensures var errors := ErrorMap(Stripped([Violation(BodyPath(field), message)] + rest));
      field in errors && errors[field] == message
  {
    var all := Stripped([Violation(BodyPath(field), message)] + rest);
    StripBodyField(field);
    assert all[0] == Violation(field, message);
    forall k | 0 < k < |all| ensures all[k].path != field {
      assert rest[k - 1] in rest;
    }
    ErrorMapLastWins(all, 0);
  }

  /** Creating a task whose trimmed title has one or two characters (such as
      "ab") answers 400 with errors.title == "Title must be at least 3
      characters", whatever the other fields hold. */
  lemma ShortTitleRejected(b: TaskBody, loadMidnight: int)
    requires b.title.Str? && 0 < |Trim(b.title.s)| < TitleMin
    ensures var errors := ErrorMap(Stripped(CreateTaskViolations(b, loadMidnight)));
      "title" in errors && errors["title"] == TitleMinMessage
  {
    ShortTitleViolation(b.title.s);
    CreateFieldPaths(b, loadMidnight);
    assert "title" !in {"description", "dueDate", "category", "priority", "status", "assignedTo"};
    FirstFieldMessage(TitleMinMessage,
      DescriptionViolations(b.description), CreateDueDateViolations(b.dueDate, loadMidnight),
      CreateCategoryViolations(b.category), PriorityEnum(b.priority), StatusEnum(b.status),
      AssignedToViolations(b.assignedTo),
      "title", "description", "dueDate", "category", "priority", "status", "assignedTo");
  }

  /** A title of one or two characters once trimmed fails the length test
      only. */
  lemma ShortTitleViolation(s: string)
    requires 0 < |Trim(s)| < TitleMin
    ensures CreateTitleViolations(Str(s)) == [Violation(BodyPath("title"), TitleMinMessage)]
  {
  }

  /** The first of seven fields failing exactly one test keeps that test's
      message in the error object. */
  lemma FirstFieldMessage(message: string, d: seq<Violation>, u: seq<Violation>, c: seq<Violation>,
                          p: seq<Violation>, s: seq<Violation>, a: seq<Violation>,
                          ft: string, fd: string, fu: string, fc: string, fp: string, fs: string, fa: string)
    requires AllAt(d, BodyPath(fd)) && AllAt(u, BodyPath(fu)) && AllAt(c, BodyPath(fc))
    requires AllAt(p, BodyPath(fp)) && AllAt(s, BodyPath(fs)) && AllAt(a, BodyPath(fa))
    requires ft !in {fd, fu, fc, fp, fs, fa}
    ensures var errors := ErrorMap(Stripped([Violation(BodyPath(ft), message)] + d + u + c + p + s + a));
      ft in errors && errors[ft] == message
  {
    var t := [Violation(BodyPath(ft), message)];
    OtherFieldsElsewhere(d, u, c, p, s, a, fd, fu, fc, fp, fs, fa, ft);
    RegroupFirst(t, d, u, c, p, s, a);
    SoleFirstMessage(message, d + u + c + p + s + a, ft);
  }

  lemma RegroupFirst(t: seq<Violation>, d: seq<Violation>, u: seq<Violation>, c: seq<Violation>,
                     p: seq<Violation>, s: seq<Violation>, a: seq<Violation>)
    ensures t + d + u + c + p + s + a == t + (d + u + c + p + s + a)
  {
  }

  /** Violations about six fields other than `field` never strip to it. */
  lemma OtherFieldsElsewhere(d: seq<Violation>, u: seq<Violation>, c: seq<Violation>,
                             p: seq<Violation>, s: seq<Violation>, a: seq<Violation>,
                             fd: string, fu: string, fc: string, fp: string, fs: string, fa: string,
                             field: string)
    requires AllAt(d, BodyPath(fd)) && AllAt(u, BodyPath(fu)) && AllAt(c, BodyPath(fc))
    requires AllAt(p, BodyPath(fp)) && AllAt(s, BodyPath(fs)) && AllAt(a, BodyPath(fa))
    requires field !in {fd, fu, fc, fp, fs, fa}
    ensures forall x :: x in d + u + c + p + s + a ==> StripLocation(x.path) != field
  {
    StripBodyField(fd);
    StripBodyField(fu);
    StripBodyField(fc);
    StripBodyField(fp);
    StripBodyField(fs);
    StripBodyField(fa);
  }
}
