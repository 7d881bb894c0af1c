/** The building blocks the yup schemas of the application are made of:
    one failing test gives one (path, message) violation, and a field's
    tests are reported in the order they are declared. */
module SchemaRules {
  import opened FieldErrors

  /** The path yup gives a field of the request body. */
  function BodyPath(field: string): string
  {
    "body." + field
  }

  /** A test that passes when `ok` holds. */
  function Check(ok: bool, path: string, message: string): (r: seq<Violation>)
    ensures r == [] <==> ok
    ensures forall v :: v in r ==> v.path == path
  {
    if ok then [] else [Violation(path, message)]
  }

  /** yup's message for null on a path that is not `nullable()`. */
  function NotNullMessage(path: string): string
  {
    path + " cannot be null"
  }

  /** yup's message for a value `date()` cannot cast (an Invalid Date). */
  function DateTypeMessage(path: string): string
  {
    path + " must be a `date` type, but the final value was: `Invalid Date`."
  }

  /** Every violation of vs is about `path`. */
  predicate AllAt(vs: seq<Violation>, path: string)
  {
    forall v :: v in vs ==> v.path == path
  }

  /** When a field's violations are followed only by other paths, its last
      message is the one the error map keeps. */
  lemma LastMessageWins(pre: seq<Violation>, a: seq<Violation>, post: seq<Violation>, path: string)
    requires a != [] && AllAt(a, path)
    requires forall v :: v in post ==> v.path != path
    ensures path in ErrorMap(pre + a + post) && ErrorMap(pre + a + post)[path] == a[|a| - 1].message
  {
    var vs := pre + a + post;
    var j := |pre| + |a| - 1;
    assert vs[j] == a[|a| - 1] && a[|a| - 1] in a;
    forall k | j < k < |vs| ensures vs[k].path != vs[j].path {
      assert vs[k] == post[k - |pre| - |a|];
      assert post[k - |pre| - |a|] in post;
    }
    ErrorMapLastWins(vs, j);
  }

  /** Violations of fields with other paths say nothing about `path`. */
  lemma PathsAvoid(b: seq<Violation>, c: seq<Violation>, d: seq<Violation>, e: seq<Violation>, f: seq<Violation>,
                             pb: string, pc: string, pd: string, pe: string, pf: string, path: string)
    requires AllAt(b, pb) && AllAt(c, pc) && AllAt(d, pd) && AllAt(e, pe) && AllAt(f, pf)
    requires path !in {pb, pc, pd, pe, pf}
    ensures forall v :: v in b + c + d + e + f ==> v.path != path
  {
  }

  lemma Regroup(a: seq<Violation>, b: seq<Violation>, c: seq<Violation>, d: seq<Violation>, e: seq<Violation>, f: seq<Violation>)
    ensures a + b + c + d + e + f == [] + a + (b + c + d + e + f)
  {
  }
}
