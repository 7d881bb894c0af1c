/** Field-level validation errors: a list of (path, message) pairs as a
    schema reports them, and the object `{ [path]: message }` the
    application folds them into, where a later message for the same path
    overwrites an earlier one. */
module FieldErrors {

  datatype Violation = Violation(path: string, message: string)

  function Paths(vs: seq<Violation>): set<string>
  {
    set v | v in vs :: v.path
  }

  predicate DistinctPaths(vs: seq<Violation>)
  {
    forall i, j :: 0 <= i < j < |vs| ==> vs[i].path != vs[j].path
  }

  lemma ConcatDistinct(a: seq<Violation>, b: seq<Violation>)
    requires DistinctPaths(a) && DistinctPaths(b)
    requires forall x, y :: x in a && y in b ==> x.path != y.path
    ensures DistinctPaths(a + b)
  {
    var ab := a + b;
    forall i, j | 0 <= i < j < |ab| ensures ab[i].path != ab[j].path {
      if j < |a| {
        assert ab[i] == a[i] && ab[j] == a[j];
      } else if i >= |a| {
        assert ab[i] == b[i - |a|] && ab[j] == b[j - |a|];
      } else {
        assert ab[i] in a && ab[j] in b;
      }
    }
  }

  /** Appending at most one violation, at a path the list does not use yet,
      keeps the paths distinct. */
  lemma AppendNewPath(a: seq<Violation>, b: seq<Violation>, ps: set<string>, p: string)
    requires DistinctPaths(a) && forall v :: v in a ==> v.path in ps
    requires |b| <= 1 && (forall v :: v in b ==> v.path == p) && p !in ps
    ensures DistinctPaths(a + b) && forall v :: v in a + b ==> v.path in ps + {p}
  {
    ConcatDistinct(a, b);
  }

  /** The left fold `acc[v.path] = v.message` over vs, from an empty object. */
  function ErrorMap(vs: seq<Violation>): (m: map<string, string>)
    ensures m.Keys == Paths(vs)
  {
    if vs == [] then map[]
    else
      var last := vs[|vs| - 1];
      var m := ErrorMap(vs[..|vs| - 1])[last.path := last.message];
      assert Paths(vs) == Paths(vs[..|vs| - 1]) + {last.path} by {
        assert vs == vs[..|vs| - 1] + [last];
      }
      m
  }

  /** In the folded object every path carries the message of its LAST
      violation. */
  lemma {:induction false} ErrorMapLastWins(vs: seq<Violation>, j: nat)
    requires j < |vs|
    requires forall k :: j < k < |vs| ==> vs[k].path != vs[j].path
    ensures ErrorMap(vs)[vs[j].path] == vs[j].message
  {
    if j < |vs| - 1 {
      var init := vs[..|vs| - 1];
      assert init[j] == vs[j];
      forall k | j < k < |init| ensures init[k].path != init[j].path {
        assert init[k] == vs[k];
      }
      ErrorMapLastWins(init, j);
    }
  }

  /** The `forEach` / `reduce` loop that fills the error object. */
  method Collect(vs: seq<Violation>) returns (errors: map<string, string>)
    ensures errors == ErrorMap(vs)
  {
    errors := map[];
    var i := 0;
    while i < |vs|
      invariant 0 <= i <= |vs|
      invariant errors == ErrorMap(vs[..i])
    {
      assert vs[..i + 1][..i] == vs[..i];
      errors := errors[vs[i].path := vs[i].message];
      i := i + 1;
    }
    assert vs[..|vs|] == vs;
  }
}
