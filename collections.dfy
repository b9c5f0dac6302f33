/// Sequence facts shared by the model: duplicate-freedom, flattening, and
/// Python's `list(s)` of a set, whose order the language leaves unspecified.
module Collections {

  /** No element occurs twice in `s`. */
  ghost predicate Distinct<T>(s: seq<T>) {
    forall i, j :: 0 <= i < j < |s| ==> s[i] != s[j]
  }

  /** `l` is one of the lists `list(s)` may return: every member of `s`
      exactly once, in some order. */
  ghost predicate IsListing<T(!new)>(l: seq<T>, s: set<T>) {
    Distinct(l) && |l| == |s| && forall x :: x in l <==> x in s
  }

  /** The concatenation of `parts`, in order. */
  function Concat<T>(parts: seq<seq<T>>): (r: seq<T>)
    ensures |parts| == 1 ==> r == parts[0]
  {
    if parts == [] then [] else Concat(parts[..|parts| - 1]) + parts[|parts| - 1]
  }

  /** The parts joined with `sep` between neighbours, like Python's
      `sep.join(parts)`. */
  function Join<T>(parts: seq<seq<T>>, sep: T): (r: seq<T>)
    ensures |parts| == 1 ==> r == parts[0]
  {
    if parts == [] then [] else if |parts| == 1 then parts[0] else parts[0] + [sep] + Join(parts[1..], sep)
  }

  lemma {:induction false} ConcatAppend<T>(a: seq<seq<T>>, b: seq<seq<T>>)
    ensures Concat(a + b) == Concat(a) + Concat(b)
    decreases |b|
  {
    if b == [] {
      assert a + b == a;
    } else {
      var b' := b[..|b| - 1];
      assert (a + b)[..|a + b| - 1] == a + b';
      ConcatAppend(a, b');
    }
  }

  lemma ConcatSnoc<T>(parts: seq<seq<T>>, p: seq<T>)
    ensures Concat(parts + [p]) == Concat(parts) + p
  {
    assert (parts + [p])[..|parts|] == parts;
  }

  lemma ConcatCons<T>(p: seq<T>, ps: seq<seq<T>>)
    ensures Concat([p] + ps) == p + Concat(ps)
  {
    ConcatAppend([p], ps);
  }

  /** `list(s)`: Python enumerates a set in an order that depends on hash
      values and insertion history; the method chooses freely. */
  method ListOfSet<T(!new)>(s: set<T>) returns (l: seq<T>)
    ensures IsListing(l, s)
  {
    l := [];
    var rest := s;
    while rest != {}
      invariant rest <= s
      invariant Distinct(l)
      invariant |l| + |rest| == |s|
      invariant forall x :: x in l <==> x in s && x !in rest
      decreases |rest|
    {
      var x :| x in rest;
      assert |rest - {x}| + 1 == |rest|;
      l := l + [x];
      rest := rest - {x};
    }
  }
}
