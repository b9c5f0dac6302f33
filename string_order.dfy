/// Python's ordering of `str` values (code point by code point, a proper
/// prefix first) and `sorted` over a list of strings.
module StringOrder {

  /** `a < b` on Python strings. */
  predicate Below(a: string, b: string)
  {
    if |a| == 0 then |b| > 0
    else if |b| == 0 then false
    else if a[0] != b[0] then a[0] < b[0]
    else Below(a[1..], b[1..])
  }

  lemma {:induction false} BelowIrreflexive(a: string)
    ensures !Below(a, a)
  {
    if |a| > 0 {
      BelowIrreflexive(a[1..]);
    }
  }

  lemma {:induction false} BelowAsymmetric(a: string, b: string)
    ensures !(Below(a, b) && Below(b, a))
  {
    if |a| > 0 && |b| > 0 && a[0] == b[0] {
      BelowAsymmetric(a[1..], b[1..]);
    }
  }

  lemma {:induction false} BelowTransitive(a: string, b: string, c: string)
    requires Below(a, b) && Below(b, c)
    ensures Below(a, c)
  {
    if |a| > 0 && a[0] == b[0] && b[0] == c[0] {
      BelowTransitive(a[1..], b[1..], c[1..]);
    }
  }

  lemma {:induction false} BelowTotal(a: string, b: string)
    ensures a == b || Below(a, b) || Below(b, a)
  {
    if |a| > 0 && |b| > 0 && a[0] == b[0] {
      BelowTotal(a[1..], b[1..]);
      if a[1..] == b[1..] {
        assert a == [a[0]] + a[1..] && b == [b[0]] + b[1..];
      }
    }
  }

  /** No later element is below an earlier one. */
  ghost predicate Sorted(s: seq<string>) {
    forall i, j :: 0 <= i < j < |s| ==> !Below(s[j], s[i])
  }

  /** `x` placed into the sorted list `s` before the first element not below it. */
  function Insert(x: string, s: seq<string>): (r: seq<string>)
    ensures multiset(r) == multiset(s) + multiset{x}
  {
    if s == [] then [x]
    else if Below(s[0], x) then
      assert s == [s[0]] + s[1..];
      [s[0]] + Insert(x, s[1..])
    else [x] + s
  }

  lemma {:induction false} InsertSorted(x: string, s: seq<string>)
    requires Sorted(s)
    ensures Sorted(Insert(x, s))
  {
    if s != [] {
      if Below(s[0], x) {
        SortedTail(s);
        InsertSorted(x, s[1..]);
        InsertBehindHead(x, s);
      } else {
        InsertAtHead(x, s);
      }
    }
  }

  lemma InsertMember(x: string, s: seq<string>, y: string)
    requires y in Insert(x, s)
    ensures y == x || y in s
  {
    assert y in multiset(Insert(x, s));
  }

  /** No element of a sorted list is below its head. */
  lemma HeadNotAbove(s: seq<string>, y: string)
    requires Sorted(s) && s != [] && y in s
    ensures !Below(y, s[0])
  {
    var k :| 0 <= k < |s| && s[k] == y;
    if k == 0 {
      BelowIrreflexive(y);
    }
  }

  /** `x` goes behind a head that is below it. */
  lemma InsertBehindHead(x: string, s: seq<string>)
    requires Sorted(s) && s != [] && Below(s[0], x)
    requires Sorted(Insert(x, s[1..]))
    ensures Sorted(Insert(x, s))
  {
    var t := Insert(x, s[1..]);
    forall y | y in t
      ensures !Below(y, s[0])
    {
      InsertMember(x, s[1..], y);
      if y == x {
        BelowAsymmetric(x, s[0]);
      } else {
        HeadNotAbove(s, y);
      }
    }
    var r := [s[0]] + t;
    assert Insert(x, s) == r;
    forall i, j | 0 <= i < j < |r|
      ensures !Below(r[j], r[i])
    {
      if i == 0 {
        assert r[j] == t[j - 1];
        assert r[j] in t;
      } else {
        assert r[i] == t[i - 1] && r[j] == t[j - 1];
      }
    }
  }

  /** No element of a sorted list whose head is not below `x` is below `x`. */
  lemma NotBelowAfterHead(x: string, s: seq<string>, k: nat)
    requires Sorted(s) && k < |s| && !Below(s[0], x)
    ensures !Below(s[k], x)
  {
    if k > 0 && Below(s[k], x) {
      BelowTotal(x, s[0]);
      if x != s[0] {
        BelowTransitive(s[k], x, s[0]);
      }
    }
  }

  /** `x` goes in front of a head that is not below it. */
  lemma InsertAtHead(x: string, s: seq<string>)
    requires Sorted(s) && s != [] && !Below(s[0], x)
    ensures Sorted(Insert(x, s))
  {
    var r := [x] + s;
    assert Insert(x, s) == r;
    forall i, j | 0 <= i < j < |r|
      ensures !Below(r[j], r[i])
    {
      assert r[j] == s[j - 1];
      if i == 0 {
        NotBelowAfterHead(x, s, j - 1);
      } else {
        assert r[i] == s[i - 1];
      }
    }
  }

  /** `sorted(s)`: the elements of `s` in ascending order. */
  function Sort(s: seq<string>): (r: seq<string>)
    ensures multiset(r) == multiset(s)
    ensures Sorted(r)
  {
    if s == [] then []
    else
      assert s == [s[0]] + s[1..];
      var rest := Sort(s[1..]);
      InsertSorted(s[0], rest);
      Insert(s[0], rest)
  }

  lemma SortedTail(s: seq<string>)
    requires Sorted(s) && s != []
    ensures Sorted(s[1..])
  {
    forall i, j | 0 <= i < j < |s| - 1
      ensures !Below(s[1..][j], s[1..][i])
    {
      assert s[1..][j] == s[j + 1] && s[1..][i] == s[i + 1];
    }
  }

  /** Two sorted lists with the same elements start with the same one:
      each head is not above every element of the other list. */
  lemma SortedHeadsEqual(a: seq<string>, b: seq<string>)
    requires Sorted(a) && Sorted(b) && multiset(a) == multiset(b)
    requires a != [] && b != []
    ensures a[0] == b[0]
  {
    assert a[0] in multiset(b) && b[0] in multiset(a);
    var i :| 0 <= i < |b| && b[i] == a[0];
    var j :| 0 <= j < |a| && a[j] == b[0];
    if i == 0 {
      BelowIrreflexive(a[0]);
    }
    if j == 0 {
      BelowIrreflexive(a[0]);
    }
    BelowTotal(a[0], b[0]);
  }

  /** Two sorted lists with the same elements are equal: the sorted
      arrangement of a multiset of strings is unique. */
  lemma {:induction false} SortedUnique(a: seq<string>, b: seq<string>)
    requires Sorted(a) && Sorted(b) && multiset(a) == multiset(b)
    ensures a == b
    decreases |a|
  {
    assert |a| == |multiset(a)| == |multiset(b)| == |b|;
    if a != [] {
      SortedHeadsEqual(a, b);
      var a', b' := a[1..], b[1..];
      assert a == [a[0]] + a' && b == [b[0]] + b';
      assert multiset(a') == multiset(b') by {
        assert multiset(a) == multiset{a[0]} + multiset(a');
        assert multiset(b) == multiset{b[0]} + multiset(b');
        assert multiset(a') == multiset(a) - multiset{a[0]};
        assert multiset(b') == multiset(b) - multiset{b[0]};
      }
      SortedTail(a);
      SortedTail(b);
      SortedUnique(a', b');
    }
  }

  /** `sorted` depends only on the multiset of its input. */
  lemma SortByMultiset(a: seq<string>, b: seq<string>)
    requires multiset(a) == multiset(b)
    ensures Sort(a) == Sort(b)
  {
    SortedUnique(Sort(a), Sort(b));
  }

  /** Sorting a sorted list changes nothing. */
  lemma SortSorted(s: seq<string>)
    requires Sorted(s)
    ensures Sort(s) == s
  {
    SortedUnique(Sort(s), s);
  }
}
