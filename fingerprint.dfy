/// The duplicate fingerprint of a datum (`_hash_datum`): every field is
/// rewritten in place to a list, all list elements are gathered, sorted,
/// joined, stripped of spaces and hashed. The MD5 digest itself is a
/// parameter: only its input is modelled.
module Fingerprint {
  import opened Json
  import opened Collections
  import opened StringOrder

  /** The rewrite of one field: None becomes `[]`, a list stays, anything
      else `x` becomes `[x]`. */
  function Lift(v: Value): (r: Value)
    ensures r.Arr?
    ensures v == Null ==> r == Arr([])
    ensures v.Arr? ==> r == v
    ensures v != Null && !v.Arr? ==> r == Arr([v])
  {
    if v == Null then Arr([]) else if v.Arr? then v else Arr([v])
  }

  /** The datum after the in-place loop of `_hash_datum`. */
  function Canonical(row: Row): (r: Row)
    ensures |r| == |row|
    ensures forall i :: 0 <= i < |r| ==> r[i].Arr?
    ensures forall i :: 0 <= i < |row| ==>
      && (row[i] == Null ==> r[i] == Arr([]))
      && (row[i].Arr? ==> r[i] == row[i])
      && (row[i] != Null && !row[i].Arr? ==> r[i] == Arr([row[i]]))
  {
    seq(|row|, i requires 0 <= i < |row| => Lift(row[i]))
  }

  /** Rewriting an already rewritten datum changes nothing: the rows the
      extractor keeps are fixed points. */
  lemma CanonicalIdempotent(row: Row)
    ensures Canonical(Canonical(row)) == Canonical(row)
  {
  }

  /** `[item for sublist in datum for item in sublist]` over the rewritten
      fields, field by field in order. */
  function Flatten(row: Row): (r: seq<Value>)
    ensures forall v :: v in r <==> exists i :: 0 <= i < |row| && v in Lift(row[i]).items
  {
    if row == [] then [] else Flatten(row[..|row| - 1]) + Lift(row[|row| - 1]).items
  }

  lemma {:induction false} FlattenAppend(a: Row, b: Row)
    ensures Flatten(a + b) == Flatten(a) + Flatten(b)
    decreases |b|
  {
    if b == [] {
      assert a + b == a;
    } else {
      var b', last := b[..|b| - 1], b[|b| - 1];
      assert (a + b)[..|a + b| - 1] == a + b';
      assert (a + b)[|a + b| - 1] == last;
      FlattenAppend(a, b');
      calc {
        Flatten(a + b);
        Flatten(a + b') + Lift(last).items;
        (Flatten(a) + Flatten(b')) + Lift(last).items;
        Flatten(a) + (Flatten(b') + Lift(last).items);
      }
    }
  }

  /** Flattening does not depend on whether the rewrite has happened. */
  lemma {:induction false} FlattenCanonical(row: Row)
    ensures Flatten(Canonical(row)) == Flatten(row)
    decreases |row|
  {
    if row != [] {
      assert Canonical(row)[..|row| - 1] == Canonical(row[..|row| - 1]);
      FlattenCanonical(row[..|row| - 1]);
    }
  }

  /** Taking field `x` out of a datum takes its elements out of the
      flattened list. */
  lemma FlattenRemove(before: Row, x: Value, after: Row)
    ensures multiset(Flatten(before + [x] + after)) == multiset(Flatten(before + after)) + multiset(Lift(x).items)
  {
    FlattenAppend(before + [x], after);
    FlattenAppend(before, [x]);
    FlattenAppend(before, after);
    assert Flatten([x]) == Lift(x).items by {
      assert [x][..0] == [];
      assert [x][0] == x;
    }
  }

  lemma SplitAround(b: Row, k: nat)
    requires k < |b|
    ensures b[..k] + [b[k]] + b[k + 1..] == b
  {
  }

  /** Reordering the fields of a datum reorders the flattened elements
      without changing how often each occurs. */
  lemma {:induction false} FlattenPermutation(a: Row, b: Row)
    requires multiset(a) == multiset(b)
    ensures multiset(Flatten(a)) == multiset(Flatten(b))
    decreases |a|
  {
    assert |a| == |multiset(a)| == |multiset(b)| == |b|;
    if a != [] {
      var front, x := a[..|a| - 1], a[|a| - 1];
      assert a == front + [x];
      assert x in multiset(b);
      var k :| 0 <= k < |b| && b[k] == x;
      var rest := b[..k] + b[k + 1..];
      assert multiset(rest) == multiset(front) by {
        SplitAround(b, k);
        assert multiset(b) == multiset(b[..k]) + multiset{x} + multiset(b[k + 1..]);
        assert multiset(rest) == multiset(b[..k]) + multiset(b[k + 1..]);
        assert multiset(front) == multiset(a) - multiset{x};
      }
      FlattenPermutation(front, rest);
      FlattenRemove(b[..k], x, b[k + 1..]);
      FlattenRemove(front, x, []);
      assert front + [x] + [] == a && front + [] == front;
      SplitAround(b, k);
      var m := multiset(Lift(x).items);
      assert multiset(Flatten(a)) == multiset(Flatten(front)) + m;
      assert multiset(Flatten(b)) == multiset(Flatten(rest)) + m;
    }
  }

  /** The strings of `vs`; any other element makes the `''.join` (or
      already the `sorted`) raise TypeError. */
  function StringsOf(vs: seq<Value>): (r: Result<seq<string>>)
    ensures r.Ok? <==> forall i :: 0 <= i < |vs| ==> vs[i].Str?
    ensures r.Ok? ==> |r.value| == |vs| && forall i :: 0 <= i < |vs| ==> vs[i] == Str(r.value[i])
    ensures r.Err? ==> r.error == TypeError
  {
    if vs == [] then Ok([])
    else if !vs[0].Str? then Err(TypeError)
    else
      var rest :- StringsOf(vs[1..]);
      assert forall i :: 1 <= i < |vs| ==> vs[i] == vs[1..][i - 1];
      Ok([vs[0].s] + rest)
  }

  lemma {:induction false} StringsOfCount(vs: seq<Value>, x: string)
    requires StringsOf(vs).Ok?
    ensures multiset(StringsOf(vs).value)[x] == multiset(vs)[Str(x)]
  {
    if vs != [] {
      StringsOfCount(vs[1..], x);
      assert vs == [vs[0]] + vs[1..];
      assert StringsOf(vs).value == [vs[0].s] + StringsOf(vs[1..]).value;
    }
  }

  /** `s.split(sep)` with an explicit separator: the pieces between
      separators, empty ones included. */
  function Split(s: string, sep: char): (r: seq<string>)
    ensures |r| >= 1
    ensures forall i :: 0 <= i < |r| ==> sep !in r[i]
  {
    if s == [] then [""]
    else
      var rest := Split(s[1..], sep);
      if s[0] == sep then [""] + rest
      else
        assert forall i :: 1 <= i < |rest| ==> ([[s[0]] + rest[0]] + rest[1..])[i] == rest[i];
        [[s[0]] + rest[0]] + rest[1..]
  }

  /** Joining the pieces with the separator gives back the string. */
  lemma {:induction false} JoinSplit(s: string, sep: char)
    ensures Join(Split(s, sep), sep) == s
  {
    if s != [] {
      JoinSplit(s[1..], sep);
      var rest := Split(s[1..], sep);
      if s[0] == sep {
        assert ([""] + rest)[1..] == rest;
      } else {
        var r := [[s[0]] + rest[0]] + rest[1..];
        assert r[1..] == rest[1..];
        assert s == [s[0]] + s[1..];
      }
    }
  }

  /** `s` with every occurrence of `c` removed. */
  function Erase(s: string, c: char): (r: string)
    ensures c !in r
    ensures forall x :: x != c ==> multiset(r)[x] == multiset(s)[x]
  {
    if s == [] then ""
    else
      assert s == [s[0]] + s[1..];
      if s[0] == c then Erase(s[1..], c) else [s[0]] + Erase(s[1..], c)
  }

  /** `''.join(s.split(c))` removes every `c` from `s`. */
  lemma {:induction false} ConcatSplit(s: string, c: char)
    ensures Concat(Split(s, c)) == Erase(s, c)
  {
    if s != [] {
      ConcatSplit(s[1..], c);
      var rest := Split(s[1..], c);
      if s[0] == c {
        assert Split(s, c) == [""] + rest;
        assert Erase(s, c) == Erase(s[1..], c);
        ConcatCons("", rest);
      } else {
        assert Split(s, c) == [[s[0]] + rest[0]] + rest[1..];
        assert Erase(s, c) == [s[0]] + Erase(s[1..], c);
        assert rest == [rest[0]] + rest[1..];
        ConcatFirstGrown(s[0], rest[0], rest[1..]);
      }
    }
  }

  /** Growing the first piece grows the concatenation at its front. */
  lemma ConcatFirstGrown(x: char, first: string, others: seq<string>)
    ensures Concat([[x] + first] + others) == [x] + Concat([first] + others)
  {
    ConcatCons(first, others);
    ConcatCons([x] + first, others);
    var tail := Concat(others);
    assert ([x] + first) + tail == [x] + (first + tail);
  }

  /** The string `_hash_datum` feeds to MD5, or TypeError when some element
      of a rewritten field is not a string. */
  function Key(row: Row): (r: Result<string>)
    ensures r.Ok? <==> forall i :: 0 <= i < |Flatten(row)| ==> Flatten(row)[i].Str?
    ensures r.Err? ==> r.error == TypeError
    ensures r.Ok? ==> ' ' !in r.value
  {
    FlattenCanonical(row);
    var strings :- StringsOf(Flatten(Canonical(row)));
    var joined := Concat(Sort(strings));
    ConcatSplit(joined, ' ');
    Ok(Concat(Split(joined, ' ')))
  }

  /** The hex digest `_hash_datum` returns, `md5` standing for MD5 over the
      UTF-8 encoding. */
  function Hash(row: Row, md5: string -> string): (r: Result<string>)
    ensures r.Ok? <==> Key(row).Ok?
    ensures r.Ok? ==> r.value == md5(Key(row).value)
    ensures r.Err? ==> r.error == TypeError
  {
    var key :- Key(row);
    Ok(md5(key))
  }

  /** The key is the joined sorted strings with the spaces erased. */
  lemma KeyIsErasedSortedJoin(row: Row)
    ensures Key(row) == match StringsOf(Flatten(row))
      case Err(e) => Err(e)
      case Ok(strings) => Ok(Erase(Concat(Sort(strings)), ' '))
  {
    FlattenCanonical(row);
    if StringsOf(Flatten(row)).Ok? {
      ConcatSplit(Concat(Sort(StringsOf(Flatten(row)).value)), ' ');
    }
  }

  /** Two element lists with the same multiset are both all strings or
      both not, and then their strings have the same multiset. */
  lemma StringsByMultiset(fa: seq<Value>, fb: seq<Value>)
    requires multiset(fa) == multiset(fb)
    ensures StringsOf(fa).Ok? <==> StringsOf(fb).Ok?
    ensures StringsOf(fa).Ok? ==> multiset(StringsOf(fa).value) == multiset(StringsOf(fb).value)
  {
    if StringsOf(fa).Ok? {
      forall i | 0 <= i < |fb|
        ensures fb[i].Str?
      {
        assert fb[i] in multiset(fa);
      }
      var sa, sb := StringsOf(fa).value, StringsOf(fb).value;
      forall x
        ensures multiset(sa)[x] == multiset(sb)[x]
      {
        StringsOfCount(fa, x);
        StringsOfCount(fb, x);
      }
    } else {
      var i :| 0 <= i < |fa| && !fa[i].Str?;
      assert fa[i] in multiset(fb);
    }
  }

  /** The key depends only on how often each element occurs across all
      fields: not on their order, nor on which field holds them. */
  lemma KeyByMultiset(a: Row, b: Row)
    requires multiset(Flatten(a)) == multiset(Flatten(b))
    ensures Key(a) == Key(b)
  {
    KeyIsErasedSortedJoin(a);
    KeyIsErasedSortedJoin(b);
    StringsByMultiset(Flatten(a), Flatten(b));
    if StringsOf(Flatten(a)).Ok? {
      SortByMultiset(StringsOf(Flatten(a)).value, StringsOf(Flatten(b)).value);
    }
  }

  /** Reordering the fields of a datum does not change its key. */
  lemma KeyFieldPermutation(a: Row, b: Row)
    requires multiset(a) == multiset(b)
    ensures Key(a) == Key(b)
  {
    FlattenPermutation(a, b);
    KeyByMultiset(a, b);
  }

  lemma FlattenPair(u: seq<Value>, v: seq<Value>)
    ensures Flatten([Arr(u), Arr(v)]) == u + v
  {
    assert [Arr(u), Arr(v)][..1] == [Arr(u)];
    assert [Arr(u)][..0] == [];
    assert Flatten([Arr(u)]) == [] + u;
  }

  /** Moving elements from one list field into the next does not change
      the key: field boundaries are not part of it. */
  lemma KeyIgnoresFieldBoundaries(x: seq<Value>, y: seq<Value>, z: seq<Value>)
    ensures Key([Arr(x + y), Arr(z)]) == Key([Arr(x), Arr(y + z)])
  {
    FlattenPair(x + y, z);
    FlattenPair(x, y + z);
    assert (x + y) + z == x + (y + z);
    KeyByMultiset([Arr(x + y), Arr(z)], [Arr(x), Arr(y + z)]);
  }

  /** A datum whose only element is one string is keyed by that string
      without its spaces. */
  lemma KeyOfOneString(s: string)
    ensures Key([Str(s)]) == Ok(Erase(s, ' '))
  {
    assert [Str(s)][..0] == [];
    assert Flatten([Str(s)]) == [Str(s)];
    assert [Str(s)][1..] == [];
    assert StringsOf([]) == Ok([]);
    assert StringsOf([Str(s)]) == Ok([s] + []);
    KeyIsErasedSortedJoin([Str(s)]);
  }

  lemma ConcatPair(u: string, v: string)
    ensures Concat([u, v]) == u + v
  {
    ConcatCons(u, [v]);
    assert [u] + [v] == [u, v];
  }

  lemma EraseCons(x: char, rest: string, c: char)
    ensures Erase([x] + rest, c) == if x == c then Erase(rest, c) else [x] + Erase(rest, c)
  {
    assert ([x] + rest)[1..] == rest;
  }

  lemma {:induction false} EraseAppend(a: string, b: string, c: char)
    ensures Erase(a + b, c) == Erase(a, c) + Erase(b, c)
  {
    if a != [] {
      EraseAppend(a[1..], b, c);
      assert a + b == [a[0]] + (a[1..] + b);
      EraseCons(a[0], a[1..] + b, c);
      EraseCons(a[0], a[1..], c);
      assert a == [a[0]] + a[1..];
    } else {
      assert a + b == b;
    }
  }

  lemma {:induction false} EraseAbsent(s: string, c: char)
    requires c !in s
    ensures Erase(s, c) == s
  {
    if s != [] {
      EraseAbsent(s[1..], c);
      EraseCons(s[0], s[1..], c);
      assert s == [s[0]] + s[1..];
    }
  }

  lemma EraseOfSpaced()
    ensures Erase("a b", ' ') == Erase("ab", ' ') == "ab"
  {
    EraseAbsent("ab", ' ');
    EraseAbsent("a", ' ');
    EraseAbsent("b", ' ');
    EraseCons(' ', "b", ' ');
    assert "a b" == "a" + " b";
    EraseAppend("a", " b", ' ');
    assert " b" == [' '] + "b";
    assert "a" + "b" == "ab";
  }

  lemma EraseExamples()
    ensures Erase("a b", ' ') == Erase("ab", ' ') == "ab"
    ensures Erase("a b" + "aa", ' ') == "abaa"
    ensures Erase("aa" + "ab", ' ') == "aaab"
  {
    EraseOfSpaced();
    EraseAbsent("aa", ' ');
    EraseAbsent("aaab", ' ');
    EraseAppend("a b", "aa", ' ');
    assert "ab" + "aa" == "abaa";
    assert "aa" + "ab" == "aaab";
  }

  /** A datum of plain strings flattens to itself: each is wrapped in a
      one-element list. */
  lemma {:induction false} FlattenOfStrings(row: Row)
    requires forall i :: 0 <= i < |row| ==> row[i].Str?
    ensures Flatten(row) == row
  {
    if row != [] {
      FlattenOfStrings(row[..|row| - 1]);
      assert row == row[..|row| - 1] + [row[|row| - 1]];
    }
  }

  lemma StringsOfPair(u: string, v: string)
    ensures StringsOf([Str(u), Str(v)]) == Ok([u, v])
  {
    var row := [Str(u), Str(v)];
    assert row[1..] == [Str(v)] && [Str(v)][1..] == [];
    assert StringsOf([]) == Ok([]);
    assert [v] + [] == [v];
    assert StringsOf(row[1..]) == Ok([v]);
    assert [u] + [v] == [u, v];
  }

  /** A datum of two strings already in order is keyed by their
      concatenation without spaces. */
  lemma KeyOfOrderedPair(u: string, v: string)
    requires !Below(v, u)
    ensures Key([Str(u), Str(v)]) == Ok(Erase(u + v, ' '))
  {
    var row := [Str(u), Str(v)];
    FlattenOfStrings(row);
    StringsOfPair(u, v);
    SortSorted([u, v]);
    ConcatPair(u, v);
    KeyIsErasedSortedJoin(row);
  }

  /** On its own, a string with spaces is keyed like the string without
      them. */
  lemma SpaceInsideOneString()
    ensures Key([Str("a b")]) == Key([Str("ab")])
  {
    KeyOfOneString("a b");
    KeyOfOneString("ab");
    EraseExamples();
  }

  lemma KeyOfSpacedBeforeDouble()
    ensures Key([Str("a b"), Str("aa")]) == Ok("abaa")
  {
    assert Below("a b", "aa");
    BelowAsymmetric("a b", "aa");
    KeyOfOrderedPair("a b", "aa");
    EraseExamples();
  }

  lemma KeyOfPlainAfterDouble()
    ensures Key([Str("ab"), Str("aa")]) == Ok("aaab")
  {
    assert Below("aa", "ab");
    BelowAsymmetric("aa", "ab");
    KeyOfOrderedPair("aa", "ab");
    KeySwapPair("ab", "aa");
    EraseExamples();
  }

  /** Two single strings give the same key in either order. */
  lemma KeySwapPair(u: string, v: string)
    ensures Key([Str(u), Str(v)]) == Key([Str(v), Str(u)])
  {
    assert multiset([Str(u), Str(v)]) == multiset([Str(v), Str(u)]);
    KeyFieldPermutation([Str(u), Str(v)], [Str(v), Str(u)]);
  }

  /** Spaces are erased only after sorting, so a space can move a string
      to another place in the order: "a b" and "ab" beside "aa" give
      different keys although each alone gives "ab". */
  lemma SpaceErasedAfterSorting()
    ensures Key([Str("a b"), Str("aa")]) == Ok("abaa")
    ensures Key([Str("ab"), Str("aa")]) == Ok("aaab")
  {
    KeyOfSpacedBeforeDouble();
    KeyOfPlainAfterDouble();
  }

  /** `_hash_datum(datum)`: rewrites each field of `datum` in place, then
      hashes the key of the rewritten datum. The rewrite happens even when
      hashing then raises. */
  method HashDatum(datum: array<Value>, md5: string -> string) returns (r: Result<string>)
    modifies datum
    ensures datum[..] == Canonical(old(datum[..]))
    ensures r == Hash(old(datum[..]), md5)
  {
    var idx := 0;
    while idx < datum.Length
      invariant 0 <= idx <= datum.Length
      invariant forall k :: 0 <= k < idx ==> datum[k] == Lift(old(datum[k]))
      invariant forall k :: idx <= k < datum.Length ==> datum[k] == old(datum[k])
    {
      if datum[idx] == Null {
        datum[idx] := Arr([]);
      } else if !datum[idx].Arr? {
        datum[idx] := Arr([datum[idx]]);
      }
      idx := idx + 1;
    }
    assert datum[..] == Canonical(old(datum[..]));
    FlattenCanonical(old(datum[..]));
    FlattenCanonical(datum[..]);
    CanonicalIdempotent(old(datum[..]));
    r := Hash(datum[..], md5);
  }
}
