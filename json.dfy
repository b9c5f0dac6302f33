/// Decoded JSON values as the extraction code sees them after `json.loads`,
/// and the Python operations the normalisers apply to them (subscript,
/// `.get`, iteration, set comprehension, truthiness), each with the
/// exception Python raises when the value does not support it.
module Json {

  /** A decoded JSON value. `Num` also stands for `true` and `false`:
      Python's `True` and `False` equal, hash and test like 1 and 0, and
      every operation modelled here treats them as those numbers (only
      `str()` tells them apart, and rendering is a parameter). An object
      keeps its members in document order, as a Python dict built by
      `json.loads` does. Two objects with the same members in another
      order are different values here but equal dicts in Python; no
      operation of the extraction compares dicts (they are unhashable, so
      they never meet in a set), so the difference is not observable. */
  datatype Value =
    | Null
    | Num(n: real)
    | Str(s: string)
    | Arr(items: seq<Value>)
    | Obj(members: seq<(string, Value)>)

  /** A normalised row (the Python `datum`): one value per output column. */
  type Row = seq<Value>

  /** The Python exceptions a malformed row raises in the extraction code. */
  datatype Error =
    | KeyError(key: Value)  // a dict subscripted with a key it does not hold
    | TypeError             // subscript or iteration unsupported by the value, an unhashable set member, a join over a non-string
    | IndexError            // a list, string or split result indexed out of range
    | AttributeError        // `.get` called on a value that is not a dict

  datatype Option<+T> = None | Some(value: T)

  datatype Result<+T> = Ok(value: T) | Err(error: Error) {
    predicate IsFailure() { Err? }

    function PropagateFailure<U>(): Result<U>
      requires Err?
    {
      Err(error)
    }

    function Extract(): T
      requires Ok?
    {
      value
    }
  }

  /** The value of the first member of `members` whose key is `key`. */
  function Lookup(members: seq<(string, Value)>, key: string): (r: Option<Value>)
    ensures r.Some? ==> (key, r.value) in members
    ensures r.None? <==> forall i :: 0 <= i < |members| ==> members[i].0 != key
  {
    if |members| == 0 then None
    else if members[0].0 == key then Some(members[0].1)
    else
      var r := Lookup(members[1..], key);
      assert forall i :: 1 <= i < |members| ==> members[i] == members[1..][i - 1];
      r
  }

  /** No two members share a key, as in the objects PostgreSQL's
      `row_to_json` produces. */
  ghost predicate DistinctKeys(members: seq<(string, Value)>) {
    forall i, j :: 0 <= i < j < |members| ==> members[i].0 != members[j].0
  }

  /** With distinct keys, the member read under a key is the one member
      holding it, so reading the first match loses nothing. */
  lemma LookupDistinct(members: seq<(string, Value)>, key: string, v: Value)
    requires DistinctKeys(members) && (key, v) in members
    ensures Lookup(members, key) == Some(v)
  {
  }

  /** `j[key]` with a string key: only a dict supports it. */
  function Get(j: Value, key: string): (r: Result<Value>)
    ensures r.Ok? ==> j.Obj? && (key, r.value) in j.members
    ensures r.Err? ==> r.error == (if j.Obj? then KeyError(Str(key)) else TypeError)
  {
    match j
    case Obj(members) =>
      (match Lookup(members, key)
       case Some(v) => Ok(v)
       case None => Err(KeyError(Str(key))))
    case _ => Err(TypeError)
  }

  /** A key a dict holds is read: the subscript succeeds, and with
      distinct keys it gives the value stored under the key. */
  lemma GetPresent(j: Value, key: string, v: Value)
    requires j.Obj? && (key, v) in j.members
    ensures Get(j, key).Ok?
    ensures DistinctKeys(j.members) ==> Get(j, key) == Ok(v)
  {
  }

  /** `j` is a dict holding `key`. */
  ghost predicate HasKey(j: Value, key: string) {
    j.Obj? && exists v :: (key, v) in j.members
  }

  /** A held key is read, and gives one of the values stored under it. */
  lemma HeldKeyIsRead(j: Value, key: string)
    requires HasKey(j, key)
    ensures Get(j, key).Ok? && (key, Get(j, key).value) in j.members
  {
    var v :| (key, v) in j.members;
    GetPresent(j, key, v);
  }

  /** `v` is a list of dicts each holding `key`; with `hashable`, every
      value they store under `key` is hashable too. */
  ghost predicate RecordsWith(v: Value, key: string, hashable: bool) {
    v.Arr? && forall x :: x in v.items ==>
      HasKey(x, key) && (hashable ==> forall w :: (key, w) in x.members ==> Hashable(w))
  }

  /** `[x[key] for x in v]` succeeds on a list of dicts holding `key`. */
  lemma PluckSucceeds(v: Value, key: string)
    requires RecordsWith(v, key, false)
    ensures Pluck(v, key).Ok? && |Pluck(v, key).value| == |v.items|
  {
    forall i | 0 <= i < |v.items|
      ensures Get(v.items[i], key).Ok?
    {
      HeldKeyIsRead(v.items[i], key);
    }
  }

  /** `{x[key] for x in v}` succeeds on a list of dicts holding `key`
      whose values under `key` are hashable. */
  lemma SetPluckSucceeds(v: Value, key: string)
    requires RecordsWith(v, key, true)
    ensures SetPluck(v, key).Ok?
  {
    forall i | 0 <= i < |v.items|
      ensures Get(v.items[i], key).Ok? && Hashable(Get(v.items[i], key).value)
    {
      HeldKeyIsRead(v.items[i], key);
    }
    assert PluckHashable(v.items, key).Ok?;
  }

  /** A null-checked collection of dicts holding `sub` plucks. */
  lemma CollectionPlucks(item: Value, key: string, sub: string)
    requires HasKey(item, key)
    requires forall v :: (key, v) in item.members ==> v == Null || RecordsWith(v, sub, false)
    ensures Collection(item, key).Ok? && Pluck(Collection(item, key).value, sub).Ok?
  {
    HeldKeyIsRead(item, key);
    var v := Get(item, key).value;
    if v != Null {
      PluckSucceeds(v, sub);
    }
  }

  /** The same for the set comprehension, with hashable sub-fields. */
  lemma CollectionSetPlucks(item: Value, key: string, sub: string)
    requires HasKey(item, key)
    requires forall v :: (key, v) in item.members ==> v == Null || RecordsWith(v, sub, true)
    ensures Collection(item, key).Ok? && SetPluck(Collection(item, key).value, sub).Ok?
  {
    HeldKeyIsRead(item, key);
    var v := Get(item, key).value;
    if v != Null {
      SetPluckSucceeds(v, sub);
    }
  }

  /** `j.get(key, default)`: a missing key gives `default`. */
  function GetOr(j: Value, key: string, default: Value): (r: Result<Value>)
    ensures r.Ok? <==> j.Obj?
    ensures j.Obj? && Get(j, key).Err? ==> r == Ok(default)
    ensures Get(j, key).Ok? ==> r == Get(j, key)
  {
    match j
    case Obj(members) =>
      (match Lookup(members, key)
       case Some(v) => Ok(v)
       case None => Ok(default))
    case _ => Err(AttributeError)
  }

  /** `j[i]` with an integer index. A dict has only string keys, so the
      integer is always missing from it. */
  function Index(j: Value, i: nat): (r: Result<Value>)
    ensures j.Arr? ==> r == if i < |j.items| then Ok(j.items[i]) else Err(IndexError)
  {
    match j
    case Arr(items) => if i < |items| then Ok(items[i]) else Err(IndexError)
    case Str(s) => if i < |s| then Ok(Str([s[i]])) else Err(IndexError)
    case Obj(_) => Err(KeyError(Num(i as real)))
    case _ => Err(TypeError)
  }

  /** The elements `for x in j` visits: the items of a list, the
      one-character strings of a string, the keys of a dict. */
  function Iter(j: Value): (r: Result<seq<Value>>)
    ensures r.Ok? <==> j.Arr? || j.Str? || j.Obj?
    ensures j.Arr? ==> r == Ok(j.items)
    ensures r.Ok? ==> |r.value| == if j.Arr? then |j.items| else if j.Str? then |j.s| else if j.Obj? then |j.members| else 0
  {
    match j
    case Arr(items) => Ok(items)
    case Str(s) => Ok(seq(|s|, i requires 0 <= i < |s| => Str([s[i]])))
    case Obj(members) => Ok(seq(|members|, i requires 0 <= i < |members| => Str(members[i].0)))
    case _ => Err(TypeError)
  }

  /** Python truthiness of `j`, as in `if item['begin_area']:`. */
  predicate Truthy(j: Value)
    ensures !Truthy(j) <==> j in [Null, Num(0.0), Str(""), Arr([]), Obj([])]
  {
    match j
    case Null => false
    case Num(n) => n != 0.0
    case Str(s) => s != ""
    case Arr(items) => items != []
    case Obj(members) => members != []
  }

  /** Lists and dicts cannot be members of a Python set. */
  predicate Hashable(j: Value) {
    !j.Arr? && !j.Obj?
  }

  /** `item[key]` followed by `if item[key] is None: item[key] = []`. */
  function Collection(item: Value, key: string): (r: Result<Value>)
    ensures r.Ok? <==> Get(item, key).Ok?
    ensures r.Err? ==> r.error == Get(item, key).error
    ensures r.Ok? ==> r.value == if Get(item, key).value == Null then Arr([]) else Get(item, key).value
  {
    var v :- Get(item, key);
    Ok(if v == Null then Arr([]) else v)
  }

  /** `[x[key] for x in xs]`: the first failing subscript aborts it. */
  function PluckAll(xs: seq<Value>, key: string): (r: Result<seq<Value>>)
    ensures r.Ok? <==> forall i :: 0 <= i < |xs| ==> Get(xs[i], key).Ok?
    ensures r.Ok? ==> |r.value| == |xs| && forall i :: 0 <= i < |xs| ==> Get(xs[i], key) == Ok(r.value[i])
    ensures r.Err? ==> exists i :: 0 <= i < |xs| && Get(xs[i], key) == Err(r.error)
  {
    if xs == [] then Ok([])
    else
      var v :- Get(xs[0], key);
      var vs :- PluckAll(xs[1..], key);
      assert forall i :: 1 <= i < |xs| ==> xs[i] == xs[1..][i - 1];
      Ok([v] + vs)
  }

  /** `[x[key] for x in j]`. */
  function Pluck(j: Value, key: string): (r: Result<seq<Value>>)
    ensures j.Arr? ==> r == PluckAll(j.items, key)
  {
    var xs :- Iter(j);
    PluckAll(xs, key)
  }

  /** The values `{x[key] for x in xs}` inserts, in insertion order: a
      failing subscript, or a list or dict value, aborts it. */
  function PluckHashable(xs: seq<Value>, key: string): (r: Result<seq<Value>>)
    ensures r.Ok? ==> |r.value| == |xs|
    ensures r.Ok? ==> forall i :: 0 <= i < |xs| ==> Get(xs[i], key) == Ok(r.value[i]) && Hashable(r.value[i])
    ensures r.Ok? <==> forall i :: 0 <= i < |xs| ==> Get(xs[i], key).Ok? && Hashable(Get(xs[i], key).value)
  {
    if xs == [] then Ok([])
    else
      var v :- Get(xs[0], key);
      if !Hashable(v) then Err(TypeError)
      else
        var vs :- PluckHashable(xs[1..], key);
        assert forall i :: 1 <= i < |xs| ==> xs[i] == xs[1..][i - 1];
        Ok([v] + vs)
  }

  /** The set `{x[key] for x in j}`. */
  function SetPluck(j: Value, key: string): (r: Result<set<Value>>)
    ensures r.Ok? ==> forall v :: v in r.value ==> Hashable(v)
  {
    var xs :- Iter(j);
    var vs :- PluckHashable(xs, key);
    Ok(set v | v in vs)
  }

  /** For a list, the set holds exactly the sub-fields of its elements. */
  lemma SetPluckMembers(xs: seq<Value>, key: string, v: Value)
    requires SetPluck(Arr(xs), key).Ok?
    ensures v in SetPluck(Arr(xs), key).value <==> exists i :: 0 <= i < |xs| && Get(xs[i], key) == Ok(v)
  {
  }

  /** The set `{x for x in j}`: a list or dict element aborts it. */
  function SetOf(j: Value): (r: Result<set<Value>>)
    ensures j.Arr? ==> (r.Ok? <==> forall x :: x in j.items ==> Hashable(x))
    ensures j.Arr? && r.Ok? ==> r.value == set x | x in j.items
  {
    var xs :- Iter(j);
    if forall x :: x in xs ==> Hashable(x) then Ok(set x | x in xs) else Err(TypeError)
  }

  /** The members of `members` other than those keyed `key`. */
  function RemoveKey(members: seq<(string, Value)>, key: string): (r: seq<(string, Value)>)
    ensures forall m :: m in r <==> m in members && m.0 != key
  {
    if members == [] then []
    else if members[0].0 == key then RemoveKey(members[1..], key)
    else [members[0]] + RemoveKey(members[1..], key)
  }

  /** `j` with its member `key` deleted, as `del j[key]` would leave it; any
      other value unchanged. Used to state what a missing key does. */
  function Without(j: Value, key: string): (r: Value)
    ensures r.Obj? <==> j.Obj?
  {
    match j
    case Obj(members) => Obj(RemoveKey(members, key))
    case _ => j
  }

  lemma {:induction false} LookupRemoveKey(members: seq<(string, Value)>, key: string, k: string)
    ensures Lookup(RemoveKey(members, key), k) == if k == key then None else Lookup(members, k)
  {
    if members != [] {
      LookupRemoveKey(members[1..], key, k);
    }
  }

  /** Deleting `key` makes `j[key]` raise KeyError and leaves every other
      subscript and `.get` unchanged. */
  lemma GetWithout(j: Value, key: string, k: string)
    ensures Get(Without(j, key), k) == if k == key && j.Obj? then Err(KeyError(Str(k))) else Get(j, k)
    ensures GetOr(Without(j, key), k, Null) == if k == key && j.Obj? then Ok(Null) else GetOr(j, k, Null)
  {
    if j.Obj? {
      LookupRemoveKey(j.members, key, k);
    }
  }
}
