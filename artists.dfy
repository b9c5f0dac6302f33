/// Normalisation of one artist row (the body of the cursor loop in
/// `extract_artists`, before hashing). Null collections become empty;
/// `areas` is built by appending each area's name and extending with the
/// set of its alias names, then the same for a truthy `begin_area` and
/// `end_area`; aliases, tags, artist credits and urls become `list(set)`.
///
/// Python enumerates a set in an unspecified order, so the row is not a
/// function of the object: `ArtistFieldsOf` computes everything that is
/// determined (the sets themselves, the order of the area groups, the
/// exception raised), and `IsArtistRow` says which rows realise it.
module Artists {
  import opened Json
  import opened Collections

  /** Column names of the artists export. */
  const Headers: seq<string> :=
    ["name", "isni", "ipi", "musicbrainz_guid", "aliases", "tags", "artist_credits", "urls", "areas"]

  /** One area's contribution to the `areas` column: its name, then the
      names of its aliases as a set. */
  datatype AreaGroup = AreaGroup(name: Value, aliases: set<Value>)

  /** The determined content of an artist row: scalar columns and, for the
      set-valued columns, the sets that `list(...)` enumerates. */
  datatype ArtistFields = ArtistFields(
    name: Value, isni: Value, ipi: Value, guid: Value,
    aliases: set<Value>, tags: set<Value>, credits: set<Value>, urls: set<Value>,
    areas: seq<AreaGroup>)

  /** `area['name']`, then `{alias['name'] for alias in area['aliases']}`. */
  function AreaGroupOf(area: Value): (r: Result<AreaGroup>)
    ensures r.Ok? ==> Get(area, "name") == Ok(r.value.name)
    ensures r.Ok? ==> Get(area, "aliases").Ok? && SetPluck(Get(area, "aliases").value, "name") == Ok(r.value.aliases)
    ensures Get(area, "name").Err? ==> r == Err(Get(area, "name").error)
  {
    var name :- Get(area, "name");
    var aliases :- Get(area, "aliases");
    var names :- SetPluck(aliases, "name");
    Ok(AreaGroup(name, names))
  }

  /** The groups of `for area in item['areas']`, in order; the first
      failing area aborts the loop. */
  function AreaGroups(areas: seq<Value>): (r: Result<seq<AreaGroup>>)
    ensures r.Ok? ==> |r.value| == |areas|
  {
    if areas == [] then Ok([])
    else
      var init := areas[..|areas| - 1];
      match AreaGroups(init)
      case Err(e) => Err(e)
      case Ok(groups) =>
        match AreaGroupOf(areas[|areas| - 1])
        case Err(e) => Err(e)
        case Ok(g) => Ok(groups + [g])
  }

  /** One more area: its group is appended, or its error ends the loop. */
  lemma AreaGroupsStep(areas: seq<Value>, i: nat, groups: seq<AreaGroup>, group: Result<AreaGroup>)
    requires i < |areas| && AreaGroups(areas[..i]) == Ok(groups) && group == AreaGroupOf(areas[i])
    ensures group.Err? ==> AreaGroups(areas[..i + 1]) == Err(group.error)
    ensures group.Ok? ==> AreaGroups(areas[..i + 1]) == Ok(groups + [group.value])
  {
    var s := areas[..i + 1];
    assert s[..|s| - 1] == areas[..i];
    assert s[|s| - 1] == areas[i];
  }

  /** An area that fails stops the loop: no later area changes the outcome. */
  lemma {:induction false} AreaGroupsErrorPersists(areas: seq<Value>, k: nat)
    requires k <= |areas|
    requires AreaGroups(areas[..k]).Err?
    ensures AreaGroups(areas) == AreaGroups(areas[..k])
    decreases |areas| - k
  {
    if k == |areas| {
      assert areas[..k] == areas;
    } else {
      assert areas[..k + 1][..k] == areas[..k];
      AreaGroupsErrorPersists(areas, k + 1);
    }
  }

  /** `if item[key]:` then the area's group, for `begin_area` and `end_area`. */
  function OptionalGroup(item: Value, key: string): (r: Result<seq<AreaGroup>>)
    ensures r.Ok? ==> Get(item, key).Ok?
    ensures r.Ok? && !Truthy(Get(item, key).value) ==> r.value == []
    ensures r.Ok? && Truthy(Get(item, key).value) ==>
      AreaGroupOf(Get(item, key).value).Ok? && r.value == [AreaGroupOf(Get(item, key).value).value]
  {
    var area :- Get(item, key);
    if Truthy(area) then
      var g :- AreaGroupOf(area);
      Ok([g])
    else Ok([])
  }

  /** All groups of the `areas` column, in the order they are appended:
      the listed areas, then `begin_area`, then `end_area`. */
  function AreasOf(item: Value, areaItems: seq<Value>): (r: Result<seq<AreaGroup>>)
    ensures r.Ok? ==> AreaGroups(areaItems).Ok? && OptionalGroup(item, "begin_area").Ok? && OptionalGroup(item, "end_area").Ok?
    ensures r.Ok? ==> r.value == AreaGroups(areaItems).value + OptionalGroup(item, "begin_area").value + OptionalGroup(item, "end_area").value
  {
    var groups :- AreaGroups(areaItems);
    var begin :- OptionalGroup(item, "begin_area");
    var end :- OptionalGroup(item, "end_area");
    Ok(groups + begin + end)
  }

  /** The five collections after `if item[key] is None: item[key] = []`,
      read in the source's order. */
  datatype RawCollections = RawCollections(aliases: Value, tags: Value, urls: Value, credits: Value, areas: Value)

  function NullChecked(item: Value): (r: Result<RawCollections>)
    ensures r.Ok? ==> Collection(item, "aliases") == Ok(r.value.aliases) && Collection(item, "tags") == Ok(r.value.tags)
    ensures r.Ok? ==> Collection(item, "urls") == Ok(r.value.urls) && Collection(item, "artist_credits") == Ok(r.value.credits)
    ensures r.Ok? ==> Collection(item, "areas") == Ok(r.value.areas)
    ensures !item.Obj? ==> r == Err(TypeError)
    ensures item.Obj? && Get(item, "aliases").Err? ==> r == Err(KeyError(Str("aliases")))
    ensures item.Obj? && Get(item, "aliases").Ok? && Get(item, "tags").Err? ==> r == Err(KeyError(Str("tags")))
    ensures item.Obj? && Get(item, "aliases").Ok? && Get(item, "tags").Ok? && Get(item, "urls").Err?
      ==> r == Err(KeyError(Str("urls")))
    ensures (item.Obj? && Get(item, "aliases").Ok? && Get(item, "tags").Ok? && Get(item, "urls").Ok?
      && Get(item, "artist_credits").Err?) ==> r == Err(KeyError(Str("artist_credits")))
    ensures (item.Obj? && Get(item, "aliases").Ok? && Get(item, "tags").Ok? && Get(item, "urls").Ok?
      && Get(item, "artist_credits").Ok? && Get(item, "areas").Err?) ==> r == Err(KeyError(Str("areas")))
  {
    var aliases :- Collection(item, "aliases");
    var tags :- Collection(item, "tags");
    var urls :- Collection(item, "urls");
    var credits :- Collection(item, "artist_credits");
    var areas :- Collection(item, "areas");
    Ok(RawCollections(aliases, tags, urls, credits, areas))
  }

  /** `name`, `isni`, `ipi` and `guid`: the two `.get` calls default to None. */
  datatype Scalars = Scalars(name: Value, isni: Value, ipi: Value, guid: Value)

  function ScalarsOf(item: Value): (r: Result<Scalars>)
    requires item.Obj?
    ensures r.Ok? <==> Get(item, "name").Ok? && Get(item, "guid").Ok?
    ensures Get(item, "name").Err? ==> r == Err(KeyError(Str("name")))
    ensures Get(item, "name").Ok? && Get(item, "guid").Err? ==> r == Err(KeyError(Str("guid")))
    ensures r.Ok? ==> Get(item, "name") == Ok(r.value.name) && Get(item, "guid") == Ok(r.value.guid)
    ensures r.Ok? ==> GetOr(item, "isni", Null) == Ok(r.value.isni) && GetOr(item, "ipi", Null) == Ok(r.value.ipi)
  {
    var name :- Get(item, "name");
    var isni := GetOr(item, "isni", Null).value;
    var ipi := GetOr(item, "ipi", Null).value;
    var guid :- Get(item, "guid");
    Ok(Scalars(name, isni, ipi, guid))
  }

  /** The four set comprehensions, in the source's order. */
  datatype NameSets = NameSets(aliases: set<Value>, tags: set<Value>, credits: set<Value>, urls: set<Value>)

  function NameSetsOf(c: RawCollections): (r: Result<NameSets>)
    ensures r.Ok? ==> SetPluck(c.aliases, "name") == Ok(r.value.aliases) && SetPluck(c.tags, "name") == Ok(r.value.tags)
    ensures r.Ok? ==> SetOf(c.credits) == Ok(r.value.credits) && SetPluck(c.urls, "url") == Ok(r.value.urls)
  {
    var aliases :- SetPluck(c.aliases, "name");
    var tags :- SetPluck(c.tags, "name");
    var credits :- SetOf(c.credits);
    var urls :- SetPluck(c.urls, "url");
    Ok(NameSets(aliases, tags, credits, urls))
  }

  /** What normalising `item` determines, following the order in which the
      source reads it, or the first exception it raises. */
  function ArtistFieldsOf(item: Value): (r: Result<ArtistFields>)
    ensures !item.Obj? ==> r == Err(TypeError)
    ensures r.Ok? ==> Get(item, "name") == Ok(r.value.name) && Get(item, "guid") == Ok(r.value.guid)
    ensures r.Ok? ==> GetOr(item, "isni", Null) == Ok(r.value.isni) && GetOr(item, "ipi", Null) == Ok(r.value.ipi)
  {
    var c :- NullChecked(item);
    var areaItems :- Iter(c.areas);
    var areas :- AreasOf(item, areaItems);
    var s :- ScalarsOf(item);
    var names :- NameSetsOf(c);
    Ok(ArtistFields(s.name, s.isni, s.ipi, s.guid, names.aliases, names.tags, names.credits, names.urls, areas))
  }

  /** An area object the loop can read: it holds `name`, and `aliases` is
      a list of dicts with hashable `name`s. */
  ghost predicate WellFormedArea(area: Value) {
    && HasKey(area, "name") && HasKey(area, "aliases")
    && forall v :: ("aliases", v) in area.members ==> RecordsWith(v, "name", true)
  }

  /** A well-formed area gives its group. */
  lemma WellFormedAreaGroup(area: Value)
    requires WellFormedArea(area)
    ensures AreaGroupOf(area).Ok?
  {
    HeldKeyIsRead(area, "name");
    HeldKeyIsRead(area, "aliases");
    SetPluckSucceeds(Get(area, "aliases").value, "name");
  }

  /** A list of well-formed areas gives one group per area. */
  lemma {:induction false} WellFormedAreaGroups(areas: seq<Value>)
    requires forall x :: x in areas ==> WellFormedArea(x)
    ensures AreaGroups(areas).Ok?
    decreases |areas|
  {
    if areas != [] {
      var init := areas[..|areas| - 1];
      assert forall x :: x in init ==> x in areas;
      WellFormedAreaGroups(init);
      WellFormedAreaGroup(areas[|areas| - 1]);
    }
  }

  /** An artist object the query produces: it holds every key the loop
      subscripts; `aliases`, `tags` and `urls` are null or lists of dicts
      with a hashable sub-field, `artist_credits` is null or a list of
      hashable values, `areas` is null or a list of well-formed areas, and
      `begin_area` and `end_area` are falsy or well-formed areas. */
  ghost predicate WellFormedArtist(item: Value) {
    && HasKey(item, "name") && HasKey(item, "guid") && HasKey(item, "aliases") && HasKey(item, "tags")
    && HasKey(item, "urls") && HasKey(item, "artist_credits") && HasKey(item, "areas")
    && HasKey(item, "begin_area") && HasKey(item, "end_area")
    && (forall v :: ("aliases", v) in item.members ==> v == Null || RecordsWith(v, "name", true))
    && (forall v :: ("tags", v) in item.members ==> v == Null || RecordsWith(v, "name", true))
    && (forall v :: ("urls", v) in item.members ==> v == Null || RecordsWith(v, "url", true))
    && (forall v :: ("artist_credits", v) in item.members ==> v == Null || (v.Arr? && forall x :: x in v.items ==> Hashable(x)))
    && (forall v :: ("areas", v) in item.members ==> v == Null || (v.Arr? && forall x :: x in v.items ==> WellFormedArea(x)))
    && (forall v :: ("begin_area", v) in item.members ==> !Truthy(v) || WellFormedArea(v))
    && (forall v :: ("end_area", v) in item.members ==> !Truthy(v) || WellFormedArea(v))
  }

  /** A truthy optional area of a well-formed artist gives its group. */
  lemma WellFormedOptionalGroup(item: Value, key: string)
    requires HasKey(item, key) && forall v :: (key, v) in item.members ==> !Truthy(v) || WellFormedArea(v)
    ensures OptionalGroup(item, key).Ok?
  {
    HeldKeyIsRead(item, key);
    if Truthy(Get(item, key).value) {
      WellFormedAreaGroup(Get(item, key).value);
    }
  }

  /** Every well-formed artist object is normalised: its fields are
      determined, and so a row is built. */
  lemma WellFormedArtistBuilds(item: Value)
    requires WellFormedArtist(item)
    ensures ArtistFieldsOf(item).Ok?
  {
    var c := WellFormedCollections(item);
    var areaItems := Iter(c.areas).value;
    WellFormedAreaGroups(areaItems);
    WellFormedOptionalGroup(item, "begin_area");
    WellFormedOptionalGroup(item, "end_area");
    assert AreasOf(item, areaItems).Ok?;
    HeldKeyIsRead(item, "name");
    HeldKeyIsRead(item, "guid");
    assert ScalarsOf(item).Ok?;
    assert NameSetsOf(c).Ok?;
  }

  /** The null checks and the four set comprehensions of a well-formed
      artist succeed, and the areas column iterates a list of areas. */
  lemma WellFormedCollections(item: Value) returns (c: RawCollections)
    requires WellFormedArtist(item)
    ensures NullChecked(item) == Ok(c) && NameSetsOf(c).Ok?
    ensures c.areas.Arr? && forall x :: x in c.areas.items ==> WellFormedArea(x)
  {
    CollectionSetPlucks(item, "aliases", "name");
    CollectionSetPlucks(item, "tags", "name");
    CollectionSetPlucks(item, "urls", "url");
    WellFormedCredits(item);
    WellFormedAreaList(item);
    assert NullChecked(item).Ok?;
    c := NullChecked(item).value;
    assert c.credits == Collection(item, "artist_credits").value;
    assert c.areas == Collection(item, "areas").value;
  }

  lemma WellFormedCredits(item: Value)
    requires HasKey(item, "artist_credits")
    requires forall v :: ("artist_credits", v) in item.members ==> v == Null || (v.Arr? && forall x :: x in v.items ==> Hashable(x))
    ensures Collection(item, "artist_credits").Ok? && SetOf(Collection(item, "artist_credits").value).Ok?
  {
    HeldKeyIsRead(item, "artist_credits");
  }

  lemma WellFormedAreaList(item: Value)
    requires HasKey(item, "areas")
    requires forall v :: ("areas", v) in item.members ==> v == Null || (v.Arr? && forall x :: x in v.items ==> WellFormedArea(x))
    ensures Collection(item, "areas").Ok?
    ensures var v := Collection(item, "areas").value; v.Arr? && forall x :: x in v.items ==> WellFormedArea(x)
  {
    HeldKeyIsRead(item, "areas");
  }

  /** `out` is `areas` after appending `groups` in order: for each group its
      name, then its alias names in one of the orders Python may choose. */
  ghost predicate FlattensAreas(out: seq<Value>, groups: seq<AreaGroup>)
    decreases |groups|
  {
    if groups == [] then out == []
    else
      var g := groups[|groups| - 1];
      var k := 1 + |g.aliases|;
      && k <= |out|
      && out[|out| - k] == g.name
      && IsListing(out[|out| - k + 1..], g.aliases)
      && FlattensAreas(out[..|out| - k], groups[..|groups| - 1])
  }

  /** `row` is one of the rows the source may build from `f`. */
  ghost predicate IsArtistRow(row: Row, f: ArtistFields) {
    && |row| == |Headers|
    && row[0] == f.name && row[1] == f.isni && row[2] == f.ipi && row[3] == f.guid
    && row[4].Arr? && IsListing(row[4].items, f.aliases)
    && row[5].Arr? && IsListing(row[5].items, f.tags)
    && row[6].Arr? && IsListing(row[6].items, f.credits)
    && row[7].Arr? && IsListing(row[7].items, f.urls)
    && row[8].Arr? && FlattensAreas(row[8].items, f.areas)
  }

  /** The nine columns assembled from their parts realise `f`. */
  lemma RowRealisesFields(row: Row, f: ArtistFields, aliases: seq<Value>, tags: seq<Value>,
                          credits: seq<Value>, urls: seq<Value>, areas: seq<Value>)
    requires row == [f.name, f.isni, f.ipi, f.guid, Arr(aliases), Arr(tags), Arr(credits), Arr(urls), Arr(areas)]
    requires IsListing(aliases, f.aliases) && IsListing(tags, f.tags)
    requires IsListing(credits, f.credits) && IsListing(urls, f.urls)
    requires FlattensAreas(areas, f.areas)
    ensures IsArtistRow(row, f)
  {
  }

  /** `areas.append(name); areas.extend(set_of_alias_names)` for one group. */
  method AppendGroup(areas: seq<Value>, ghost groups: seq<AreaGroup>, g: AreaGroup) returns (r: seq<Value>)
    requires FlattensAreas(areas, groups)
    ensures FlattensAreas(r, groups + [g])
    ensures |r| == |areas| + 1 + |g.aliases| && r[..|areas|] == areas && r[|areas|] == g.name
  {
    var names := ListOfSet(g.aliases);
    r := areas + [g.name] + names;
    FlattensAreasSnoc(areas, groups, g, names);
  }

  lemma FlattensAreasSnoc(areas: seq<Value>, groups: seq<AreaGroup>, g: AreaGroup, names: seq<Value>)
    requires FlattensAreas(areas, groups) && IsListing(names, g.aliases)
    ensures FlattensAreas(areas + [g.name] + names, groups + [g])
  {
    var r := areas + [g.name] + names;
    assert |names| == |g.aliases|;
    assert r[..|areas|] == areas && r[|areas|] == g.name && r[|areas| + 1..] == names;
    FlattensAreasLast(r, groups, g, |areas|);
  }

  lemma FlattensAreasLast(out: seq<Value>, groups: seq<AreaGroup>, g: AreaGroup, n: nat)
    requires n + 1 + |g.aliases| == |out|
    requires FlattensAreas(out[..n], groups) && out[n] == g.name && IsListing(out[n + 1..], g.aliases)
    ensures FlattensAreas(out, groups + [g])
  {
    var all := groups + [g];
    assert all[|all| - 1] == g && all[..|all| - 1] == groups;
  }

  /** The loop `for area in item['areas']`: append each name, extend with
      its alias names; the first failing area raises. */
  method CollectListedAreas(areaItems: seq<Value>) returns (r: Result<seq<Value>>)
    ensures AreaGroups(areaItems).Err? ==> r == Err(AreaGroups(areaItems).error)
    ensures AreaGroups(areaItems).Ok? ==> r.Ok? && FlattensAreas(r.value, AreaGroups(areaItems).value)
  {
    var areas: seq<Value> := [];
    ghost var groups: seq<AreaGroup> := [];
    var i := 0;
    while i < |areaItems|
      invariant 0 <= i <= |areaItems|
      invariant AreaGroups(areaItems[..i]) == Ok(groups)
      invariant FlattensAreas(areas, groups)
    {
      var group := AreaGroupOf(areaItems[i]);
      AreaGroupsStep(areaItems, i, groups, group);
      if group.Err? {
        AreaGroupsErrorPersists(areaItems, i + 1);
        return Err(group.error);
      }
      areas := AppendGroup(areas, groups, group.value);
      groups := groups + [group.value];
      i := i + 1;
    }
    assert areaItems[..i] == areaItems;
    r := Ok(areas);
  }

  /** `if item[key]:` append the area's name and extend with its alias names. */
  method AppendOptionalArea(item: Value, key: string, areas: seq<Value>, ghost groups: seq<AreaGroup>)
    returns (r: Result<seq<Value>>)
    requires FlattensAreas(areas, groups)
    ensures OptionalGroup(item, key).Err? ==> r == Err(OptionalGroup(item, key).error)
    ensures OptionalGroup(item, key).Ok? ==> r.Ok? && FlattensAreas(r.value, groups + OptionalGroup(item, key).value)
  {
    var area :- Get(item, key);
    if Truthy(area) {
      var group :- AreaGroupOf(area);
      var extended := AppendGroup(areas, groups, group);
      r := Ok(extended);
    } else {
      assert groups + [] == groups;
      r := Ok(areas);
    }
  }

  /** The `areas` column: the listed areas, then `begin_area` and
      `end_area` when truthy. Raises what `AreasOf` says it raises. */
  method CollectAreas(item: Value, areaItems: seq<Value>) returns (r: Result<seq<Value>>)
    ensures AreasOf(item, areaItems).Err? ==> r == Err(AreasOf(item, areaItems).error)
    ensures AreasOf(item, areaItems).Ok? ==> r.Ok? && FlattensAreas(r.value, AreasOf(item, areaItems).value)
  {
    var listed :- CollectListedAreas(areaItems);
    ghost var groups := AreaGroups(areaItems).value;
    var withBegin :- AppendOptionalArea(item, "begin_area", listed, groups);
    ghost var begin := OptionalGroup(item, "begin_area").value;
    var all :- AppendOptionalArea(item, "end_area", withBegin, groups + begin);
    r := Ok(all);
  }

  /** One cursor row of `extract_artists` up to the `datum` list: the row
      realises `ArtistFieldsOf(item)`, or the same exception is raised. */
  method ExtractArtistRow(item: Value) returns (r: Result<Row>)
    ensures ArtistFieldsOf(item).Err? ==> r == Err(ArtistFieldsOf(item).error)
    ensures ArtistFieldsOf(item).Ok? ==> r.Ok? && IsArtistRow(r.value, ArtistFieldsOf(item).value)
  {
    var c := NullChecked(item);
    if c.Err? {
      return Err(c.error);
    }
    var areaItems := Iter(c.value.areas);
    if areaItems.Err? {
      return Err(areaItems.error);
    }
    var areas := CollectAreas(item, areaItems.value);
    if areas.Err? {
      return Err(areas.error);
    }
    var s := ScalarsOf(item);
    if s.Err? {
      return Err(s.error);
    }
    var names := NameSetsOf(c.value);
    if names.Err? {
      return Err(names.error);
    }
    var aliases := ListOfSet(names.value.aliases);
    var tags := ListOfSet(names.value.tags);
    var credits := ListOfSet(names.value.credits);
    var urls := ListOfSet(names.value.urls);
    var row := [s.value.name, s.value.isni, s.value.ipi, s.value.guid,
                Arr(aliases), Arr(tags), Arr(credits), Arr(urls), Arr(areas.value)];
    ghost var f := ArtistFields(s.value.name, s.value.isni, s.value.ipi, s.value.guid,
      names.value.aliases, names.value.tags, names.value.credits, names.value.urls,
      AreasOf(item, areaItems.value).value);
    RowRealisesFields(row, f, aliases, tags, credits, urls, areas.value);
    r := Ok(row);
  }

  // Properties of the artist row

  /** `areas` is null or empty, and `begin_area` and `end_area` are present
      and falsy. */
  predicate NoAreas(item: Value) {
    && (Get(item, "areas") == Ok(Null) || Get(item, "areas") == Ok(Arr([])))
    && Get(item, "begin_area").Ok? && !Truthy(Get(item, "begin_area").value)
    && Get(item, "end_area").Ok? && !Truthy(Get(item, "end_area").value)
  }

  /** A null `aliases`, `tags`, `artist_credits` or `urls` yields an empty
      list in its column; a null or empty `areas` with falsy `begin_area`
      and `end_area` yields an empty `areas` column. */
  lemma NullCollectionsBecomeEmpty(item: Value, row: Row)
    requires ArtistFieldsOf(item).Ok? && IsArtistRow(row, ArtistFieldsOf(item).value)
    ensures Get(item, "aliases") == Ok(Null) ==> row[4] == Arr([])
    ensures Get(item, "tags") == Ok(Null) ==> row[5] == Arr([])
    ensures Get(item, "artist_credits") == Ok(Null) ==> row[6] == Arr([])
    ensures Get(item, "urls") == Ok(Null) ==> row[7] == Arr([])
    ensures NoAreas(item) ==> row[8] == Arr([])
  {
    FieldsHoldNameSets(item);
    if NoAreas(item) {
      NullAreasBecomeEmpty(item, row);
    }
  }

  lemma NullAreasBecomeEmpty(item: Value, row: Row)
    requires ArtistFieldsOf(item).Ok? && IsArtistRow(row, ArtistFieldsOf(item).value)
    requires NoAreas(item)
    ensures row[8] == Arr([])
  {
    NoAreaGroups(item);
  }

  lemma NoAreaGroups(item: Value)
    requires ArtistFieldsOf(item).Ok?
    requires NoAreas(item)
    ensures ArtistFieldsOf(item).value.areas == []
  {
    FieldsHoldAreas(item);
    var c := NullChecked(item).value;
    assert Iter(c.areas) == Ok([]);
    assert AreasOf(item, []) == Ok([]);
  }

  /** The `areas` column comes from `AreasOf` over the iterated areas. */
  lemma FieldsHoldAreas(item: Value)
    requires ArtistFieldsOf(item).Ok?
    ensures NullChecked(item).Ok? && Iter(NullChecked(item).value.areas).Ok?
    ensures AreasOf(item, Iter(NullChecked(item).value.areas).value).Ok?
    ensures ArtistFieldsOf(item).value.areas == AreasOf(item, Iter(NullChecked(item).value.areas).value).value
  {
    var c := NullChecked(item).value;
    var areas := AreasOf(item, Iter(c.areas).value).value;
    var sc := ScalarsOf(item).value;
    var n := NameSetsOf(c).value;
    assert ArtistFieldsOf(item).value == ArtistFields(sc.name, sc.isni, sc.ipi, sc.guid, n.aliases, n.tags, n.credits, n.urls, areas);
  }

  /** A listing of `{x[key] for x in xs}` is duplicate-free and holds
      exactly the sub-fields of the elements of `xs`. */
  lemma ListingOfPluckedSet(l: seq<Value>, xs: seq<Value>, key: string)
    requires SetPluck(Arr(xs), key).Ok? && IsListing(l, SetPluck(Arr(xs), key).value)
    ensures Distinct(l)
    ensures forall v :: v in l <==> exists i :: 0 <= i < |xs| && Get(xs[i], key) == Ok(v)
  {
    forall v
      ensures v in l <==> exists i :: 0 <= i < |xs| && Get(xs[i], key) == Ok(v)
    {
      SetPluckMembers(xs, key, v);
    }
  }

  /** The set columns of a normalised row come from `NameSetsOf`. */
  lemma FieldsHoldNameSets(item: Value)
    requires ArtistFieldsOf(item).Ok?
    ensures NullChecked(item).Ok? && NameSetsOf(NullChecked(item).value).Ok?
    ensures var f := ArtistFieldsOf(item).value; var n := NameSetsOf(NullChecked(item).value).value;
      f.aliases == n.aliases && f.tags == n.tags && f.credits == n.credits && f.urls == n.urls
  {
    var c := NullChecked(item).value;
    var areas := AreasOf(item, Iter(c.areas).value).value;
    var sc := ScalarsOf(item).value;
    var n := NameSetsOf(c).value;
    assert ArtistFieldsOf(item).value == ArtistFields(sc.name, sc.isni, sc.ipi, sc.guid, n.aliases, n.tags, n.credits, n.urls, areas);
  }

  /** Each of the aliases, tags and urls columns that comes from a list is
      duplicate-free and holds exactly the names of its objects (the urls
      of the url objects), whatever the other columns hold. */
  lemma SetColumnsAreExactNameSets(item: Value, row: Row, aliases: seq<Value>, tags: seq<Value>, urls: seq<Value>)
    requires ArtistFieldsOf(item).Ok? && IsArtistRow(row, ArtistFieldsOf(item).value)
    ensures Get(item, "aliases") == Ok(Arr(aliases)) ==>
      && Distinct(row[4].items)
      && forall v :: v in row[4].items <==> exists i :: 0 <= i < |aliases| && Get(aliases[i], "name") == Ok(v)
    ensures Get(item, "tags") == Ok(Arr(tags)) ==>
      && Distinct(row[5].items)
      && forall v :: v in row[5].items <==> exists i :: 0 <= i < |tags| && Get(tags[i], "name") == Ok(v)
    ensures Get(item, "urls") == Ok(Arr(urls)) ==>
      && Distinct(row[7].items)
      && forall v :: v in row[7].items <==> exists i :: 0 <= i < |urls| && Get(urls[i], "url") == Ok(v)
  {
    FieldsHoldNameSets(item);
    var c := NullChecked(item).value;
    if Get(item, "aliases") == Ok(Arr(aliases)) {
      assert c.aliases == Arr(aliases);
      ListingOfPluckedSet(row[4].items, aliases, "name");
    }
    if Get(item, "tags") == Ok(Arr(tags)) {
      assert c.tags == Arr(tags);
      ListingOfPluckedSet(row[5].items, tags, "name");
    }
    if Get(item, "urls") == Ok(Arr(urls)) {
      assert c.urls == Arr(urls);
      ListingOfPluckedSet(row[7].items, urls, "url");
    }
  }

  /** The artist credits column is duplicate-free and holds exactly the
      credit values, for a list of hashable credits. */
  lemma CreditsColumnIsSetOfCredits(item: Value, row: Row, credits: seq<Value>)
    requires ArtistFieldsOf(item).Ok? && IsArtistRow(row, ArtistFieldsOf(item).value)
    requires Get(item, "artist_credits") == Ok(Arr(credits))
    ensures Distinct(row[6].items)
    ensures forall v :: v in row[6].items <==> v in credits
  {
    FieldsHoldNameSets(item);
    var c := NullChecked(item).value;
    assert c.credits == Arr(credits);
    var names := NameSetsOf(c).value;
    assert names.credits == set x | x in credits;
    assert IsListing(row[6].items, names.credits);
  }

  /** Number of `areas` entries the groups produce: a name and its aliases each. */
  function AreasLength(groups: seq<AreaGroup>): nat {
    if groups == [] then 0 else AreasLength(groups[..|groups| - 1]) + 1 + |groups[|groups| - 1].aliases|
  }

  /** The `areas` column holds one entry per group name and one per alias
      name of each group. */
  lemma {:induction false} FlattensAreasLength(out: seq<Value>, groups: seq<AreaGroup>)
    requires FlattensAreas(out, groups)
    ensures |out| == AreasLength(groups)
    decreases |groups|
  {
    if groups != [] {
      var g := groups[|groups| - 1];
      FlattensAreasLength(out[..|out| - (1 + |g.aliases|)], groups[..|groups| - 1]);
    }
  }

  /** Deleting `k` leaves every key the collections and area steps read. */
  lemma WithoutKeepsEarlierReads(item: Value, k: string)
    requires k in {"name", "guid", "isni", "ipi"}
    ensures NullChecked(Without(item, k)) == NullChecked(item)
    ensures OptionalGroup(Without(item, k), "begin_area") == OptionalGroup(item, "begin_area")
    ensures OptionalGroup(Without(item, k), "end_area") == OptionalGroup(item, "end_area")
  {
    WithoutKeepsCollections(item, k);
    GetWithout(item, k, "begin_area");
    GetWithout(item, k, "end_area");
  }

  lemma WithoutKeepsCollections(item: Value, k: string)
    requires k in {"name", "guid", "isni", "ipi"}
    ensures NullChecked(Without(item, k)) == NullChecked(item)
  {
    GetWithout(item, k, "aliases");
    GetWithout(item, k, "tags");
    GetWithout(item, k, "urls");
    GetWithout(item, k, "artist_credits");
    GetWithout(item, k, "areas");
  }

  /** `ArtistFieldsOf` of an object with `k` deleted differs only in the
      scalar step. */
  lemma ArtistFieldsWithout(item: Value, k: string)
    requires k in {"name", "guid", "isni", "ipi"}
    requires ArtistFieldsOf(item).Ok?
    ensures var f := ArtistFieldsOf(item).value;
      ArtistFieldsOf(Without(item, k)) ==
        match ScalarsOf(Without(item, k))
        case Err(e) => Err(e)
        case Ok(s) => Ok(f.(name := s.name, isni := s.isni, ipi := s.ipi, guid := s.guid))
  {
    var w := Without(item, k);
    WithoutKeepsEarlierReads(item, k);
    var c := NullChecked(item).value;
    var areaItems := Iter(c.areas).value;
    var areas := AreasOf(item, areaItems).value;
    var names := NameSetsOf(c).value;
    assert AreasOf(w, areaItems) == Ok(areas);
    assert w.Obj?;
    assert ArtistFieldsOf(w) == match ScalarsOf(w)
      case Err(e) => Err(e)
      case Ok(s) => Ok(ArtistFields(s.name, s.isni, s.ipi, s.guid, names.aliases, names.tags, names.credits, names.urls, areas));
  }

  /** The scalar fields of a normalised row come from `ScalarsOf`. */
  lemma FieldsHoldScalars(item: Value)
    requires ArtistFieldsOf(item).Ok?
    ensures item.Obj? && ScalarsOf(item).Ok?
    ensures var f := ArtistFieldsOf(item).value; var s := ScalarsOf(item).value;
      f.name == s.name && f.isni == s.isni && f.ipi == s.ipi && f.guid == s.guid
  {
  }

  /** A row that normalises fails with KeyError once `name` is deleted. */
  lemma MissingNameIsError(item: Value)
    requires ArtistFieldsOf(item).Ok?
    ensures ArtistFieldsOf(Without(item, "name")) == Err(KeyError(Str("name")))
  {
    FieldsHoldScalars(item);
    ArtistFieldsWithout(item, "name");
    GetWithout(item, "name", "name");
  }

  /** A row that normalises fails with KeyError once `guid` is deleted. */
  lemma MissingGuidIsError(item: Value)
    requires ArtistFieldsOf(item).Ok?
    ensures ArtistFieldsOf(Without(item, "guid")) == Err(KeyError(Str("guid")))
  {
    FieldsHoldScalars(item);
    ArtistFieldsWithout(item, "guid");
    GetWithout(item, "guid", "name");
    GetWithout(item, "guid", "guid");
  }

  /** Deleting `isni` leaves a null in its place: `.get` defaults to None. */
  lemma MissingIsniIsNull(item: Value)
    requires ArtistFieldsOf(item).Ok?
    ensures ArtistFieldsOf(Without(item, "isni")) == Ok(ArtistFieldsOf(item).value.(isni := Null))
  {
    FieldsHoldScalars(item);
    ArtistFieldsWithout(item, "isni");
    GetWithout(item, "isni", "name");
    GetWithout(item, "isni", "guid");
    GetWithout(item, "isni", "isni");
    GetWithout(item, "isni", "ipi");
  }

  /** Deleting `ipi` leaves a null in its place: `.get` defaults to None. */
  lemma MissingIpiIsNull(item: Value)
    requires ArtistFieldsOf(item).Ok?
    ensures ArtistFieldsOf(Without(item, "ipi")) == Ok(ArtistFieldsOf(item).value.(ipi := Null))
  {
    FieldsHoldScalars(item);
    ArtistFieldsWithout(item, "ipi");
    GetWithout(item, "ipi", "name");
    GetWithout(item, "ipi", "guid");
    GetWithout(item, "ipi", "isni");
    GetWithout(item, "ipi", "ipi");
  }
}
