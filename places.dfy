/// Normalisation of one place row (the body of the cursor loop in
/// `extract_places`, before hashing): null collections become empty lists,
/// a coordinate pair with a null component becomes an empty list, and the
/// alias, url and tag objects are reduced to one sub-field each, in source
/// order and keeping duplicates.
module Places {
  import opened Json

  /** Column names of the places export. */
  const Headers: seq<string> := ["name", "coordinates", "aliases", "urls", "tags"]

  /** `item['coordinates']` after the null checks: an empty list when the
      value is null or when its first or second component is null, else the
      value unchanged. The component subscripts raise as Python's do. */
  function Coordinates(c: Value): (r: Result<Value>)
    ensures r.Ok? ==> r.value == Arr([]) || r.value == c
    ensures c == Null ==> r == Ok(Arr([]))
    ensures c.Arr? && |c.items| >= 2 ==>
      r == Ok(if c.items[0] == Null || c.items[1] == Null then Arr([]) else c)
    ensures c.Arr? && (|c.items| == 0 || (|c.items| == 1 && c.items[0] != Null)) ==> r == Err(IndexError)
    ensures c.Arr? && |c.items| == 1 && c.items[0] == Null ==> r == Ok(Arr([]))
  {
    if c == Null then Ok(Arr([]))
    else
      var first :- Index(c, 0);
      if first == Null then Ok(Arr([]))
      else
        var second :- Index(c, 1);
        if second == Null then Ok(Arr([])) else Ok(c)
  }

  /** The row `[name, coordinates, aliases, urls, tags]` built from one
      decoded place object, or the exception the source raises on it. */
  function PlaceRow(item: Value): (r: Result<Row>)
    ensures r.Ok? ==> |r.value| == |Headers|
    ensures r.Ok? ==> Get(item, "name") == Ok(r.value[0])
    ensures r.Ok? ==> Get(item, "coordinates").Ok? && Coordinates(Get(item, "coordinates").value) == Ok(r.value[1])
    ensures !item.Obj? ==> r == Err(TypeError)
  {
    var tags :- Collection(item, "tags");
    var urls :- Collection(item, "urls");
    var rawCoordinates :- Get(item, "coordinates");
    var coordinates :- Coordinates(rawCoordinates);
    var aliases :- Collection(item, "aliases");
    var aliasNames :- Pluck(aliases, "name");
    var urlList :- Pluck(urls, "url");
    var tagNames :- Pluck(tags, "name");
    var name :- Get(item, "name");
    Ok([name, coordinates, Arr(aliasNames), Arr(urlList), Arr(tagNames)])
  }

  /** The alias, url and tag columns are the plucked sub-fields of the
      (null-checked) collections. */
  lemma PluckedColumns(item: Value)
    requires PlaceRow(item).Ok?
    ensures var row := PlaceRow(item).value;
      && row[2].Arr? && row[3].Arr? && row[4].Arr?
      && Collection(item, "aliases").Ok? && Pluck(Collection(item, "aliases").value, "name") == Ok(row[2].items)
      && Collection(item, "urls").Ok? && Pluck(Collection(item, "urls").value, "url") == Ok(row[3].items)
      && Collection(item, "tags").Ok? && Pluck(Collection(item, "tags").value, "name") == Ok(row[4].items)
  {
    var tags, urls, aliases := Collection(item, "tags"), Collection(item, "urls"), Collection(item, "aliases");
    assert tags.Ok? && urls.Ok? && aliases.Ok?;
    var a, u, t := Pluck(aliases.value, "name"), Pluck(urls.value, "url"), Pluck(tags.value, "name");
    assert a.Ok? && u.Ok? && t.Ok?;
    assert PlaceRow(item).value[2..] == [Arr(a.value), Arr(u.value), Arr(t.value)];
  }

  /** A null `tags`, `urls` or `aliases` yields an empty list in its column,
      never a null. */
  lemma NullCollectionsBecomeEmpty(item: Value)
    requires PlaceRow(item).Ok?
    ensures Get(item, "aliases") == Ok(Null) ==> PlaceRow(item).value[2] == Arr([])
    ensures Get(item, "urls") == Ok(Null) ==> PlaceRow(item).value[3] == Arr([])
    ensures Get(item, "tags") == Ok(Null) ==> PlaceRow(item).value[4] == Arr([])
    ensures Get(item, "coordinates") == Ok(Null) ==> PlaceRow(item).value[1] == Arr([])
  {
    PluckedColumns(item);
  }

  /** Each of the alias, url and tag columns that comes from a list keeps
      the source objects' order and their duplicates: entry `i` is the
      sub-field of object `i`, whatever the other columns hold. */
  lemma ListsKeepSourceOrder(item: Value, aliases: seq<Value>, urls: seq<Value>, tags: seq<Value>)
    requires PlaceRow(item).Ok?
    ensures var row := PlaceRow(item).value; Get(item, "aliases") == Ok(Arr(aliases)) ==>
      row[2].Arr? && |row[2].items| == |aliases| && (forall i :: 0 <= i < |aliases| ==> Get(aliases[i], "name") == Ok(row[2].items[i]))
    ensures var row := PlaceRow(item).value; Get(item, "urls") == Ok(Arr(urls)) ==>
      row[3].Arr? && |row[3].items| == |urls| && (forall i :: 0 <= i < |urls| ==> Get(urls[i], "url") == Ok(row[3].items[i]))
    ensures var row := PlaceRow(item).value; Get(item, "tags") == Ok(Arr(tags)) ==>
      row[4].Arr? && |row[4].items| == |tags| && (forall i :: 0 <= i < |tags| ==> Get(tags[i], "name") == Ok(row[4].items[i]))
  {
    PluckedColumns(item);
  }

  /** A place object without `name` is rejected with KeyError once every
      earlier step has succeeded; a missing `tags` is the first key read,
      so it is rejected before anything else. */
  lemma MissingKeyIsError(item: Value)
    requires item.Obj?
    ensures Get(item, "tags").Err? ==> PlaceRow(item) == Err(KeyError(Str("tags")))
    ensures Get(item, "name").Err? && Get(item, "coordinates").Ok?
      && Coordinates(Get(item, "coordinates").value).Ok?
      && Collection(item, "tags").Ok? && Collection(item, "urls").Ok? && Collection(item, "aliases").Ok?
      && Pluck(Collection(item, "aliases").value, "name").Ok?
      && Pluck(Collection(item, "urls").value, "url").Ok?
      && Pluck(Collection(item, "tags").value, "name").Ok?
      ==> PlaceRow(item) == Err(KeyError(Str("name")))
  {
  }

  /** A place object the query produces: it holds every key the loop
      reads, `coordinates` is null or a list of at least two values, and
      `aliases`, `urls` and `tags` are null or lists of dicts holding the
      sub-field plucked from them. */
  ghost predicate WellFormedPlace(item: Value) {
    && HasKey(item, "name") && HasKey(item, "coordinates")
    && HasKey(item, "aliases") && HasKey(item, "urls") && HasKey(item, "tags")
    && (forall c :: ("coordinates", c) in item.members ==> c == Null || (c.Arr? && |c.items| >= 2))
    && (forall v :: ("aliases", v) in item.members ==> v == Null || RecordsWith(v, "name", false))
    && (forall v :: ("urls", v) in item.members ==> v == Null || RecordsWith(v, "url", false))
    && (forall v :: ("tags", v) in item.members ==> v == Null || RecordsWith(v, "name", false))
  }

  /** Every well-formed place object is normalised into a row. */
  lemma WellFormedPlaceBuilds(item: Value)
    requires WellFormedPlace(item)
    ensures PlaceRow(item).Ok?
  {
    CollectionPlucks(item, "tags", "name");
    CollectionPlucks(item, "urls", "url");
    CollectionPlucks(item, "aliases", "name");
    HeldKeyIsRead(item, "coordinates");
    HeldKeyIsRead(item, "name");
  }
}
