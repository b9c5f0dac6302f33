# MusicBrainz export extraction, modelled in Dafny

This project models the core of `extract-musicbrainz.py`. That script streams artist and place rows out of a MusicBrainz
PostgreSQL database as JSON and normalises each row into a fixed list of columns. It fingerprints every row with
`_hash_datum` and drops rows whose fingerprint it has seen. The rows it keeps are appended in batches as CSV text to
an xz-compressed export file. It also splits the connection URI into the libpq environment variables.

The model has one module per concern:

- `Json` (`json.dfy`): the decoded JSON values a cursor row yields. It also models the Python operations the
  normalisers apply to them: subscript, `.get`, iteration, list and set comprehensions and truthiness. Each
  operation raises the exception Python raises (`KeyError`, `TypeError`, `IndexError`). `Without` removes a key from an
  object. The normalisers never delete keys; `Without` only serves to state what a row missing a key does.
  JSON `true` and `false` are modelled as the numbers 1 and 0. Python's `True` and `False` compare, hash and test
  like those numbers, and only `str()` tells them apart, which is a parameter here.
- `Collections` (`collections.dfy`): sequence helpers, plus `list(set)`. Python enumerates a set in an order it does
  not specify, so `ListOfSet` may return any duplicate-free listing of the set.
- `Places` (`places.dfy`): the place-row normaliser of `extract_places`.
- `Artists` (`artists.dfy`): the artist-row normaliser of `extract_artists`.
  - `ArtistFieldsOf` is everything the object determines: the sets, the order of the area groups, and the exception
    raised.
  - The method `ExtractArtistRow` builds a row with `append`/`extend` loops, as the source does. It is proved to
    realise `ArtistFieldsOf`.
- `StringOrder` (`string_order.dfy`): Python's code-point order on strings. `sorted` is modelled as an insertion
  sort, and there is exactly one sorted permutation of a list.
- `Fingerprint` (`fingerprint.dfy`): `_hash_datum`. `HashDatum` is the in-place rewrite on an array. `Key` is the
  string fed to MD5. MD5 itself is a function parameter.
- `Csv` (`csv.dfy`): the text `_commit_results` produces with Python's `csv.writer` (delimiter `,`, `QUOTE_MINIMAL`,
  line terminator `\n`). It includes a reader for that dialect, so that the writer has a proved round trip.
- `Extractor` (`extractor.dfy`): the dedup-and-flush loop shared by both extractions.
  - The loop's state (`datum_hashes`, `results`, `first_write`, the file) is the class `Extraction`. It is updated in
    place by `Step` and `Finish`. `Abort` changes nothing: it reports the file as it stands when an exception ends
    the run.
  - `ExtractPlaces` and `ExtractArtists` drive it over the cursor's rows.
  - `Dedup`, `Chunks`, `FlushText` and `ExportText` specify what a run keeps and writes.
- `ConnectionUri` (`uri.dfy`): the `split`/`rsplit` chain of `setup`.

Behaviour of `extract-musicbrainz.py` worth knowing:

- The fingerprint sorts the flattened list of strings across all fields, not the characters of a string, and not
  field by field. So the fingerprint ignores which field holds a string, and it ignores field order
  (`Fingerprint.KeyIgnoresFieldBoundaries`, `Fingerprint.KeyFieldPermutation`). Swapping two fields' values does not
  change it.
- Spaces are removed after sorting. Removing a space inside one string can therefore change the key once other
  strings are present (`Fingerprint.SpaceErasedAfterSorting`).
- A non-string element makes the key raise `TypeError` (`Fingerprint.Key`). The rewrite turns None into `[]` and
  splices lists, so neither raises by itself. A null or numeric element inside a list does, such as a null alias name
  or the numeric coordinates of a place row.
- The header line is written only by the first flush inside the loop, which happens once more than 50000 rows are
  kept. The flush after the loop always passes `write_headers=False`. A run that keeps 50000 rows or fewer therefore
  writes no header at all (`Extractor.NoHeaderWhenFew`, `Extractor.ExportRoundTrip`).

## Model

| member | source | states |
|---|---|---|
| Json.Get | extract-musicbrainz.py:104-122 | a successful `j[key]` is on a dict and gives a value stored under `key`; otherwise a dict raises KeyError and a non-dict TypeError |
| Json.GetPresent | extract-musicbrainz.py:104-122 | a key a dict holds is read: `j[key]` succeeds, and without repeated keys it gives the value stored under the key |
| Json.HeldKeyIsRead | extract-musicbrainz.py:104-122 | subscripting a dict with a key it holds succeeds and gives one of the values stored under that key |
| Json.LookupDistinct | extract-musicbrainz.py:104-122 | in an object without repeated keys, the value read under a key is the one member holding it |
| Json.GetOr | extract-musicbrainz.py:182-183 | `j.get(key, None)` is `j[key]` when present and the default otherwise; a non-dict raises |
| Json.Index | extract-musicbrainz.py:112 | `list[i]` is the i-th item, or IndexError past the end |
| Json.Iter | extract-musicbrainz.py:169 | iterating a list yields its items; strings and dicts are iterable; other values raise |
| Json.Truthy | extract-musicbrainz.py:173-177 | the falsy values are exactly None, 0, the empty string, the empty list and the empty dict |
| Json.Collection | extract-musicbrainz.py:104-116 | reading a key and replacing a null by `[]` fails exactly when the read fails and otherwise gives `[]` for null and the value itself else |
| Json.PluckAll | extract-musicbrainz.py:118-120 | `[x[key] for x in xs]` succeeds iff every subscript succeeds, then holds the i-th sub-field at i; else raises the error of some element |
| Json.PluckSucceeds | extract-musicbrainz.py:118-120 | the list comprehension over a list of dicts that all hold the key succeeds, with one entry per dict |
| Json.SetPluckSucceeds | extract-musicbrainz.py:171 | the set comprehension over a list of dicts that all hold the key, with hashable values under it, succeeds |
| Json.CollectionPlucks | extract-musicbrainz.py:104-120 | a held collection that is null or a list of dicts holding the sub-field passes the null check and the comprehension |
| Json.CollectionSetPlucks | extract-musicbrainz.py:153-160 | the same for the set comprehensions, with hashable sub-fields |
| Json.Pluck | extract-musicbrainz.py:118-120 | the comprehension over a list plucks each element's sub-field in order, as `PluckAll` states |
| Json.SetPluckMembers | extract-musicbrainz.py:171 | the set `{x[key] for x in xs}` holds exactly the sub-fields of the elements |
| Json.SetPluck | extract-musicbrainz.py:171-188 | every member of `{x[key] for x in xs}` is hashable; what the members are is `SetPluckMembers` |
| Json.SetOf | extract-musicbrainz.py:187 | `{x for x in xs}` succeeds iff every element is hashable, and is then the set of the elements |
| Json.GetWithout | extract-musicbrainz.py:181-184 | deleting a key makes it raise KeyError (or `.get` give None) and leaves every other key as it was |
| Collections.ListOfSet | extract-musicbrainz.py:185-188 | `list(s)` is a duplicate-free sequence holding exactly the members of `s` |
| Places.Coordinates | extract-musicbrainz.py:110-113 | null, or a first or second component that is null, gives `[]`; otherwise the value is kept; a too-short list raises IndexError |
| Places.PlaceRow | extract-musicbrainz.py:104-122 | the row has the five header columns, its name is `item['name']`, its coordinates are the checked coordinates; a non-dict raises TypeError |
| Places.PluckedColumns | extract-musicbrainz.py:118-120 | aliases, urls and tags columns are the plucked `name`, `url`, `name` of the null-checked collections |
| Places.NullCollectionsBecomeEmpty | extract-musicbrainz.py:104-116 | a null `tags`, `urls`, `aliases` or `coordinates` gives `[]` in its column |
| Places.ListsKeepSourceOrder | extract-musicbrainz.py:118-120 | each of the aliases, urls and tags columns that comes from a list keeps source order and duplicates (entry i is the sub-field of object i), whatever the other collections hold |
| Places.MissingKeyIsError | extract-musicbrainz.py:104-122 | a missing `tags` raises KeyError('tags') first; a missing `name` raises KeyError('name') once every earlier read succeeded |
| Places.WellFormedPlaceBuilds | extract-musicbrainz.py:104-122 | an object holding every key read, with null or at-least-two-value `coordinates` and null or dict-list `aliases`/`urls`/`tags` holding the plucked sub-field, is normalised into a row (never raises) |
| Artists.AreaGroupOf | extract-musicbrainz.py:170-171 | an area contributes its `name` and the set of its aliases' names; a missing `name` raises its error |
| Artists.AreaGroups | extract-musicbrainz.py:169-171 | when no area fails, the loop yields one group per area |
| Artists.AreaGroupsStep | extract-musicbrainz.py:169-171 | one more area appends its group, or its error ends the loop |
| Artists.AreaGroupsErrorPersists | extract-musicbrainz.py:169-171 | once an area fails, no later area changes the outcome |
| Artists.OptionalGroup | extract-musicbrainz.py:173-179 | a falsy `begin_area`/`end_area` adds nothing; a truthy one adds its group |
| Artists.AreasOf | extract-musicbrainz.py:168-179 | the area groups are the listed areas, then `begin_area`, then `end_area`, in that order |
| Artists.NullChecked | extract-musicbrainz.py:153-166 | each of the five collections is its subscript with null replaced by `[]`; a non-dict raises TypeError; the first missing key in source order (aliases, tags, urls, artist_credits, areas) raises its KeyError |
| Artists.ScalarsOf | extract-musicbrainz.py:181-184 | name and guid are subscripts (KeyError when missing, name first); isni and ipi default to None |
| Artists.NameSetsOf | extract-musicbrainz.py:185-188 | the aliases, tags and urls columns are the sets of names and urls; credits are the set of the credits |
| Artists.ArtistFieldsOf | extract-musicbrainz.py:153-189 | a non-dict raises TypeError; a normalised artist has `item['name']` and `item['guid']` as name and guid, and `.get` of `isni` and `ipi` with default None |
| Artists.WellFormedAreaGroup | extract-musicbrainz.py:170-171 | an area holding `name` and a list of aliases with hashable names gives its group |
| Artists.WellFormedAreaGroups | extract-musicbrainz.py:169-171 | a list of such areas never makes the loop raise |
| Artists.WellFormedOptionalGroup | extract-musicbrainz.py:173-179 | a held `begin_area`/`end_area` that is falsy or such an area never raises |
| Artists.WellFormedCollections | extract-musicbrainz.py:153-188 | for a well-formed artist the five null checks and the four set comprehensions succeed, and `areas` is then a list of well-formed areas |
| Artists.WellFormedArtistBuilds | extract-musicbrainz.py:153-189 | an object holding every key subscripted, with null or dict-list aliases/tags/urls with hashable sub-fields, null or hashable-list credits, null or well-formed `areas`, and falsy or well-formed begin/end areas, is normalised (never raises) |
| Artists.RowRealisesFields | extract-musicbrainz.py:189 | a row assembled from listings of the sets and a flattening of the area groups is one the source may build |
| Artists.AppendGroup | extract-musicbrainz.py:170-171 | `append(name)` then `extend(alias names)` flattens one more group, leaving the earlier entries in place |
| Artists.FlattensAreasSnoc | extract-musicbrainz.py:170-171 | a group's name followed by a listing of its aliases extends a flattening by that group |
| Artists.CollectListedAreas | extract-musicbrainz.py:168-171 | the loop over `item['areas']` flattens every group in order, or raises the first area's error |
| Artists.AppendOptionalArea | extract-musicbrainz.py:173-179 | a truthy optional area extends the flattening by its group; a falsy one leaves it |
| Artists.CollectAreas | extract-musicbrainz.py:168-179 | the `areas` column flattens `AreasOf`, or the same exception is raised |
| Artists.ExtractArtistRow | extract-musicbrainz.py:153-189 | the row realises `ArtistFieldsOf(item)`, or the same exception is raised |
| Artists.NullCollectionsBecomeEmpty | extract-musicbrainz.py:153-179 | a null collection gives `[]` in its column; null or empty `areas` with falsy `begin_area` and `end_area` give an empty `areas` column |
| Artists.NoAreaGroups | extract-musicbrainz.py:165-179 | null `areas`, `begin_area` and `end_area` give no area groups |
| Artists.SetColumnsAreExactNameSets | extract-musicbrainz.py:185-188 | each of the aliases, tags and urls columns that comes from a list is duplicate-free and holds exactly its objects' names (urls), whatever the other collections hold |
| Artists.CreditsColumnIsSetOfCredits | extract-musicbrainz.py:187 | the artist credits column is duplicate-free and holds exactly the credits |
| Artists.FlattensAreasLength | extract-musicbrainz.py:168-179 | the `areas` column has one entry per group name and one per alias name |
| Artists.ArtistFieldsWithout | extract-musicbrainz.py:181-184 | deleting a scalar key changes only the scalar step of normalisation |
| Artists.MissingNameIsError | extract-musicbrainz.py:181 | an artist without `name` raises KeyError('name') |
| Artists.MissingGuidIsError | extract-musicbrainz.py:184 | an artist without `guid` raises KeyError('guid') |
| Artists.MissingIsniIsNull | extract-musicbrainz.py:182 | an artist without `isni` gets None there and nothing else changes |
| Artists.MissingIpiIsNull | extract-musicbrainz.py:183 | an artist without `ipi` gets None there and nothing else changes |
| StringOrder.BelowTotal | extract-musicbrainz.py:89 | any two distinct strings are ordered one way, as Python's string comparison does |
| StringOrder.BelowTransitive | extract-musicbrainz.py:89 | the string order is transitive |
| StringOrder.Sort | extract-musicbrainz.py:89 | `sorted` returns an ordered permutation of its input |
| StringOrder.SortSorted | extract-musicbrainz.py:89 | sorting an already ordered list returns it unchanged |
| StringOrder.SortedUnique | extract-musicbrainz.py:89 | two sorted permutations of the same strings are equal |
| StringOrder.SortByMultiset | extract-musicbrainz.py:89 | lists with the same elements sort to the same list |
| Fingerprint.Lift | extract-musicbrainz.py:83-88 | one field's rewrite: None is `[]`, a list stays as it is, any other `x` is `[x]` |
| Fingerprint.Canonical | extract-musicbrainz.py:82-88 | the rewritten datum keeps its length; field i is `[]` for None, the list itself for a list, `[x]` for any other `x` |
| Fingerprint.Flatten | extract-musicbrainz.py:89 | the flattened list holds exactly the elements of the rewritten fields |
| Fingerprint.CanonicalIdempotent | extract-musicbrainz.py:82-88 | rewriting a rewritten datum changes nothing |
| Fingerprint.FlattenCanonical | extract-musicbrainz.py:82-89 | the flattened elements do not depend on whether the rewrite has happened |
| Fingerprint.FlattenPermutation | extract-musicbrainz.py:89 | reordering fields reorders the flattened elements without changing their counts |
| Fingerprint.StringsOf | extract-musicbrainz.py:89 | the join succeeds iff every flattened element is a string, else TypeError |
| Fingerprint.JoinSplit | extract-musicbrainz.py:89 | joining the pieces of `split(c)` with `c` gives the string back |
| Fingerprint.ConcatSplit | extract-musicbrainz.py:89 | `''.join(s.split(' '))` removes every space and nothing else |
| Fingerprint.Key | extract-musicbrainz.py:89 | the key exists iff every flattened element is a string, raises TypeError otherwise, and has no space |
| Fingerprint.Hash | extract-musicbrainz.py:90 | the digest exists exactly when the key does, and is then MD5 of the key; otherwise TypeError |
| Fingerprint.KeyIsErasedSortedJoin | extract-musicbrainz.py:89 | the key is the join of the sorted strings with its spaces removed |
| Fingerprint.KeyByMultiset | extract-musicbrainz.py:89 | datums whose flattened elements have the same counts have the same key |
| Fingerprint.KeyFieldPermutation | extract-musicbrainz.py:89 | reordering the fields does not change the key |
| Fingerprint.KeyIgnoresFieldBoundaries | extract-musicbrainz.py:89 | moving strings from one list field into the next does not change the key |
| Fingerprint.KeyOfOneString | extract-musicbrainz.py:89 | a single string is keyed by itself without spaces |
| Fingerprint.KeySwapPair | extract-musicbrainz.py:89 | two strings give the same key in either order |
| Fingerprint.SpaceErasedAfterSorting | extract-musicbrainz.py:89 | `["a b","aa"]` keys to "abaa" but `["ab","aa"]` to "aaab": a space can change the key |
| Fingerprint.HashDatum | extract-musicbrainz.py:81-90 | the array is rewritten in place to `Canonical` of its old content, and the result is the hash of the datum |
| Csv.Escape | extract-musicbrainz.py:69 | doubling quotes never shortens a field and leaves a quote-free field unchanged |
| Csv.EncodeField | extract-musicbrainz.py:69-75 | a field is written as it is or wrapped in quotes, and a field holding a delimiter, quote or line break is never written as it is |
| Csv.Line | extract-musicbrainz.py:69-75 | every written record ends with the `\n` line terminator |
| Csv.Cell | extract-musicbrainz.py:69-75 | a string cell is written as it is and None as the empty string |
| Csv.CommitResults | extract-musicbrainz.py:66-77 | the text written is the header line when asked for, then one line per entry, in order |
| Csv.CommitText | extract-musicbrainz.py:66-77 | a commit writes nothing exactly when it writes no header and has no rows |
| Csv.CommitTextLines | extract-musicbrainz.py:71-75 | the text of a commit is the concatenated lines of the header (when written) and of the rows |
| Csv.ParseEncodedField | extract-musicbrainz.py:69 | reading a field written with minimal quoting gives the field back |
| Csv.ParseLine | extract-musicbrainz.py:72-75 | reading a written line gives its fields back, whatever follows |
| Csv.ParseLines | extract-musicbrainz.py:74-75 | reading the lines of non-empty records gives the records back in order |
| Csv.CommitRoundTrip | extract-musicbrainz.py:66-77 | reading what one commit writes gives the header (when written) and then every row's cells |
| Extractor.Dedup | extract-musicbrainz.py:123-128 | the kept rows and the seen hashes have the same length, at most the number of datums |
| Extractor.DedupSnoc | extract-musicbrainz.py:123-128 | a datum whose hash is seen is skipped; otherwise its rewritten form and its hash are appended; a raising hash aborts |
| Extractor.DedupOk | extract-musicbrainz.py:123 | the loop gets through every datum iff no hash raises |
| Extractor.HashCanonical | extract-musicbrainz.py:81-90 | hashing a rewritten datum gives the hash of the datum |
| Extractor.DedupHashes | extract-musicbrainz.py:124-128 | the seen hashes are distinct; hash i belongs to kept row i; every offered datum's hash is among them |
| Extractor.DedupKeepsOffered | extract-musicbrainz.py:127-128 | every kept row is the rewrite of an offered datum |
| Extractor.SeenIsSkipped | extract-musicbrainz.py:124-125 | a datum with a seen hash leaves the state unchanged |
| Extractor.RepeatIsSkipped | extract-musicbrainz.py:124-125 | the same datum twice in a row is kept at most once |
| Extractor.ReorderedIsSkipped | extract-musicbrainz.py:123-125 | a datum holding an earlier datum's fields in another order is skipped |
| Extractor.Chunks | extract-musicbrainz.py:129-136 | every in-loop batch has `PREFTECH_COUNT*5 + 1` rows, and there is one iff more than `PREFTECH_COUNT*5` rows are kept |
| Extractor.Leftover | extract-musicbrainz.py:138-139 | at most `PREFTECH_COUNT*5` rows remain for the final flush |
| Extractor.ExportText | extract-musicbrainz.py:129-139 | a run that keeps no rows writes nothing, not even the header |
| Extractor.ChunksLeftover | extract-musicbrainz.py:129-139 | the batches followed by the remainder are exactly the kept rows, in order |
| Extractor.ChunksOf | extract-musicbrainz.py:129-139 | full batches followed by a short remainder are cut back into those batches and that remainder |
| Extractor.NoHeaderWhenFew | extract-musicbrainz.py:129-139 | with at most `PREFTECH_COUNT*5` rows kept, the file is the rows' lines with no header |
| Extractor.FlushTextLines | extract-musicbrainz.py:129-136 | the in-loop flushes write the header once, with the first batch, then every batch's rows |
| Extractor.ExportTextLines | extract-musicbrainz.py:129-139 | a full run writes the header iff more than `PREFTECH_COUNT*5` rows are kept, then every kept row's line |
| Extractor.ExportRoundTrip | extract-musicbrainz.py:129-139 | reading a full run's file gives the header (exactly when more than `PREFTECH_COUNT*5` rows are kept) and then every kept row in order |
| Extractor.FlushedByCommit | extract-musicbrainz.py:129-136 | the file the loop's state holds is the text of its in-loop flushes |
| Extractor.FlushStep | extract-musicbrainz.py:129-136 | one more flush appends its commit text, with the header only when it is the first |
| Extractor.CommitBatch | extract-musicbrainz.py:130-134 | the in-loop commit writes the batch's text with the header flag given |
| Extractor.FinishText | extract-musicbrainz.py:138-139 | the final flush of the remainder completes the file of a full run |
| Extractor.Extraction.constructor | extract-musicbrainz.py:96-99 | a run starts with no hashes, no results, `first_write` set and an empty file |
| Extractor.Extraction.Step | extract-musicbrainz.py:123-136 | hashes the datum; fails iff the hash raises; keeps the datum iff its hash is new, appending hash and rewritten row; keeps the loop's invariant |
| Extractor.Extraction.Offer | extract-musicbrainz.py:124-128 | a seen hash is skipped; a new one is appended to `datum_hashes` with its row |
| Extractor.Extraction.Keep | extract-musicbrainz.py:127-136 | appends hash and row, flushing a batch of more than `PREFTECH_COUNT*5` rows |
| Extractor.Extraction.Flush | extract-musicbrainz.py:129-136 | writes the full batch (header the first time only), empties `results`, clears `first_write` |
| Extractor.Extraction.Finish | extract-musicbrainz.py:138-139 | the file is the text of a full run over every kept row |
| Extractor.Extraction.Abort | extract-musicbrainz.py:100-139 | an exception leaves the file with the batches already flushed; pending rows are lost |
| Extractor.BuiltByAt | extract-musicbrainz.py:102-122 | row i was built from cursor item i |
| Extractor.BuildArtist | extract-musicbrainz.py:153-189 | the next artist row is one the source may build from the next item, or its error |
| Extractor.ExtractPlaces | extract-musicbrainz.py:96-139 | every row is built from its item; the file is the export of the dedup of the rows, or on an exception the flushed batches, and the exception is the row's or TypeError from the hash |
| Extractor.ExtractArtists | extract-musicbrainz.py:145-206 | every row is one the source may build from its item; the file is the export of the dedup of the rows, or on an exception the flushed batches; the exception is the item's normalisation error, or TypeError when the built row's hash raised |
| ConnectionUri.SplitFirst | extract-musicbrainz.py:56 | `split(sep, 1)` is `[s]` without `sep`, else the parts before and after the first `sep` |
| ConnectionUri.SplitLast | extract-musicbrainz.py:57 | `rsplit(sep, 1)` is `[s]` without `sep`, else the parts before and after the last `sep` |
| ConnectionUri.Part | extract-musicbrainz.py:56-59 | subscripting a split past its end raises IndexError |
| ConnectionUri.StripSlice | extract-musicbrainz.py:60 | cutting `c`s off the front and then off the back leaves a slice of the input with no `c` at either end, and all that was cut is `c` |
| ConnectionUri.Strip | extract-musicbrainz.py:60 | `strip('/')` is a contiguous slice of the input with no `/` at either end, and everything cut off on either side is `/` |
| ConnectionUri.ParseNetloc | extract-musicbrainz.py:55-60 | the database is the path stripped of `/` |
| ConnectionUri.ParseSplitNetloc | extract-musicbrainz.py:56-60 | once the netloc splits at `@` with a `:` on both sides, every subscript succeeds |
| ConnectionUri.ParseRoundTrip | extract-musicbrainz.py:55-60 | `u:p@h:n` with `/d` gives back user, password, host, port and database |
| ConnectionUri.NoAtIsIndexError | extract-musicbrainz.py:57-58 | a netloc without `@` raises IndexError |
| ConnectionUri.NoPasswordIsIndexError | extract-musicbrainz.py:57 | no `:` before the first `@` raises IndexError |
| ConnectionUri.NoPortIsIndexError | extract-musicbrainz.py:59 | no `:` after the first `@` raises IndexError |
| ConnectionUri.ColonInPasswordIsCut | extract-musicbrainz.py:56-57 | a password holding `:` comes back as the text after its last `:` |
| ConnectionUri.ParseNetlocCorrected | extract-musicbrainz.py:55-60 | the corrected split also gives the stripped path as database |
| ConnectionUri.CorrectedRoundTrip | extract-musicbrainz.py:55-60 | with the corrected split, a password holding `:` comes back whole |

## Left out

- MD5 (`hashlib.md5(...).hexdigest()`) is a function parameter. Only the string it digests is modelled.
- Python's `str()` of list-valued cells is a function parameter of the CSV writer.
- The order in which Python enumerates a set is unspecified. `Collections.ListOfSet` may return any duplicate-free
  listing, and artist rows are stated as the set of rows the source may build.
- `json.loads`, the SQL files, the asyncpg pool, the transaction and the server-side cursor are left out. The cursor
  is the input sequence of decoded JSON values.
- The lzma compression and the file append are left out. The file is the text appended by the run.
- Logging is left out. So is the output directory set-up at import time, and the deletion of old exports.
- `urlparse` is left out: the network location and the path are the inputs of `ConnectionUri.ParseNetloc`. The
  `os.environ` writes are left out. The SSL context and the pool creation of `setup` are left out.
- async/await and `main` are left out. The two extractions are independent runs.
- The Redis constants and `capture_options` are left out; nothing uses them.
- load-data.py is not part of this model. It is an HTTP download and a pandas read with no logic of the extraction.
- Csv.NeedsQuotes: a field holding `\r` is quoted, as recent Python versions do. Older versions quote only the
  delimiter, the quote character and the line terminator's characters.
- Csv.CommitResults: returns the text of the in-memory stream. The compressed append of that text to the file is
  left out.
- Extractor.Extraction.Abort: an exception from the cursor or the file is not modelled. Only the exceptions that
  normalisation and hashing raise end a run.
- Artists.AreaGroups: only its length is stated in its contract. What each group holds is stated by
  `Artists.AreaGroupsStep` and `Artists.AreaGroupsErrorPersists`.

## Findings

| source | as written | input that shows it | evidently intended | confidence | as-written member | corrected member |
|---|---|---|---|---|---|---|
| extract-musicbrainz.py:56-57 | the user is taken before the first `:` of the netloc, but the password after the last `:` of the text before `@` | netloc `u:pa:ss@h:1` gives user `u` and password `ss` | the password is everything between the user's `:` and the `@` (`pa:ss`) | high; not executed | ConnectionUri.ColonInPasswordIsCut | ConnectionUri.CorrectedRoundTrip |
