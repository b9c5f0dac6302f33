/// The CSV text `_commit_results` appends to an export: Python's
/// `csv.writer` with delimiter ',', quote character '"', doubled quotes,
/// line terminator "\n" and minimal quoting, plus a reader for that
/// dialect, which gives the writer its round trip.
module Csv {
  import opened Json
  import opened Collections

  /** Minimal quoting: a field is quoted when it holds the delimiter, the
      quote character or a line break. */
  predicate NeedsQuotes(field: string) {
    ',' in field || '"' in field || '\n' in field || '\r' in field
  }

  /** The field with every quote character doubled. */
  function Escape(field: string): (r: string)
    ensures |r| >= |field|
    ensures '"' !in field ==> r == field
  {
    if field == [] then []
    else (if field[0] == '"' then "\"\"" else [field[0]]) + Escape(field[1..])
  }

  /** One field as written. `alone` says it is the only field of its row:
      the writer quotes an empty field then, so that the row is not an
      empty line. */
  function EncodeField(field: string, alone: bool): (r: string)
    ensures r == field || (|r| >= 2 && r[0] == '"' && r[|r| - 1] == '"')
    ensures NeedsQuotes(field) ==> r != field
  {
    if NeedsQuotes(field) || (alone && field == "") then "\"" + Escape(field) + "\"" else field
  }

  function EncodeAll(fields: seq<string>, alone: bool): (r: seq<string>)
    ensures |r| == |fields|
  {
    if fields == [] then [] else [EncodeField(fields[0], alone)] + EncodeAll(fields[1..], alone)
  }

  /** `writer.writerow(fields)` for fields already converted to strings. */
  function Line(fields: seq<string>): (r: string)
    ensures |r| > 0 && r[|r| - 1] == '\n'
  {
    Join(EncodeAll(fields, |fields| == 1), ',') + "\n"
  }

  /** The string the writer produces for one cell: a string as it is,
      None as the empty string, anything else through `str()`, which
      `render` stands for. */
  function Cell(v: Value, render: Value -> string): (r: string)
    ensures v.Str? ==> r == v.s
    ensures v == Null ==> r == ""
  {
    match v
    case Str(s) => s
    case Null => ""
    case _ => render(v)
  }

  function Cells(row: Row, render: Value -> string): (r: seq<string>)
    ensures |r| == |row|
    ensures forall i :: 0 <= i < |row| ==> r[i] == Cell(row[i], render)
  {
    seq(|row|, i requires 0 <= i < |row| => Cell(row[i], render))
  }

  /** The rows as the writer turns them into strings. */
  function Records(rows: seq<Row>, render: Value -> string): (r: seq<seq<string>>)
    ensures |r| == |rows|
    ensures forall i :: 0 <= i < |rows| ==> r[i] == Cells(rows[i], render)
  {
    seq(|rows|, i requires 0 <= i < |rows| => Cells(rows[i], render))
  }

  function Lines(records: seq<seq<string>>): (r: seq<string>)
    ensures |r| == |records|
  {
    seq(|records|, i requires 0 <= i < |records| => Line(records[i]))
  }

  /** The text one call of `_commit_results` appends: the header line when
      `writeHeaders`, then one line per row in order. */
  function CommitText(rows: seq<Row>, headers: seq<string>, writeHeaders: bool, render: Value -> string): (r: string)
    ensures r == "" <==> !writeHeaders && rows == []
  {
    (if writeHeaders then Line(headers) else "") + Concat(Lines(Records(rows, render)))
  }

  /** `_commit_results` up to the compressed append: the header when asked
      for, then each entry through the writer, into a memory stream whose
      text is returned. */
  method CommitResults(results: seq<Row>, headers: seq<string>, writeHeaders: bool, render: Value -> string)
    returns (text: string)
    ensures text == CommitText(results, headers, writeHeaders, render)
  {
    var head := if writeHeaders then Line(headers) else "";
    text := head;
    ghost var writes := [head];
    for k := 0 to |results|
      invariant writes == [head] + Lines(Records(results[..k], render))
      invariant text == Concat(writes)
    {
      var line := Line(Cells(results[k], render));
      AppendLine(results, k, render, head, writes);
      writes := writes + [line];
      text := text + line;
    }
    assert results[..|results|] == results;
    ConcatCons(head, Lines(Records(results, render)));
  }

  /** Writing row `k` appends its line to what has been written. */
  lemma AppendLine(results: seq<Row>, k: nat, render: Value -> string, head: string, writes: seq<string>)
    requires k < |results|
    requires writes == [head] + Lines(Records(results[..k], render))
    ensures writes + [Line(Cells(results[k], render))] == [head] + Lines(Records(results[..k + 1], render))
    ensures Concat(writes + [Line(Cells(results[k], render))]) == Concat(writes) + Line(Cells(results[k], render))
  {
    var line := Line(Cells(results[k], render));
    assert results[..k + 1] == results[..k] + [results[k]];
    assert Lines(Records(results[..k + 1], render)) == Lines(Records(results[..k], render)) + [line];
    ConcatSnoc(writes, line);
  }

  // A reader for the same dialect.

  /** Reads the rest of a quoted field, `s` starting just after the opening
      quote: a doubled quote stands for one, a single one closes the field.
      Gives the field and the text after the closing quote. */
  function ParseQuoted(s: string): (r: Option<(string, string)>)
    ensures r.Some? ==> |r.value.1| < |s|
  {
    if s == [] then None
    else if s[0] == '"' then
      if |s| >= 2 && s[1] == '"' then
        match ParseQuoted(s[2..])
        case None => None
        case Some(p) => Some((['"'] + p.0, p.1))
      else Some(("", s[1..]))
    else
      match ParseQuoted(s[1..])
      case None => None
      case Some(p) => Some(([s[0]] + p.0, p.1))
  }

  /** Reads an unquoted field: everything up to a delimiter, a line end or
      the end of the text. */
  function ParseUnquoted(s: string): (r: (string, string))
    ensures |r.1| <= |s|
  {
    if s == [] || s[0] == ',' || s[0] == '\n' then ("", s)
    else
      var p := ParseUnquoted(s[1..]);
      ([s[0]] + p.0, p.1)
  }

  function ParseField(s: string): (r: Option<(string, string)>)
    ensures r.Some? ==> |r.value.1| <= |s|
  {
    if s != [] && s[0] == '"' then ParseQuoted(s[1..]) else Some(ParseUnquoted(s))
  }

  /** Reads the fields of one line up to and including its line end. */
  function ParseRecord(s: string): (r: Option<(seq<string>, string)>)
    ensures r.Some? ==> |r.value.1| < |s|
    decreases |s|
  {
    match ParseField(s)
    case None => None
    case Some((field, rest)) =>
      if rest == [] then None
      else if rest[0] == '\n' then Some(([field], rest[1..]))
      else if rest[0] == ',' then
        match ParseRecord(rest[1..])
        case None => None
        case Some((fields, after)) => Some(([field] + fields, after))
      else None
  }

  /** Reads a whole text into its rows. */
  function ParseRecords(s: string): (r: Option<seq<seq<string>>>)
    decreases |s|
  {
    if s == [] then Some([])
    else
      match ParseRecord(s)
      case None => None
      case Some((fields, rest)) =>
        match ParseRecords(rest)
        case None => None
        case Some(records) => Some([fields] + records)
  }

  lemma ParseQuotedClose(rest: string)
    requires rest == [] || rest[0] != '"'
    ensures ParseQuoted("\"" + rest) == Some(("", rest))
  {
    assert ("\"" + rest)[1..] == rest;
  }

  lemma ParseQuotedDoubled(tail: string)
    ensures ParseQuoted("\"\"" + tail) == match ParseQuoted(tail)
      case None => None
      case Some(p) => Some((['"'] + p.0, p.1))
  {
    assert ("\"\"" + tail)[2..] == tail;
  }

  lemma ParseQuotedPlain(c: char, tail: string)
    requires c != '"'
    ensures ParseQuoted([c] + tail) == match ParseQuoted(tail)
      case None => None
      case Some(p) => Some(([c] + p.0, p.1))
  {
    assert ([c] + tail)[1..] == tail;
  }

  lemma EscapeCons(field: string)
    requires field != []
    ensures Escape(field) == (if field[0] == '"' then "\"\"" else [field[0]]) + Escape(field[1..])
  {
  }

  lemma EscapedQuoteStep(field: string, rest: string)
    requires field != [] && field[0] == '"'
    requires ParseQuoted(Escape(field[1..]) + "\"" + rest) == Some((field[1..], rest))
    ensures ParseQuoted(Escape(field) + "\"" + rest) == Some((field, rest))
  {
    var tail := Escape(field[1..]) + "\"" + rest;
    EscapeCons(field);
    assert Escape(field) + "\"" + rest == "\"\"" + tail;
    ParseQuotedDoubled(tail);
    assert field == ['"'] + field[1..];
  }

  lemma EscapedPlainStep(field: string, rest: string)
    requires field != [] && field[0] != '"'
    requires ParseQuoted(Escape(field[1..]) + "\"" + rest) == Some((field[1..], rest))
    ensures ParseQuoted(Escape(field) + "\"" + rest) == Some((field, rest))
  {
    var c := field[0];
    var tail := Escape(field[1..]) + "\"" + rest;
    EscapeCons(field);
    assert Escape(field) == [c] + Escape(field[1..]);
    assert Escape(field) + "\"" + rest == [c] + tail;
    ParseQuotedPlain(c, tail);
    assert ParseQuoted([c] + tail) == Some(([c] + field[1..], rest));
    assert [c] + field[1..] == field;
  }

  lemma {:induction false} ParseEscaped(field: string, rest: string)
    requires rest == [] || rest[0] != '"'
    ensures ParseQuoted(Escape(field) + "\"" + rest) == Some((field, rest))
  {
    if field == [] {
      ParseQuotedClose(rest);
      assert Escape(field) + "\"" + rest == "\"" + rest;
    } else {
      ParseEscaped(field[1..], rest);
      if field[0] == '"' {
        EscapedQuoteStep(field, rest);
      } else {
        EscapedPlainStep(field, rest);
      }
    }
  }

  lemma {:induction false} ParsePlain(field: string, rest: string)
    requires !NeedsQuotes(field)
    requires rest == [] || rest[0] == ',' || rest[0] == '\n'
    ensures ParseUnquoted(field + rest) == (field, rest)
  {
    if field == [] {
      assert field + rest == rest;
    } else {
      var s := field + rest;
      assert !NeedsQuotes(field[1..]) by {
        assert forall c :: c in field[1..] ==> c in field;
      }
      assert s[0] == field[0] && field[0] in field;
      assert s[1..] == field[1..] + rest;
      ParsePlain(field[1..], rest);
      assert ParseUnquoted(s) == ([field[0]] + field[1..], rest);
      assert [field[0]] + field[1..] == field;
    }
  }

  /** Reading an encoded field followed by a delimiter or line end gives
      the field back. */
  lemma ParseEncodedField(field: string, alone: bool, rest: string)
    requires rest != [] && (rest[0] == ',' || rest[0] == '\n')
    ensures ParseField(EncodeField(field, alone) + rest) == Some((field, rest))
  {
    if NeedsQuotes(field) || (alone && field == "") {
      ParseQuotedField(EncodeField(field, alone) + rest, field, rest);
    } else {
      ParsePlainField(EncodeField(field, alone) + rest, field, rest);
    }
  }

  lemma ParseQuotedField(s: string, field: string, rest: string)
    requires s == "\"" + Escape(field) + "\"" + rest && (rest == [] || rest[0] != '"')
    ensures ParseField(s) == Some((field, rest))
  {
    assert s[0] == '"' && s[1..] == Escape(field) + "\"" + rest;
    ParseEscaped(field, rest);
  }

  lemma ParsePlainField(s: string, field: string, rest: string)
    requires s == field + rest && !NeedsQuotes(field)
    requires rest != [] && (rest[0] == ',' || rest[0] == '\n')
    ensures ParseField(s) == Some((field, rest))
  {
    assert s[0] != '"' by {
      if field != [] {
        assert s[0] == field[0] && field[0] in field;
      }
    }
    ParsePlain(field, rest);
  }

  lemma {:induction false} ParseJoined(fields: seq<string>, alone: bool, rest: string)
    requires |fields| >= 1
    requires alone ==> |fields| == 1
    ensures ParseRecord(Join(EncodeAll(fields, alone), ',') + "\n" + rest) == Some((fields, rest))
    decreases |fields|
  {
    if |fields| == 1 {
      ParseJoinedLast(fields, alone, rest);
    } else {
      ParseJoined(fields[1..], alone, rest);
      ParseJoinedNext(fields, alone, rest);
    }
  }

  lemma ParseJoinedLast(fields: seq<string>, alone: bool, rest: string)
    requires |fields| == 1
    ensures ParseRecord(Join(EncodeAll(fields, alone), ',') + "\n" + rest) == Some((fields, rest))
  {
    var e0 := EncodeField(fields[0], alone);
    var s := e0 + ("\n" + rest);
    assert Join(EncodeAll(fields, alone), ',') + "\n" + rest == s;
    ParseEncodedField(fields[0], alone, "\n" + rest);
    assert ("\n" + rest)[1..] == rest;
    assert fields == [fields[0]];
  }

  lemma ParseJoinedNext(fields: seq<string>, alone: bool, rest: string)
    requires |fields| >= 2
    requires ParseRecord(Join(EncodeAll(fields[1..], alone), ',') + "\n" + rest) == Some((fields[1..], rest))
    ensures ParseRecord(Join(EncodeAll(fields, alone), ',') + "\n" + rest) == Some((fields, rest))
  {
    var tail := Join(EncodeAll(fields[1..], alone), ',') + "\n" + rest;
    JoinedHead(fields, alone, rest);
    ParseEncodedField(fields[0], alone, [','] + tail);
    ParseRecordNext(Join(EncodeAll(fields, alone), ',') + "\n" + rest, fields[0], tail, fields[1..], rest);
    assert fields == [fields[0]] + fields[1..];
  }

  /** A written line of two or more fields is its first field, a comma and
      the line of the others. */
  lemma JoinedHead(fields: seq<string>, alone: bool, rest: string)
    requires |fields| >= 2
    ensures Join(EncodeAll(fields, alone), ',') + "\n" + rest
      == EncodeField(fields[0], alone) + ([','] + (Join(EncodeAll(fields[1..], alone), ',') + "\n" + rest))
  {
    var enc := EncodeAll(fields, alone);
    assert enc[0] == EncodeField(fields[0], alone);
    assert enc[1..] == EncodeAll(fields[1..], alone);
    assert Join(enc, ',') == enc[0] + [','] + Join(enc[1..], ',');
    Regroup(enc[0], Join(enc[1..], ','), rest);
  }

  lemma Regroup(a: string, b: string, rest: string)
    ensures a + [','] + b + "\n" + rest == a + ([','] + (b + "\n" + rest))
  {
  }

  /** A field followed by a comma continues the record. */
  lemma ParseRecordNext(s: string, field: string, tail: string, fields: seq<string>, rest: string)
    requires ParseField(s) == Some((field, [','] + tail)) && ParseRecord(tail) == Some((fields, rest))
    ensures ParseRecord(s) == Some(([field] + fields, rest))
  {
    assert ([','] + tail)[1..] == tail;
  }

  /** Reading a written line gives its fields back, whatever follows it. */
  lemma ParseLine(fields: seq<string>, rest: string)
    requires |fields| >= 1
    ensures ParseRecord(Line(fields) + rest) == Some((fields, rest))
  {
    ParseJoined(fields, |fields| == 1, rest);
  }

  /** Round trip of the writer: reading the lines of non-empty rows gives
      the rows back, in order. */
  lemma {:induction false} ParseLines(records: seq<seq<string>>)
    requires forall i :: 0 <= i < |records| ==> |records[i]| >= 1
    ensures ParseRecords(Concat(Lines(records))) == Some(records)
    decreases |records|
  {
    if records != [] {
      var rest := records[1..];
      var text := Concat(Lines(rest));
      ParseLines(rest);
      assert records == [records[0]] + rest;
      LinesCons(records[0], rest);
      ParseLine(records[0], text);
      ParseRecordsCons(Line(records[0]) + text, records[0], text, rest);
    }
  }

  /** A text that starts with a record reads as that record followed by
      the records of the remaining text. */
  lemma ParseRecordsCons(s: string, fields: seq<string>, rest: string, records: seq<seq<string>>)
    requires ParseRecord(s) == Some((fields, rest))
    requires ParseRecords(rest) == Some(records)
    ensures ParseRecords(s) == Some([fields] + records)
  {
    assert s != [];
  }

  lemma LinesCons(first: seq<string>, records: seq<seq<string>>)
    ensures Concat(Lines([first] + records)) == Line(first) + Concat(Lines(records))
  {
    assert Lines([first] + records) == [Line(first)] + Lines(records);
    ConcatCons(Line(first), Lines(records));
  }

  /** The text of a commit is the lines of its header (when written) and
      its rows. */
  lemma CommitTextLines(rows: seq<Row>, headers: seq<string>, writeHeaders: bool, render: Value -> string)
    ensures CommitText(rows, headers, writeHeaders, render)
      == Concat(Lines((if writeHeaders then [headers] else []) + Records(rows, render)))
  {
    var records := Records(rows, render);
    var body := Concat(Lines(records));
    assert CommitText(rows, headers, writeHeaders, render) == (if writeHeaders then Line(headers) else "") + body;
    if writeHeaders {
      LinesCons(headers, records);
    } else {
      assert [] + records == records;
    }
  }

  /** What one commit appends reads back as the header (when written)
      followed by the rows' cells. */
  lemma CommitRoundTrip(rows: seq<Row>, headers: seq<string>, writeHeaders: bool, render: Value -> string)
    requires |headers| >= 1
    requires forall i :: 0 <= i < |rows| ==> |rows[i]| >= 1
    ensures ParseRecords(CommitText(rows, headers, writeHeaders, render))
      == Some((if writeHeaders then [headers] else []) + Records(rows, render))
  {
    var front: seq<seq<string>> := if writeHeaders then [headers] else [];
    var records := Records(rows, render);
    var all := front + records;
    CommitTextLines(rows, headers, writeHeaders, render);
    forall i | 0 <= i < |all|
      ensures |all[i]| >= 1
    {
      if i < |front| {
        assert all[i] == headers;
      } else {
        assert all[i] == records[i - |front|] == Cells(rows[i - |front|], render);
      }
    }
    ParseLines(all);
  }
}
