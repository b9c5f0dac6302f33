/// The extraction loops `extract_places` and `extract_artists`: each row
/// built from a query result is fingerprinted by `_hash_datum`, a row whose
/// fingerprint was seen before is skipped, and accepted rows are written
/// out in batches through `_commit_results`.
module Extractor {
  import opened Json
  import opened Collections
  import opened Fingerprint
  import opened Csv
  import Places
  import Artists

  /** `PREFTECH_COUNT`, the cursor's prefetch size. */
  const PrefetchCount: nat := 10000

  /** A batch is written as soon as it holds more than this many rows. */
  const FlushThreshold: nat := PrefetchCount * 5

  /** The size of every batch written inside the loop. */
  const BatchSize: nat := FlushThreshold + 1

  // What the loops compute, as functions of the rows offered.

  /** The rows kept so far (`results` across all batches) and the hashes
      seen (`datum_hashes`). */
  datatype Accepted = Accepted(rows: seq<Row>, hashes: seq<string>)

  /** `_hash_datum` as a function value, `md5` standing for MD5. */
  function HashOf(md5: string -> string): Row -> Result<string>
  {
    row => Hash(row, md5)
  }

  /** The rows the loop keeps from `datums`, each as `_hash_datum` left it,
      with the hashes seen; or the error of the first datum whose hash
      raises. The hash is a parameter so that these facts hold for any
      fingerprint; the extractor uses `HashOf(md5)`. */
  function Dedup(datums: seq<Row>, hash: Row -> Result<string>): (r: Result<Accepted>)
    ensures r.Ok? ==> |r.value.rows| == |r.value.hashes| <= |datums|
  {
    if datums == [] then Ok(Accepted([], []))
    else
      var acc :- Dedup(datums[..|datums| - 1], hash);
      var datum := datums[|datums| - 1];
      var h :- hash(datum);
      if h in acc.hashes then Ok(acc)
      else Ok(Accepted(acc.rows + [Canonical(datum)], acc.hashes + [h]))
  }

  /** One more datum: skipped when its hash was seen, appended otherwise. */
  lemma DedupSnoc(datums: seq<Row>, datum: Row, hash: Row -> Result<string>)
    ensures Dedup(datums + [datum], hash) ==
      match Dedup(datums, hash)
      case Err(e) => Err(e)
      case Ok(acc) =>
        match hash(datum)
        case Err(e) => Err(e)
        case Ok(h) =>
          if h in acc.hashes then Ok(acc)
          else Ok(Accepted(acc.rows + [Canonical(datum)], acc.hashes + [h]))
  {
    assert (datums + [datum])[..|datums|] == datums;
  }

  /** The loop gets through `datums` exactly when no hash raises. */
  lemma {:induction false} DedupOk(datums: seq<Row>, hash: Row -> Result<string>)
    ensures Dedup(datums, hash).Ok? <==> forall j :: 0 <= j < |datums| ==> hash(datums[j]).Ok?
    decreases |datums|
  {
    if datums != [] {
      var n := |datums| - 1;
      DedupOk(datums[..n], hash);
      assert forall j :: 0 <= j < n ==> datums[..n][j] == datums[j];
    }
  }

  /** The rewrite does not change the hash. */
  lemma HashCanonical(md5: string -> string)
    ensures forall row :: HashOf(md5)(Canonical(row)) == HashOf(md5)(row)
  {
    forall row
      ensures Hash(Canonical(row), md5) == Hash(row, md5)
    {
      FlattenCanonical(row);
      FlattenCanonical(Canonical(row));
      CanonicalIdempotent(row);
    }
  }

  /** For a fingerprint the rewrite does not change, the seen hashes are
      distinct; the i-th is the hash of the i-th kept row, which is
      already rewritten; and every datum offered has its hash among them. */
  lemma {:induction false} DedupHashes(datums: seq<Row>, hash: Row -> Result<string>)
    requires forall row :: hash(Canonical(row)) == hash(row)
    requires Dedup(datums, hash).Ok?
    ensures Distinct(Dedup(datums, hash).value.hashes)
    ensures forall i :: 0 <= i < |Dedup(datums, hash).value.rows| ==>
      var row := Dedup(datums, hash).value.rows[i];
      row == Canonical(row) && hash(row) == Ok(Dedup(datums, hash).value.hashes[i])
    ensures forall j :: 0 <= j < |datums| ==>
      hash(datums[j]).Ok? && hash(datums[j]).value in Dedup(datums, hash).value.hashes
    decreases |datums|
  {
    if datums != [] {
      var n := |datums| - 1;
      var init, datum := datums[..n], datums[n];
      assert init + [datum] == datums;
      DedupSnoc(init, datum, hash);
      DedupHashes(init, hash);
      var acc, r := Dedup(init, hash).value, Dedup(datums, hash).value;
      var h := hash(datum).value;
      if h !in acc.hashes {
        CanonicalIdempotent(datum);
        assert hash(Canonical(datum)) == Ok(h);
        assert r == Accepted(acc.rows + [Canonical(datum)], acc.hashes + [h]);
      }
      forall j | 0 <= j < |datums|
        ensures hash(datums[j]).Ok? && hash(datums[j]).value in r.hashes
      {
        if j < n {
          assert init[j] == datums[j];
        }
      }
    }
  }

  /** Each kept row is the rewrite of a datum offered. */
  lemma {:induction false} DedupKeepsOffered(datums: seq<Row>, hash: Row -> Result<string>)
    requires Dedup(datums, hash).Ok?
    ensures forall i :: 0 <= i < |Dedup(datums, hash).value.rows| ==>
      exists j :: 0 <= j < |datums| && Dedup(datums, hash).value.rows[i] == Canonical(datums[j])
    decreases |datums|
  {
    if datums != [] {
      var n := |datums| - 1;
      var init, datum := datums[..n], datums[n];
      assert init + [datum] == datums;
      DedupSnoc(init, datum, hash);
      DedupKeepsOffered(init, hash);
      var acc, r := Dedup(init, hash).value, Dedup(datums, hash).value;
      assert r.rows == acc.rows || r.rows == acc.rows + [Canonical(datum)];
      forall i | 0 <= i < |r.rows|
        ensures exists j :: 0 <= j < |datums| && r.rows[i] == Canonical(datums[j])
      {
        if i < |acc.rows| {
          var j :| 0 <= j < n && acc.rows[i] == Canonical(init[j]);
          assert r.rows[i] == acc.rows[i] && init[j] == datums[j];
        } else {
          assert r.rows[i] == Canonical(datums[n]);
        }
      }
    }
  }

  /** A datum whose hash was already seen leaves the state as it was. */
  lemma SeenIsSkipped(datums: seq<Row>, datum: Row, hash: Row -> Result<string>)
    requires Dedup(datums, hash).Ok? && hash(datum).Ok?
    requires hash(datum).value in Dedup(datums, hash).value.hashes
    ensures Dedup(datums + [datum], hash) == Dedup(datums, hash)
  {
    DedupSnoc(datums, datum, hash);
  }

  /** Offering the same datum twice in a row keeps it at most once. */
  lemma RepeatIsSkipped(datums: seq<Row>, datum: Row, hash: Row -> Result<string>)
    ensures Dedup(datums + [datum, datum], hash) == Dedup(datums + [datum], hash)
  {
    assert datums + [datum, datum] == (datums + [datum]) + [datum];
    DedupSnoc(datums, datum, hash);
    DedupSnoc(datums + [datum], datum, hash);
  }

  /** A datum holding the fields of an earlier one in another order is
      skipped: `_hash_datum` ignores field order. */
  lemma ReorderedIsSkipped(datums: seq<Row>, earlier: Row, later: Row, md5: string -> string)
    requires Dedup(datums + [earlier], HashOf(md5)).Ok?
    requires multiset(later) == multiset(earlier)
    ensures Dedup(datums + [earlier] + [later], HashOf(md5)) == Dedup(datums + [earlier], HashOf(md5))
  {
    KeyFieldPermutation(later, earlier);
    assert HashOf(md5)(later) == HashOf(md5)(earlier);
    DedupSnoc(datums, earlier, HashOf(md5));
    DedupSnoc(datums + [earlier], later, HashOf(md5));
  }

  // How the kept rows are cut into batches and written.

  /** The batches written inside the loop: every full run of `BatchSize`
      rows, in order. */
  function Chunks(rows: seq<Row>): (r: seq<seq<Row>>)
    ensures forall i :: 0 <= i < |r| ==> |r[i]| == BatchSize
    ensures |rows| > FlushThreshold <==> r != []
    decreases |rows|
  {
    if |rows| > FlushThreshold then [rows[..BatchSize]] + Chunks(rows[BatchSize..]) else []
  }

  /** The rows still in `results` when the loop ends. */
  function Leftover(rows: seq<Row>): (r: seq<Row>)
    ensures |r| <= FlushThreshold
    decreases |rows|
  {
    if |rows| > FlushThreshold then Leftover(rows[BatchSize..]) else rows
  }

  /** The batches and the leftover are the kept rows, cut up. */
  lemma {:induction false} ChunksLeftover(rows: seq<Row>)
    ensures Concat(Chunks(rows)) + Leftover(rows) == rows
    decreases |rows|
  {
    if |rows| > FlushThreshold {
      var head, tail := rows[..BatchSize], rows[BatchSize..];
      assert Chunks(rows) == [head] + Chunks(tail);
      assert Leftover(rows) == Leftover(tail);
      ChunksLeftover(tail);
      ConcatCons(head, Chunks(tail));
      assert Concat(Chunks(rows)) + Leftover(rows) == head + (Concat(Chunks(tail)) + Leftover(tail));
      assert head + tail == rows;
    } else {
      assert Chunks(rows) == [] && Leftover(rows) == rows;
    }
  }

  /** Full batches followed by fewer than a batch's rows are cut back
      into exactly those batches and that rest. */
  lemma {:induction false} ChunksOf(batches: seq<seq<Row>>, rest: seq<Row>)
    requires forall i :: 0 <= i < |batches| ==> |batches[i]| == BatchSize
    requires |rest| <= FlushThreshold
    ensures Chunks(Concat(batches) + rest) == batches
    ensures Leftover(Concat(batches) + rest) == rest
    decreases |batches|
  {
    if batches != [] {
      var tail := batches[1..];
      ChunksOf(tail, rest);
      ConcatCons(batches[0], tail);
      assert batches == [batches[0]] + tail;
      var rows := Concat(batches) + rest;
      assert rows == batches[0] + (Concat(tail) + rest);
      assert rows[..BatchSize] == batches[0];
      assert rows[BatchSize..] == Concat(tail) + rest;
    }
  }

  /** The text the in-loop flushes of `batches` append: the first with the
      header line, the others without. */
  function FlushText(batches: seq<seq<Row>>, headers: seq<string>, render: Value -> string): string
  {
    if batches == [] then ""
    else
      var n := |batches| - 1;
      FlushText(batches[..n], headers, render) + CommitText(batches[n], headers, n == 0, render)
  }

  /** The text of the flush after the loop, which never has the header. */
  function FinalText(rest: seq<Row>, headers: seq<string>, render: Value -> string): string
  {
    if |rest| > 0 then CommitText(rest, headers, false, render) else ""
  }

  /** Everything a complete run appends to the output file. */
  function ExportText(rows: seq<Row>, headers: seq<string>, render: Value -> string): (r: string)
    ensures rows == [] ==> r == ""
  {
    FlushText(Chunks(rows), headers, render) + FinalText(Leftover(rows), headers, render)
  }

  /** With no more than `FlushThreshold` rows kept, nothing is flushed in
      the loop, and the final flush writes the rows without a header. */
  lemma NoHeaderWhenFew(rows: seq<Row>, headers: seq<string>, render: Value -> string)
    requires |rows| <= FlushThreshold
    ensures ExportText(rows, headers, render) == FinalText(rows, headers, render)
    ensures rows != [] ==> ExportText(rows, headers, render) == Concat(Lines(Records(rows, render)))
  {
    assert "" + FinalText(rows, headers, render) == FinalText(rows, headers, render);
    if rows != [] {
      CommitTextLines(rows, headers, false, render);
      assert [] + Records(rows, render) == Records(rows, render);
    }
  }

  lemma LinesAppend(a: seq<seq<string>>, b: seq<seq<string>>)
    ensures Lines(a + b) == Lines(a) + Lines(b)
  {
    assert forall i :: 0 <= i < |a + b| ==> Lines(a + b)[i] == (Lines(a) + Lines(b))[i];
  }

  lemma RecordsAppend(a: seq<Row>, b: seq<Row>, render: Value -> string)
    ensures Records(a + b, render) == Records(a, render) + Records(b, render)
  {
    assert forall i :: 0 <= i < |a + b| ==> Records(a + b, render)[i] == (Records(a, render) + Records(b, render))[i];
  }

  /** The header (when a batch was flushed) and the rows of the flushed
      batches, as lines. */
  function FlushedRecords(batches: seq<seq<Row>>, headers: seq<string>, render: Value -> string): seq<seq<string>>
  {
    (if batches == [] then [] else [headers]) + Records(Concat(batches), render)
  }

  lemma {:induction false} FlushTextLines(batches: seq<seq<Row>>, headers: seq<string>, render: Value -> string)
    ensures FlushText(batches, headers, render) == Concat(Lines(FlushedRecords(batches, headers, render)))
    decreases |batches|
  {
    if batches != [] {
      var n := |batches| - 1;
      assert batches == batches[..n] + [batches[n]];
      if n == 0 {
        FlushTextOne(batches[n], headers, render);
      } else {
        FlushTextLines(batches[..n], headers, render);
        FlushTextSnoc(batches[..n], batches[n], headers, render);
      }
    }
  }

  lemma FlushTextOne(b: seq<Row>, headers: seq<string>, render: Value -> string)
    ensures FlushText([b], headers, render) == Concat(Lines(FlushedRecords([b], headers, render)))
  {
    assert [b][..0] == [];
    assert FlushText([b], headers, render) == "" + CommitText(b, headers, true, render);
    assert Concat([b]) == b;
    CommitTextLines(b, headers, true, render);
  }

  /** The lines of the flushed batches grow by the lines of the next batch,
      without a header. */
  lemma FlushTextSnoc(bs: seq<seq<Row>>, b: seq<Row>, headers: seq<string>, render: Value -> string)
    requires bs != []
    requires FlushText(bs, headers, render) == Concat(Lines(FlushedRecords(bs, headers, render)))
    ensures FlushText(bs + [b], headers, render) == Concat(Lines(FlushedRecords(bs + [b], headers, render)))
  {
    var head := FlushedRecords(bs, headers, render);
    var tail := Records(b, render);
    assert (bs + [b])[..|bs|] == bs;
    assert FlushText(bs + [b], headers, render) == FlushText(bs, headers, render) + CommitText(b, headers, false, render);
    CommitTextLines(b, headers, false, render);
    assert [] + tail == tail;
    ConcatAppend(Lines(head), Lines(tail));
    LinesAppend(head, tail);
    FlushedRecordsSnoc(bs, b, headers, render);
  }

  lemma FlushedRecordsSnoc(bs: seq<seq<Row>>, b: seq<Row>, headers: seq<string>, render: Value -> string)
    requires bs != []
    ensures FlushedRecords(bs + [b], headers, render) == FlushedRecords(bs, headers, render) + Records(b, render)
  {
    assert (bs + [b])[..|bs|] == bs;
    assert Concat(bs + [b]) == Concat(bs) + b;
    RecordsAppend(Concat(bs), b, render);
  }

  lemma FinalTextLines(rest: seq<Row>, headers: seq<string>, render: Value -> string)
    ensures FinalText(rest, headers, render) == Concat(Lines(Records(rest, render)))
  {
    if rest != [] {
      CommitTextLines(rest, headers, false, render);
      assert [] + Records(rest, render) == Records(rest, render);
    }
  }

  lemma RecordsOfCut(rows: seq<Row>, render: Value -> string)
    ensures Records(Concat(Chunks(rows)), render) + Records(Leftover(rows), render) == Records(rows, render)
  {
    ChunksLeftover(rows);
    RecordsAppend(Concat(Chunks(rows)), Leftover(rows), render);
  }

  /** The header precedes the rows exactly when some batch was flushed
      inside the loop. */
  lemma ExportedRecords(rows: seq<Row>, headers: seq<string>, render: Value -> string)
    ensures FlushedRecords(Chunks(rows), headers, render) + Records(Leftover(rows), render)
      == (if |rows| > FlushThreshold then [headers] else []) + Records(rows, render)
  {
    var batches := Chunks(rows);
    RecordsOfCut(rows, render);
    assert batches != [] <==> |rows| > FlushThreshold;
    PrefixedCut(FlushedRecords(batches, headers, render), Records(Concat(batches), render),
                Records(Leftover(rows), render), Records(rows, render), headers, |rows| > FlushThreshold);
  }

  lemma PrefixedCut(front: seq<seq<string>>, flushed: seq<seq<string>>, rest: seq<seq<string>>,
                    all: seq<seq<string>>, headers: seq<string>, some: bool)
    requires front == (if some then [headers] else []) + flushed && flushed + rest == all
    ensures front + rest == (if some then [headers] else []) + all
  {
  }

  /** Everything a complete run appends is the lines of the header, when
      more than `FlushThreshold` rows were kept, and of every kept row. */
  lemma ExportTextLines(rows: seq<Row>, headers: seq<string>, render: Value -> string)
    ensures ExportText(rows, headers, render)
      == Concat(Lines((if |rows| > FlushThreshold then [headers] else []) + Records(rows, render)))
  {
    var batches, rest := Chunks(rows), Leftover(rows);
    var head := FlushedRecords(batches, headers, render);
    FlushTextLines(batches, headers, render);
    FinalTextLines(rest, headers, render);
    ConcatAppend(Lines(head), Lines(Records(rest, render)));
    LinesAppend(head, Records(rest, render));
    ExportedRecords(rows, headers, render);
  }

  /** Reading back what a complete run appends gives the header line when
      more than `FlushThreshold` rows were kept, and then every kept row,
      in order. */
  lemma ExportRoundTrip(rows: seq<Row>, headers: seq<string>, render: Value -> string)
    requires |headers| >= 1
    requires forall i :: 0 <= i < |rows| ==> |rows[i]| >= 1
    ensures ParseRecords(ExportText(rows, headers, render))
      == Some((if |rows| > FlushThreshold then [headers] else []) + Records(rows, render))
  {
    var head := if |rows| > FlushThreshold then [headers] else [];
    ExportTextLines(rows, headers, render);
    RecordsNotEmpty(head, rows, render);
    ParseLines(head + Records(rows, render));
  }

  lemma RecordsNotEmpty(head: seq<seq<string>>, rows: seq<Row>, render: Value -> string)
    requires forall i :: 0 <= i < |head| ==> |head[i]| >= 1
    requires forall i :: 0 <= i < |rows| ==> |rows[i]| >= 1
    ensures forall i :: 0 <= i < |head + Records(rows, render)| ==> |(head + Records(rows, render))[i]| >= 1
  {
    var all := head + Records(rows, render);
    forall i | 0 <= i < |all|
      ensures |all[i]| >= 1
    {
      if i >= |head| {
        assert all[i] == Cells(rows[i - |head|], render);
      }
    }
  }

  /** The state after one more datum whose hash is `h`. */
  lemma DedupStep(datums: seq<Row>, datum: Row, hash: Row -> Result<string>, rows: seq<Row>, hashes: seq<string>, h: string)
    requires Dedup(datums, hash) == Ok(Accepted(rows, hashes))
    requires hash(datum) == Ok(h)
    ensures h in hashes ==> Dedup(datums + [datum], hash) == Ok(Accepted(rows, hashes))
    ensures h !in hashes ==> Dedup(datums + [datum], hash) == Ok(Accepted(rows + [Canonical(datum)], hashes + [h]))
  {
    DedupSnoc(datums, datum, hash);
  }

  /** The text of `_commit_results` for a batch and the header flag, as a
      function value. */
  function CommitOf(headers: seq<string>, render: Value -> string): (seq<Row>, bool) -> string {
    (rows, writeHeaders) => CommitText(rows, headers, writeHeaders, render)
  }

  /** `commit` gives the text of `_commit_results` with `headers` and
      `render`, for every batch and header flag. */
  ghost predicate Commits(commit: (seq<Row>, bool) -> string, headers: seq<string>, render: Value -> string) {
    forall rows, writeHeaders {:trigger CommitText(rows, headers, writeHeaders, render)} ::
      commit(rows, writeHeaders) == CommitText(rows, headers, writeHeaders, render)
  }

  /** The text of the in-loop flushes of `batches`, each written by
      `commit`; the header flag is set for the first batch only. */
  function FlushedBy(batches: seq<seq<Row>>, commit: (seq<Row>, bool) -> string): string
  {
    if batches == [] then ""
    else
      var n := |batches| - 1;
      FlushedBy(batches[..n], commit) + commit(batches[n], n == 0)
  }

  lemma {:induction false} FlushedByCommit(batches: seq<seq<Row>>, commit: (seq<Row>, bool) -> string,
                                           headers: seq<string>, render: Value -> string)
    requires Commits(commit, headers, render)
    ensures FlushedBy(batches, commit) == FlushText(batches, headers, render)
    decreases |batches|
  {
    if batches != [] {
      FlushedByCommit(batches[..|batches| - 1], commit, headers, render);
    }
  }

  /** Flushing one more batch appends its commit text, with the header
      only when it is the first. */
  lemma FlushStep(batches: seq<seq<Row>>, batch: seq<Row>, commit: (seq<Row>, bool) -> string)
    ensures FlushedBy(batches + [batch], commit) == FlushedBy(batches, commit) + commit(batch, batches == [])
    ensures Concat(batches + [batch]) == Concat(batches) + batch
  {
    assert (batches + [batch])[..|batches|] == batches;
  }

  /** One commit inside the loop, as `commit` gives it. */
  method CommitBatch(ghost commit: (seq<Row>, bool) -> string, results: seq<Row>, headers: seq<string>,
                     firstWrite: bool, render: Value -> string)
    returns (text: string)
    requires Commits(commit, headers, render)
    ensures text == commit(results, firstWrite)
  {
    text := CommitResults(results, headers, firstWrite, render);
  }

  /** The flush after the loop completes the text of a full run. */
  lemma FinishText(batches: seq<seq<Row>>, rest: seq<Row>, commit: (seq<Row>, bool) -> string,
                   headers: seq<string>, render: Value -> string, text: string)
    requires Commits(commit, headers, render)
    requires forall i :: 0 <= i < |batches| ==> |batches[i]| == BatchSize
    requires |rest| <= FlushThreshold
    requires text == if |rest| > 0 then commit(rest, false) else ""
    ensures FlushedBy(batches, commit) + text == ExportText(Concat(batches) + rest, headers, render)
  {
    ChunksOf(batches, rest);
    FlushedByCommit(batches, commit, headers, render);
    if |rest| > 0 {
      assert FinalText(rest, headers, render) == CommitText(rest, headers, false, render);
    }
  }

  // The loop's state, updated in place row by row.

  /** The variables of one extraction loop: the hashes seen, the batch
      being filled, whether the header is still to be written, and the
      text appended to the output file so far. */
  class Extraction {
    const headers: seq<string>
    const md5: string -> string
    const render: Value -> string
    /** `_hash_datum` as a function value: `HashOf(md5)`. */
    ghost const hash: Row -> Result<string>
    /** `_commit_results` with this run's headers and writer. */
    ghost const commit: (seq<Row>, bool) -> string
    var datumHashes: seq<string>
    var results: seq<Row>
    var firstWrite: bool
    var file: string
    /** The datums offered so far. */
    ghost var offered: seq<Row>
    /** Every row kept so far, flushed or not. */
    ghost var kept: seq<Row>
    /** The batches flushed inside the loop. */
    ghost var batches: seq<seq<Row>>

    ghost predicate Valid()
      reads this
    {
      && Dedup(offered, hash) == Ok(Accepted(kept, datumHashes))
      && kept == Concat(batches) + results
      && |results| <= FlushThreshold
      && (forall i :: 0 <= i < |batches| ==> |batches[i]| == BatchSize)
      && (firstWrite <==> batches == [])
      && file == FlushedBy(batches, commit)
    }

    constructor (headers: seq<string>, md5: string -> string, render: Value -> string)
      ensures Valid()
      ensures this.headers == headers && this.md5 == md5 && this.render == render
      ensures hash == HashOf(md5) && Commits(commit, headers, render)
      ensures offered == [] && kept == [] && file == ""
    {
      this.headers := headers;
      this.md5 := md5;
      this.render := render;
      hash := HashOf(md5);
      commit := CommitOf(headers, render);
      datumHashes := [];
      results := [];
      firstWrite := true;
      file := "";
      offered := [];
      kept := [];
      batches := [];
    }

    /** The body of the loop from `_hash_datum` on: hash the datum, skip it
        when the hash was seen, else keep it and flush once the batch has
        more than `FlushThreshold` rows, with the header on the first
        flush. Answers whether the datum was kept. */
    method Step(datum: Row) returns (r: Result<bool>)
      requires Valid() && hash == HashOf(md5) && Commits(commit, headers, render)
      modifies this
      ensures Valid()
      ensures r.Ok? <==> Hash(datum, md5).Ok?
      ensures r.Ok? ==> r.value == (Hash(datum, md5).value !in old(datumHashes))
      ensures r.Ok? ==> offered == old(offered) + [datum]
      ensures r.Ok? ==> datumHashes == old(datumHashes) + (if r.value then [Hash(datum, md5).value] else [])
      ensures r.Ok? ==> kept == old(kept) + (if r.value then [Canonical(datum)] else [])
      ensures r.Err? ==> datumHashes == old(datumHashes)
      ensures r.Err? ==> r == Err(TypeError) && offered == old(offered) && kept == old(kept)
      ensures r.Err? ==> batches == old(batches) && file == old(file)
    {
      var a := new Value[|datum|](i requires 0 <= i < |datum| => datum[i]);
      assert a[..] == datum;
      var h := HashDatum(a, md5);
      if h.Err? {
        return Err(h.error);
      }
      assert hash(datum) == h;
      var isNew := Offer(datum, a[..], h.value);
      return Ok(isNew);
    }

    /** The datum with hash `h` and rewritten form `row`: skipped when `h`
        was seen, else kept. */
    method Offer(datum: Row, row: Row, h: string) returns (isNew: bool)
      requires Valid() && hash(datum) == Ok(h) && row == Canonical(datum) && Commits(commit, headers, render)
      modifies this
      ensures Valid()
      ensures isNew == (h !in old(datumHashes))
      ensures offered == old(offered) + [datum]
      ensures datumHashes == old(datumHashes) + (if isNew then [h] else [])
      ensures kept == old(kept) + (if isNew then [row] else [])
    {
      DedupStep(offered, datum, hash, kept, datumHashes, h);
      if h in datumHashes {
        offered := offered + [datum];
        return false;
      }
      Keep(datum, row, h);
      return true;
    }

    /** `h` and `row` are appended, and a batch of more than
        `FlushThreshold` rows is written and emptied. */
    method Keep(datum: Row, row: Row, h: string)
      requires Valid() && h !in datumHashes && Commits(commit, headers, render)
      requires Dedup(offered + [datum], hash) == Ok(Accepted(kept + [row], datumHashes + [h]))
      modifies this
      ensures Valid()
      ensures offered == old(offered) + [datum] && datumHashes == old(datumHashes) + [h] && kept == old(kept) + [row]
    {
      offered := offered + [datum];
      datumHashes := datumHashes + [h];
      results := results + [row];
      kept := kept + [row];
      assert kept == Concat(batches) + results;
      if |results| > FlushThreshold {
        Flush();
      }
    }

    /** The flush inside the loop: the full batch is written, with the
        header the first time, and `results` starts over. */
    method Flush()
      requires |results| == BatchSize && Commits(commit, headers, render)
      requires forall i :: 0 <= i < |batches| ==> |batches[i]| == BatchSize
      requires (firstWrite <==> batches == []) && file == FlushedBy(batches, commit)
      modifies this
      ensures batches == old(batches) + [old(results)] && results == [] && !firstWrite
      ensures forall i :: 0 <= i < |batches| ==> |batches[i]| == BatchSize
      ensures file == FlushedBy(batches, commit)
      ensures Concat(batches) + results == Concat(old(batches)) + old(results)
      ensures offered == old(offered) && kept == old(kept) && datumHashes == old(datumHashes)
    {
      // The header goes with the first flush only.
      var text := CommitBatch(commit, results, headers, firstWrite, render);
      FlushStep(batches, results, commit);
      ghost var flushed := batches + [results];
      assert forall i :: 0 <= i < |flushed| ==> |flushed[i]| == BatchSize;
      assert file + text == FlushedBy(flushed, commit);
      firstWrite := false;
      file := file + text;
      batches := flushed;
      results := [];
    }

    /** The flush after the loop: the remaining rows, never with the
        header. The file then holds everything the run appends. */
    method Finish() returns (out: Outcome)
      requires Valid() && Commits(commit, headers, render)
      modifies this
      ensures offered == old(offered) && kept == old(kept)
      ensures out == Outcome(ExportText(kept, headers, render), None)
    {
      var text := "";
      if |results| > 0 {
        text := CommitBatch(commit, results, headers, false, render);
      }
      FinishText(batches, results, commit, headers, render, text);
      file := file + text;
      results := [];
      return Outcome(file, None);
    }

    /** An exception ends the run: the file keeps the batches already
        flushed, and the rows still in `results` are lost. */
    method Abort(error: Error) returns (out: Outcome)
      requires Valid() && Commits(commit, headers, render)
      ensures out == Outcome(FlushText(Chunks(kept), headers, render), Some(error))
    {
      ChunksOf(batches, results);
      FlushedByCommit(batches, commit, headers, render);
      return Outcome(file, Some(error));
    }
  }

  /** How a run ends: the text appended to the output file, and the
      exception that stopped it, if any. */
  datatype Outcome = Outcome(file: string, error: Option<Error>)

  // The two drivers.

  /** `built(items[i], rows[i])` for every row so far. */
  ghost predicate BuiltBy(items: seq<Value>, rows: seq<Row>, built: (Value, Row) -> bool)
    decreases |rows|
  {
    && |rows| <= |items|
    && (rows != [] ==>
      var n := |rows| - 1;
      BuiltBy(items, rows[..n], built) && built(items[n], rows[n]))
  }

  lemma {:induction false} BuiltByAt(items: seq<Value>, rows: seq<Row>, built: (Value, Row) -> bool)
    requires BuiltBy(items, rows, built)
    ensures |rows| <= |items|
    ensures forall i :: 0 <= i < |rows| ==> built(items[i], rows[i])
    decreases |rows|
  {
    if rows != [] {
      var n := |rows| - 1;
      BuiltByAt(items, rows[..n], built);
      assert forall i :: 0 <= i < n ==> rows[..n][i] == rows[i];
    }
  }

  lemma BuiltBySnoc(items: seq<Value>, rows: seq<Row>, row: Row, built: (Value, Row) -> bool)
    requires BuiltBy(items, rows, built) && |rows| < |items|
    requires built(items[|rows|], row)
    ensures BuiltBy(items, rows + [row], built)
  {
    assert (rows + [row])[..|rows|] == rows;
  }

  /** `row` is the row `extract_places` builds from `item`. */
  ghost predicate PlaceBuilt(item: Value, row: Row) {
    Places.PlaceRow(item) == Ok(row)
  }

  /** `row` is a row `extract_artists` may build from `item`: the set-valued
      columns in any order. */
  ghost predicate ArtistBuilt(item: Value, row: Row) {
    Artists.ArtistFieldsOf(item).Ok? && Artists.IsArtistRow(row, Artists.ArtistFieldsOf(item).value)
  }

  /** `extract_places` over the JSON objects the cursor yields. `rows` are
      the rows built before the run stopped. */
  method ExtractPlaces(items: seq<Value>, md5: string -> string, render: Value -> string)
    returns (out: Outcome, ghost rows: seq<Row>)
    ensures BuiltBy(items, rows, PlaceBuilt)
    ensures Dedup(rows, HashOf(md5)).Ok?
    ensures out.error.None? ==> |rows| == |items|
    ensures out.error.None? ==> out.file == ExportText(Dedup(rows, HashOf(md5)).value.rows, Places.Headers, render)
    ensures out.error.Some? ==> |rows| < |items|
    ensures out.error.Some? ==> out.file == FlushText(Chunks(Dedup(rows, HashOf(md5)).value.rows), Places.Headers, render)
    ensures out.error.Some? ==> var row := Places.PlaceRow(items[|rows|]);
      out.error == Some(if row.Err? then row.error else TypeError) && (row.Ok? ==> Hash(row.value, md5).Err?)
  {
    var e := new Extraction(Places.Headers, md5, render);
    rows := [];
    for k := 0 to |items|
      invariant e.Valid()
      invariant e.headers == Places.Headers && e.md5 == md5 && e.render == render && e.hash == HashOf(md5)
      invariant Commits(e.commit, e.headers, render)
      invariant e.offered == rows && |rows| == k
      invariant BuiltBy(items, rows, PlaceBuilt)
    {
      var row := Places.PlaceRow(items[k]);
      if row.Err? {
        out := e.Abort(row.error);
        return out, rows;
      }
      var kept := e.Step(row.value);
      if kept.Err? {
        out := e.Abort(kept.error);
        return out, rows;
      }
      BuiltBySnoc(items, rows, row.value, PlaceBuilt);
      rows := rows + [row.value];
    }
    out := e.Finish();
  }

  /** The row `extract_artists` builds from the next item. */
  method BuildArtist(items: seq<Value>, k: nat, ghost rows: seq<Row>) returns (r: Result<Row>)
    requires BuiltBy(items, rows, ArtistBuilt) && |rows| == k < |items|
    ensures r.Ok? ==> BuiltBy(items, rows + [r.value], ArtistBuilt)
    ensures r.Err? ==> Artists.ArtistFieldsOf(items[|rows|]) == Err(r.error)
    ensures r.Ok? ==> ArtistBuilt(items[|rows|], r.value)
  {
    r := Artists.ExtractArtistRow(items[k]);
    if r.Ok? {
      BuiltBySnoc(items, rows, r.value, ArtistBuilt);
    }
  }

  /** `extract_artists` over the JSON objects the cursor yields. `rows` are
      the rows built before the run stopped; their set-valued columns come
      in whatever order `list(set)` gives. When the run stops on a row that
      was built, `failed` is that row. */
  method ExtractArtists(items: seq<Value>, md5: string -> string, render: Value -> string)
    returns (out: Outcome, ghost rows: seq<Row>, ghost failed: Row)
    ensures BuiltBy(items, rows, ArtistBuilt)
    ensures Dedup(rows, HashOf(md5)).Ok?
    ensures out.error.None? ==> |rows| == |items|
    ensures out.error.None? ==> out.file == ExportText(Dedup(rows, HashOf(md5)).value.rows, Artists.Headers, render)
    ensures out.error.Some? ==> |rows| < |items|
    ensures out.error.Some? ==> out.file == FlushText(Chunks(Dedup(rows, HashOf(md5)).value.rows), Artists.Headers, render)
    ensures out.error.Some? ==> var fields := Artists.ArtistFieldsOf(items[|rows|]);
      out.error == Some(if fields.Err? then fields.error else TypeError)
    ensures out.error.Some? && Artists.ArtistFieldsOf(items[|rows|]).Ok? ==>
      ArtistBuilt(items[|rows|], failed) && Hash(failed, md5).Err?
  {
    failed := [];
    var e := new Extraction(Artists.Headers, md5, render);
    rows := [];
    for k := 0 to |items|
      invariant e.Valid()
      invariant e.headers == Artists.Headers && e.md5 == md5 && e.render == render && e.hash == HashOf(md5)
      invariant Commits(e.commit, e.headers, render)
      invariant e.offered == rows && |rows| == k
      invariant BuiltBy(items, rows, ArtistBuilt)
    {
      var row := BuildArtist(items, k, rows);
      if row.Err? {
        out := e.Abort(row.error);
        return out, rows, failed;
      }
      var kept := e.Step(row.value);
      if kept.Err? {
        out := e.Abort(kept.error);
        return out, rows, row.value;
      }
      rows := rows + [row.value];
    }
    out := e.Finish();
  }
}
