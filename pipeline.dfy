/** The ingest and flush loop of `main` (wrapper.py lines 97-145) as an object
    owning the device table and the flush timer. The scanner's lines arrive
    already parsed, each with the clock reading taken when it was read; the
    database sink is an oracle `ok` that says whether the write attempt with a
    given sequence number succeeds. */
module Pipeline {
  import opened PyValues
  import opened Points
  import opened Schema
  import opened DeviceTable
  import opened Settings

  /** One line of scanner output: what `json.loads` made of it (an object, or
      nothing for noise, malformed JSON or a non-object), and `time.monotonic()`
      sampled when it was read. */
  datatype Line = Line(parsed: Option<Record>, now: real)

  /** The records that appear among the lines. */
  ghost function Seen(lines: seq<Line>): set<Record> {
    set i | 0 <= i < |lines| && lines[i].parsed.Some? :: lines[i].parsed.value
  }

  /** The loop's state between lines: `latest_by_device` and `last_flush`. */
  datatype State = State(table: Table, timer: real)

  /** A line whose clock reading is at least `interval` after the last flush
      triggers a flush (line 123). */
  predicate Due(cfg: Config, s: State, line: Line) {
    line.now - s.timer >= cfg.interval
  }

  /** The table after the line is ingested, before the timer check. */
  function Ingested(cfg: Config, s: State, line: Line): Table {
    Upsert(s.table, line.parsed, cfg.keyField)
  }

  /** The line makes the loop print a "Flushed" report: a flush is due and the
      table it drains is not empty (line 124). */
  predicate Reports(cfg: Config, s: State, line: Line) {
    Due(cfg, s, line) && Ingested(cfg, s, line) != map[]
  }

  /** One pass of the loop body (lines 112-138) on the state: ingest, then clear
      the table and restart the timer when a flush is due. */
  function Advance(cfg: Config, s: State, line: Line): State {
    if Due(cfg, s, line) then State(map[], line.now) else State(Ingested(cfg, s, line), s.timer)
  }

  /** The states the loop passes through on `lines`: entry `i` is the state
      before line `i` is read, the last entry the state at end of input. */
  function Trace(cfg: Config, start: real, lines: seq<Line>): (t: seq<State>)
    ensures |t| == |lines| + 1
    ensures t[0] == State(map[], start)
    decreases |lines|
  {
    if lines == [] then [State(map[], start)]
    else
      var t := Trace(cfg, start, lines[..|lines| - 1]);
      t + [Advance(cfg, t[|t| - 1], lines[|lines| - 1])]
  }

  /** Each state of the trace is the previous one advanced by one line. */
  lemma {:induction false} TraceStep(cfg: Config, start: real, lines: seq<Line>, i: nat)
    requires i < |lines|
    ensures Trace(cfg, start, lines)[i + 1] == Advance(cfg, Trace(cfg, start, lines)[i], lines[i])
    decreases |lines|
  {
    var prefix := lines[..|lines| - 1];
    if i < |lines| - 1 {
      TraceStep(cfg, start, prefix, i);
      assert prefix[i] == lines[i];
    }
  }

  /** After a flush the table is empty and the timer holds the flushing line's
      clock reading, whatever the table held before. */
  lemma TraceAfterFlush(cfg: Config, start: real, lines: seq<Line>, i: nat)
    requires i < |lines| && Due(cfg, Trace(cfg, start, lines)[i], lines[i])
    ensures Trace(cfg, start, lines)[i + 1] == State(map[], lines[i].now)
  {
    TraceStep(cfg, start, lines, i);
  }

  /** `reports[j]` for each line `j` read so far: a report exactly when the line
      makes the loop print one, holding at most the number of devices flushed. */
  ghost predicate ReportsAgree(cfg: Config, start: real, lines: seq<Line>, reports: seq<Option<nat>>)
    requires |reports| <= |lines|
  {
    var t := Trace(cfg, start, lines);
    forall j :: 0 <= j < |reports| ==>
      && (reports[j].Some? <==> Reports(cfg, t[j], lines[j]))
      && (reports[j].Some? ==> reports[j].value <= |Ingested(cfg, t[j], lines[j])|)
  }

  lemma ReportsExtend(cfg: Config, start: real, lines: seq<Line>, reports: seq<Option<nat>>, r: Option<nat>)
    requires |reports| < |lines| && ReportsAgree(cfg, start, lines, reports)
    requires var s := Trace(cfg, start, lines)[|reports|];
      && (r.Some? <==> Reports(cfg, s, lines[|reports|]))
      && (r.Some? ==> r.value <= |Ingested(cfg, s, lines[|reports|])|)
    ensures ReportsAgree(cfg, start, lines, reports + [r])
  {
    var t := Trace(cfg, start, lines);
    var ext := reports + [r];
    forall j | 0 <= j < |ext|
      ensures ext[j].Some? <==> Reports(cfg, t[j], lines[j])
      ensures ext[j].Some? ==> ext[j].value <= |Ingested(cfg, t[j], lines[j])|
    {
      if j < |reports| {
        assert ext[j] == reports[j];
      } else {
        assert j == |reports| && ext[j] == r;
      }
    }
  }

  /** The writes made while line `j` is handled are the attempts `lo` to `hi - 1`:
      when a flush is due they are one per record of the ingested table, each
      once, and otherwise there are none; a report counts exactly the ones that
      succeed. */
  ghost predicate FlushWrites(cfg: Config, s: State, line: Line, ok: nat -> bool, origins: seq<Record>,
                              lo: nat, hi: nat, report: Option<nat>) {
    && lo <= hi <= |origins|
    && (Due(cfg, s, line) ==> Enumerates(origins[lo..hi], Ingested(cfg, s, line)))
    && (!Due(cfg, s, line) ==> hi == lo)
    && (report.Some? ==> report.value == CountOk(ok, lo, hi))
  }

  /** `cuts` splits the writes so far by the line that made them: the writes of
      line `j` are the attempts `cuts[j]` to `cuts[j + 1] - 1`. */
  ghost predicate WritesAgree(cfg: Config, start: real, lines: seq<Line>, ok: nat -> bool, origins: seq<Record>,
                              reports: seq<Option<nat>>, cuts: seq<nat>)
    requires |reports| <= |lines|
  {
    var t := Trace(cfg, start, lines);
    && |cuts| == |reports| + 1
    && cuts[|reports|] <= |origins|
    && forall j :: 0 <= j < |reports| ==> FlushWrites(cfg, t[j], lines[j], ok, origins, cuts[j], cuts[j + 1], reports[j])
  }

  /** Writing more points keeps the record of the earlier writes. */
  lemma WritesGrow(cfg: Config, start: real, lines: seq<Line>, ok: nat -> bool, before: seq<Record>, after: seq<Record>,
                   reports: seq<Option<nat>>, cuts: seq<nat>)
    requires |reports| <= |lines| && WritesAgree(cfg, start, lines, ok, before, reports, cuts)
    requires |before| <= |after| && after[..|before|] == before
    ensures WritesAgree(cfg, start, lines, ok, after, reports, cuts)
  {
    var t := Trace(cfg, start, lines);
    forall j | 0 <= j < |reports|
      ensures FlushWrites(cfg, t[j], lines[j], ok, after, cuts[j], cuts[j + 1], reports[j])
    {
      assert FlushWrites(cfg, t[j], lines[j], ok, before, cuts[j], cuts[j + 1], reports[j]);
      assert after[cuts[j]..cuts[j + 1]] == before[cuts[j]..cuts[j + 1]];
    }
  }

  /** The writes of one more line extend the record by one cut. */
  lemma WritesExtend(cfg: Config, start: real, lines: seq<Line>, ok: nat -> bool, before: seq<Record>, after: seq<Record>,
                     reports: seq<Option<nat>>, cuts: seq<nat>, r: Option<nat>)
    requires |reports| < |lines| && WritesAgree(cfg, start, lines, ok, before, reports, cuts)
    requires cuts[|reports|] == |before| && |before| <= |after| && after[..|before|] == before
    requires FlushWrites(cfg, Trace(cfg, start, lines)[|reports|], lines[|reports|], ok, after, |before|, |after|, r)
    ensures WritesAgree(cfg, start, lines, ok, after, reports + [r], cuts + [|after|])
  {
    WritesGrow(cfg, start, lines, ok, before, after, reports, cuts);
    var t := Trace(cfg, start, lines);
    var ext := reports + [r];
    var cs := cuts + [|after|];
    forall j | 0 <= j < |ext|
      ensures FlushWrites(cfg, t[j], lines[j], ok, after, cs[j], cs[j + 1], ext[j])
    {
      if j < |reports| {
        assert ext[j] == reports[j] && cs[j] == cuts[j] && cs[j + 1] == cuts[j + 1];
      } else {
        assert j == |reports| && ext[j] == r && cs[j] == |before| && cs[j + 1] == |after|;
      }
    }
  }

  /** The records of the last flush are the last entries of `origins`. */
  lemma TailEnumerates(origins: seq<Record>, before: seq<Record>, table: Table)
    requires |before| <= |origins| && |origins| == |before| + |table|
    requires Enumerates(origins[|before|..], table)
    ensures |table| <= |origins| && Enumerates(origins[|origins| - |table|..], table)
  {
  }

  /** Every record of `rs` is in `s`. */
  ghost predicate AllIn(rs: seq<Record>, s: set<Record>) {
    forall j :: 0 <= j < |rs| ==> rs[j] in s
  }

  lemma EnumeratedStayIn(origins: seq<Record>, before: seq<Record>, table: Table, s: set<Record>)
    requires |before| <= |origins| && origins[..|before|] == before
    requires Enumerates(origins[|before|..], table)
    requires AllIn(before, s) && table.Values <= s
    ensures AllIn(origins, s)
  {
    forall j | 0 <= j < |origins| ensures origins[j] in s {
      if j < |before| {
        assert origins[j] == origins[..|before|][j];
      } else {
        assert origins[j] == origins[|before|..][j - |before|];
      }
    }
  }

  lemma UpsertValues(t: Table, parsed: Option<Record>, keyField: string)
    ensures Upsert(t, parsed, keyField).Values <= t.Values + (if parsed.Some? then {parsed.value} else {})
  {
    var r := Upsert(t, parsed, keyField);
    forall v | v in r.Values ensures v in t.Values || (parsed.Some? && v == parsed.value) {
      var k :| k in r && r[k] == v;
    }
  }

  lemma AppendNext<T>(a: seq<T>, b: seq<T>, i: nat)
    requires i < |b|
    ensures a + b[..i + 1] == (a + b[..i]) + [b[i]]
  {
    assert b[..i + 1] == b[..i] + [b[i]];
  }

  lemma DropToEnd<T>(a: seq<T>, i: nat)
    requires i <= |a|
    ensures a[i..] == a[i..|a|]
  {
  }

  /** Every point handed to the writer was built by the tag/field schema from the
      record beside it, and that record has an identity. */
  ghost predicate Built(sent: seq<Point>, origins: seq<Record>, cfg: Config) {
    && |origins| == |sent|
    && (forall j :: 0 <= j < |sent| ==>
          KeyOf(origins[j], cfg.keyField).Some? && PointSchema(sent[j], origins[j], cfg.tagKeys, cfg.hdThreshold))
  }

  lemma BuiltAppend(sent: seq<Point>, origins: seq<Record>, cfg: Config, p: Point, d: Record)
    requires Built(sent, origins, cfg)
    requires KeyOf(d, cfg.keyField).Some? && PointSchema(p, d, cfg.tagKeys, cfg.hdThreshold)
    ensures Built(sent + [p], origins + [d], cfg)
  {
    forall j | 0 <= j < |sent| + 1
      ensures KeyOf((origins + [d])[j], cfg.keyField).Some?
      ensures PointSchema((sent + [p])[j], (origins + [d])[j], cfg.tagKeys, cfg.hdThreshold)
    {
      if j < |sent| {
        assert (sent + [p])[j] == sent[j] && (origins + [d])[j] == origins[j];
      }
    }
  }

  /** One flush appended exactly one point per record of `table`, and kept what
      was sent before. */
  ghost predicate FlushedTable(sent: seq<Point>, origins: seq<Record>, before: seq<Point>, beforeOrigins: seq<Record>, table: Table) {
    && |before| <= |sent| && sent[..|before|] == before
    && |beforeOrigins| <= |origins| && origins[..|beforeOrigins|] == beforeOrigins
    && |sent| == |before| + |table|
    && Enumerates(origins[|beforeOrigins|..], table)
  }

  class Gateway {
    const cfg: Config
    /** `latest_by_device` */
    var latest: Table
    /** `last_flush` */
    var lastFlush: real
    /** Every point handed to the database writer so far, in order; attempt `n`
        succeeded exactly if `ok(n)`. */
    var sent: seq<Point>
    /** The record each sent point was built from. */
    ghost var origins: seq<Record>

    /** The table holds each record under its own identity, and every point sent
        was built from a record that has one. */
    ghost predicate Valid()
      reads this`latest, this`sent, this`origins
    {
      Keyed(latest, cfg.keyField) && Built(sent, origins, cfg)
    }

    /** Lines 101-102: an empty table and the timer started at `start`. */
    constructor (cfg: Config, start: real)
      ensures Valid()
      ensures this.cfg == cfg && latest == map[] && lastFlush == start && sent == [] && origins == []
    {
      this.cfg := cfg;
      latest := map[];
      lastFlush := start;
      sent := [];
      origins := [];
    }

    /** Lines 114-121: store a parsed object under its identity. */
    method Ingest(parsed: Option<Record>)
      requires Valid()
      modifies this`latest
      ensures Valid()
      ensures latest == Upsert(old(latest), parsed, cfg.keyField)
    {
      UpsertKeepsKeyed(latest, parsed, cfg.keyField);
      latest := Upsert(latest, parsed, cfg.keyField);
    }

    /** `list(latest_by_device.values())`: every record of the table, each once. */
    method Snapshot() returns (batch: seq<Record>)
      requires Valid()
      ensures Enumerates(batch, latest)
    {
      batch := [];
      var rest := latest.Keys;
      while rest != {}
        invariant rest <= latest.Keys
        invariant |batch| + |rest| == |latest.Keys|
        invariant forall i :: 0 <= i < |batch| ==> batch[i] in latest.Values
        invariant forall k :: k in latest && k !in rest ==> latest[k] in batch
        invariant forall k :: k in rest ==> latest[k] !in batch
        invariant forall i, j :: 0 <= i < j < |batch| ==> batch[i] != batch[j]
        decreases |rest|
      {
        var k :| k in rest;
        forall k' | k' in rest && k' != k ensures latest[k'] != latest[k] {
          assert KeyOf(latest[k'], cfg.keyField) == Some(k');
        }
        batch := batch + [latest[k]];
        rest := rest - {k};
      }
      assert |latest.Keys| == |latest|;
    }

    /** `send_to_influx(d)` (lines 68-94): build the point for `d` and hand it to
        the writer, which is write attempt number `|sent|`; the outcome is the
        oracle's answer for it. */
    method Send(d: Record, ok: nat -> bool) returns (success: bool)
      requires Built(sent, origins, cfg) && KeyOf(d, cfg.keyField).Some?
      modifies this`sent, this`origins
      ensures Built(sent, origins, cfg)
      ensures |sent| == |old(sent)| + 1 && sent[..|old(sent)|] == old(sent)
      ensures PointSchema(sent[|old(sent)|], d, cfg.tagKeys, cfg.hdThreshold)
      ensures origins == old(origins) + [d]
      ensures success == ok(|old(sent)|)
    {
      var p := BuildPoint(d, cfg.tagKeys, cfg.hdThreshold);
      success := ok(|sent|);
      BuiltAppend(sent, origins, cfg, p, d);
      sent := sent + [p];
      origins := origins + [d];
    }

    /** Lines 128-134 (and 141-145, which drop the count): write one point per
        record, counting the writes that succeed; a failed write is skipped and
        the remaining records are still written. */
    method SendAll(batch: seq<Record>, ok: nat -> bool) returns (flushed: nat)
      requires Valid()
      requires forall i :: 0 <= i < |batch| ==> KeyOf(batch[i], cfg.keyField).Some?
      modifies this`sent, this`origins
      ensures Valid()
      ensures origins == old(origins) + batch
      ensures |sent| == |old(sent)| + |batch| && sent[..|old(sent)|] == old(sent)
      ensures flushed == CountOk(ok, |old(sent)|, |sent|)
    {
      flushed := 0;
      var i := 0;
      while i < |batch|
        invariant 0 <= i <= |batch|
        invariant Built(sent, origins, cfg)
        invariant origins == old(origins) + batch[..i]
        invariant |sent| == |old(sent)| + i && sent[..|old(sent)|] == old(sent)
        invariant flushed == CountOk(ok, |old(sent)|, |sent|)
      {
        CountOkStep(ok, |old(sent)|, |sent|);
        AppendNext(old(origins), batch, i);
        var success := Send(batch[i], ok);
        if success {
          flushed := flushed + 1;
        }
        i := i + 1;
      }
      assert batch[..i] == batch;
    }

    /** Lines 124-134: drain the table and write every record, returning how many
        writes succeeded. */
    method Flush(ok: nat -> bool) returns (flushed: nat)
      requires Valid()
      modifies this`latest, this`sent, this`origins
      ensures Valid()
      ensures latest == map[]
      ensures FlushedTable(sent, origins, old(sent), old(origins), old(latest))
      ensures flushed == CountOk(ok, |old(sent)|, |sent|)
    {
      var snapshot := Snapshot();
      forall i | 0 <= i < |snapshot| ensures KeyOf(snapshot[i], cfg.keyField).Some? {
        KeyedRecordsHaveIdentity(latest, cfg.keyField, snapshot[i]);
      }
      latest := map[];
      ghost var before := origins;
      flushed := SendAll(snapshot, ok);
      assert origins[|before|..] == snapshot;
    }

    /** Lines 123-138: once `interval` has elapsed since the last flush, flush the
        table, reporting the count of successful writes when it was not empty;
        the timer restarts either way. Before that, nothing changes. */
    method Tick(now: real, ok: nat -> bool) returns (report: Option<nat>)
      requires Valid()
      modifies this`latest, this`lastFlush, this`sent, this`origins
      ensures Valid()
      ensures now - old(lastFlush) < cfg.interval ==>
        && latest == old(latest) && lastFlush == old(lastFlush)
        && sent == old(sent) && origins == old(origins) && report == None
      ensures now - old(lastFlush) >= cfg.interval ==>
        && latest == map[] && lastFlush == now
        && FlushedTable(sent, origins, old(sent), old(origins), old(latest))
        && report == (if old(latest) == map[] then None else Some(CountOk(ok, |old(sent)|, |sent|)))
    {
      report := None;
      if now - lastFlush >= cfg.interval {
        if latest != map[] {
          var flushed := Flush(ok);
          report := Some(flushed);
        } else {
          assert origins[|origins|..] == [];
        }
        lastFlush := now;
      }
    }

    /** Lines 111-138 for one line: ingest it, then check the flush timer. The
        new table and timer are `Advance` of the old ones; a report is returned
        exactly when `Reports` holds, and it counts the writes of this flush that
        succeed. */
    method Step(line: Line, ok: nat -> bool) returns (report: Option<nat>)
      requires Valid()
      modifies this`latest, this`lastFlush, this`sent, this`origins
      ensures Valid()
      ensures State(latest, lastFlush) == Advance(cfg, old(State(latest, lastFlush)), line)
      ensures report.Some? <==> Reports(cfg, old(State(latest, lastFlush)), line)
      ensures report.Some? ==> report.value <= |Ingested(cfg, old(State(latest, lastFlush)), line)|
      ensures report.Some? ==> |old(sent)| <= |sent| && report.value == CountOk(ok, |old(sent)|, |sent|)
      ensures Due(cfg, old(State(latest, lastFlush)), line) ==>
        FlushedTable(sent, origins, old(sent), old(origins), Ingested(cfg, old(State(latest, lastFlush)), line))
      ensures !Due(cfg, old(State(latest, lastFlush)), line) ==> sent == old(sent) && origins == old(origins)
    {
      Ingest(line.parsed);
      report := Tick(line.now, ok);
    }

    /** Lines 111-138: read every line on a gateway fresh from the constructor.
        The table and timer end as `Trace` says, line `i` is reported exactly
        when `Reports` holds for it, the writes are split by `cuts` into the
        flushes of the lines that made them, and every record left in the table
        or written was read. */
    method Feed(lines: seq<Line>, ok: nat -> bool) returns (reports: seq<Option<nat>>, ghost cuts: seq<nat>)
      requires Valid() && latest == map[] && origins == []
      modifies this`latest, this`lastFlush, this`sent, this`origins
      ensures Valid()
      ensures State(latest, lastFlush) == Trace(cfg, old(lastFlush), lines)[|lines|]
      ensures |reports| == |lines| && ReportsAgree(cfg, old(lastFlush), lines, reports)
      ensures WritesAgree(cfg, old(lastFlush), lines, ok, origins, reports, cuts)
      ensures cuts[0] == 0 && cuts[|lines|] == |origins|
      ensures latest.Values <= Seen(lines) && AllIn(origins, Seen(lines))
    {
      ghost var start := lastFlush;
      reports := [];
      cuts := [0];
      var i := 0;
      while i < |lines|
        invariant 0 <= i <= |lines|
        invariant Valid()
        invariant State(latest, lastFlush) == Trace(cfg, start, lines)[i]
        invariant |reports| == i
        invariant ReportsAgree(cfg, start, lines, reports)
        invariant WritesAgree(cfg, start, lines, ok, origins, reports, cuts)
        invariant cuts[0] == 0 && cuts[i] == |origins|
        invariant latest.Values <= Seen(lines)
        invariant AllIn(origins, Seen(lines))
      {
        ghost var before := origins;
        ghost var s := State(latest, lastFlush);
        var r := Step(lines[i], ok);
        LoopStep(cfg, start, lines, i, s, State(latest, lastFlush), before, origins, reports, r);
        WritesStep(cfg, start, lines, ok, s, before, origins, reports, cuts, r);
        reports := reports + [r];
        cuts := cuts + [|origins|];
        i := i + 1;
      }
    }

    /** Lines 140-145: at end of input write every remaining record once, with no
        interval check; the table is not cleared and no count is reported. */
    method FinalFlush(ok: nat -> bool)
      requires Valid()
      modifies this`sent, this`origins
      ensures Valid()
      ensures FlushedTable(sent, origins, old(sent), old(origins), latest)
    {
      ghost var before := origins;
      var batch := Snapshot();
      forall i | 0 <= i < |batch| ensures KeyOf(batch[i], cfg.keyField).Some? {
        KeyedRecordsHaveIdentity(latest, cfg.keyField, batch[i]);
      }
      var ignored := SendAll(batch, ok);
      assert origins[|before|..] == batch;
    }
  }

  /** What one pass of the loop keeps true, stated on values: the state follows
      the trace, the reports agree with it, and every record in the table or
      written so far was read. */
  lemma LoopStep(cfg: Config, start: real, lines: seq<Line>, i: nat, s: State, s': State,
                 before: seq<Record>, after: seq<Record>, reports: seq<Option<nat>>, r: Option<nat>)
    requires i < |lines| && |reports| == i
    requires s == Trace(cfg, start, lines)[i] && s' == Advance(cfg, s, lines[i])
    requires ReportsAgree(cfg, start, lines, reports)
    requires r.Some? <==> Reports(cfg, s, lines[i])
    requires r.Some? ==> r.value <= |Ingested(cfg, s, lines[i])|
    requires s.table.Values <= Seen(lines) && AllIn(before, Seen(lines))
    requires Due(cfg, s, lines[i]) ==>
      && |before| <= |after| && after[..|before|] == before
      && Enumerates(after[|before|..], Ingested(cfg, s, lines[i]))
    requires !Due(cfg, s, lines[i]) ==> after == before
    ensures s' == Trace(cfg, start, lines)[i + 1]
    ensures ReportsAgree(cfg, start, lines, reports + [r])
    ensures s'.table.Values <= Seen(lines) && AllIn(after, Seen(lines))
  {
    TraceStep(cfg, start, lines, i);
    ReportsExtend(cfg, start, lines, reports, r);
    UpsertValues(s.table, lines[i].parsed, cfg.keyField);
    assert lines[i].parsed.Some? ==> lines[i].parsed.value in Seen(lines);
    if Due(cfg, s, lines[i]) {
      EnumeratedStayIn(after, before, Ingested(cfg, s, lines[i]), Seen(lines));
    }
  }

  /** One pass of the loop as seen by the writer: a due line writes the
      ingested table, each record once, and reports the successes; any other line
      writes nothing. */
  lemma WritesStep(cfg: Config, start: real, lines: seq<Line>, ok: nat -> bool, s: State,
                   before: seq<Record>, after: seq<Record>, reports: seq<Option<nat>>, cuts: seq<nat>, r: Option<nat>)
    requires |reports| < |lines| && s == Trace(cfg, start, lines)[|reports|]
    requires WritesAgree(cfg, start, lines, ok, before, reports, cuts) && cuts[|reports|] == |before|
    requires r.Some? ==> Due(cfg, s, lines[|reports|])
    requires r.Some? ==> |before| <= |after| && r.value == CountOk(ok, |before|, |after|)
    requires Due(cfg, s, lines[|reports|]) ==>
      && |before| <= |after| && after[..|before|] == before
      && Enumerates(after[|before|..], Ingested(cfg, s, lines[|reports|]))
    requires !Due(cfg, s, lines[|reports|]) ==> after == before
    ensures WritesAgree(cfg, start, lines, ok, after, reports + [r], cuts + [|after|])
  {
    StepWrites(cfg, s, lines[|reports|], ok, before, after, r);
    WritesExtend(cfg, start, lines, ok, before, after, reports, cuts, r);
  }

  lemma StepWrites(cfg: Config, s: State, line: Line, ok: nat -> bool, before: seq<Record>, after: seq<Record>, r: Option<nat>)
    requires r.Some? ==> Due(cfg, s, line)
    requires r.Some? ==> |before| <= |after| && r.value == CountOk(ok, |before|, |after|)
    requires Due(cfg, s, line) ==>
      && |before| <= |after| && after[..|before|] == before
      && Enumerates(after[|before|..], Ingested(cfg, s, line))
    requires !Due(cfg, s, line) ==> after == before
    ensures FlushWrites(cfg, s, line, ok, after, |before|, |after|, r)
  {
    if Due(cfg, s, line) {
      DropToEnd(after, |before|);
    }
  }

  /** `main` after start-up: run the lines through a fresh gateway and finish with
      the final flush. Line `i` yields a "Flushed" report exactly when it makes a
      flush due while the table holds records. `cuts` splits the points written
      during the stream by the line whose flush wrote them: a due line writes
      every record of the table it drains, once each, any other line writes
      nothing, and a report is the number of those writes that succeed. The
      final flush writes every record of the
      table `Trace` ends with, once each, as the last points written. Every point
      handed to the writer was built by the schema from a record that was read
      and has an identity. */
  method Run(cfg: Config, start: real, lines: seq<Line>, ok: nat -> bool)
    returns (sent: seq<Point>, reports: seq<Option<nat>>, ghost origins: seq<Record>, ghost cuts: seq<nat>)
    ensures |reports| == |lines|
    ensures ReportsAgree(cfg, start, lines, reports)
    ensures WritesAgree(cfg, start, lines, ok, origins, reports, cuts) && cuts[0] == 0
    ensures var rest := Trace(cfg, start, lines)[|lines|].table;
      && |rest| <= |origins| && cuts[|lines|] == |origins| - |rest|
      && Enumerates(origins[|origins| - |rest|..], rest)
    ensures Built(sent, origins, cfg)
    ensures AllIn(origins, Seen(lines))
  {
    var g := new Gateway(cfg, start);
    reports, cuts := g.Feed(lines, ok);
    ghost var before := g.origins;
    g.FinalFlush(ok);
    WritesGrow(cfg, start, lines, ok, before, g.origins, reports, cuts);
    EnumeratedStayIn(g.origins, before, g.latest, Seen(lines));
    TailEnumerates(g.origins, before, g.latest);
    sent := g.sent;
    origins := g.origins;
  }
}
