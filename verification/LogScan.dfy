/**
 The batched reader of the diagnostic log. Each call consumes at most one batch of
 matching rows behind a cursor and folds the transport signals into one failure episode.
 */
module LogScan {
  import opened Wrappers
  import opened Sequences

  const SIGNAL_WINDOW: nat := 600
  const FAILURE_DURATION: nat := 60
  const BATCH: nat := 128

  /**
   One log row. `relevant` says that target and level match the query; `signal` and
   `initial` are the two verdicts on the row's text.
   */
  datatype Row = Row(id: int, ts: nat, relevant: bool, signal: bool, initial: bool)

  /** What one call sees: the file's identity, its rows, and how many rows decode before an error. */
  datatype LogView = LogView(identity: (nat, nat), rows: seq<Row>, readable: nat)

  /** A failure episode; `first == 0` stands for none. */
  datatype Episode = Episode(first: nat, last: nat, count: nat)

  datatype Reader = Reader(cursor: Option<int>, identity: Option<(nat, nat)>, episode: Episode)

  /** Outcome of one call: the new reader, the rows it consumed, and the count unless a row failed to decode. */
  datatype Scan = Scan(reader: Reader, consumed: seq<Row>, count: Option<nat>)

  ghost predicate Ascending(rows: seq<Row>) {
    forall i, j :: 0 <= i < j < |rows| ==> rows[i].id < rows[j].id
  }

  ghost predicate PositiveIds(rows: seq<Row>) {
    forall row :: row in rows ==> 0 < row.id
  }

  function MaxId(rows: seq<Row>): int {
    if rows == [] then 0 else rows[|rows| - 1].id
  }

  function Wanted(from: int, upto: int, since: nat): Row -> bool {
    (row: Row) => from < row.id <= upto && row.ts >= since && row.relevant
  }

  function Matching(rows: seq<Row>, from: int, upto: int, since: nat): seq<Row> {
    Filter(rows, Wanted(from, upto, since))
  }

  predicate StartsEpisode(e: Episode, ts: nat) {
    e.first == 0 || ts < e.last || SatSub(ts, e.last) > FAILURE_DURATION
  }

  /** The loop state: the stored episode and the count local to the call. */
  datatype Acc = Acc(episode: Episode, local: nat)

  function AbsorbRow(acc: Acc, row: Row): Acc {
    if !row.signal then acc
    else
      var starts := StartsEpisode(acc.episode, row.ts);
      var episode := if starts then Episode(row.ts, row.ts, 0) else acc.episode.(last := row.ts);
      var local := if starts then 0 else acc.local;
      Acc(episode, if row.initial then local + 1 else local)
  }

  function Absorb(acc: Acc, rows: seq<Row>): Acc {
    if rows == [] then acc else AbsorbRow(Absorb(acc, rows[..|rows| - 1]), rows[|rows| - 1])
  }

  function ScanLog(r: Reader, log: LogView, since: nat): Scan {
    var newest := MaxId(log.rows);
    if r.cursor.None? || r.identity != Some(log.identity) || r.cursor.value > newest then
      Scan(r.(cursor := Some(newest), identity := Some(log.identity)), [], Some(0))
    else
      var batch := Take(Matching(log.rows, r.cursor.value, newest, since), BATCH);
      var read := Take(batch, log.readable);
      var acc := Absorb(Acc(r.episode, 0), read);
      var reached := if read == [] then r.cursor else Some(read[|read| - 1].id);
      if |read| < |batch| then
        Scan(r.(cursor := reached, episode := acc.episode), read, None)
      else
        Scan(r.(cursor := if |batch| < BATCH then Some(newest) else reached, episode := acc.episode), read, Some(acc.local))
  }

  /** One call together with the caller's saturating accumulation of the returned count. */
  function Poll(r: Reader, log: LogView, since: nat): Scan {
    var scan := ScanLog(r, log, since);
    if scan.count.None? then scan
    else
      var e := scan.reader.episode;
      scan.(reader := scan.reader.(episode := e.(count := SatAdd(e.count, scan.count.value))))
  }

  // ---- the reference: one unbounded fold over the rows ----

  ghost function FoldRow(e: Episode, row: Row): Episode {
    if !row.signal then e
    else if StartsEpisode(e, row.ts) then Episode(row.ts, row.ts, if row.initial then 1 else 0)
    else Episode(e.first, row.ts, if row.initial then SatAdd(e.count, 1) else e.count)
  }

  ghost function Fold(e: Episode, rows: seq<Row>): Episode {
    if rows == [] then e else FoldRow(Fold(e, rows[..|rows| - 1]), rows[|rows| - 1])
  }

  lemma {:induction false} FoldConcat(e: Episode, a: seq<Row>, b: seq<Row>)
    ensures Fold(e, a + b) == Fold(Fold(e, a), b)
  {
    if b == [] {
      assert a + b == a;
    } else {
      FoldConcat(e, a, b[..|b| - 1]);
      assert (a + b)[..|a + b| - 1] == a + b[..|b| - 1];
    }
  }

  ghost function Commit(acc: Acc): Episode {
    acc.episode.(count := SatAdd(acc.episode.count, acc.local))
  }

  /** Splitting the count into a stored and a local part changes nothing. */
  lemma {:induction false} AbsorbIsFold(e: Episode, rows: seq<Row>)
    requires e.count <= U32_MAX
    ensures Commit(Absorb(Acc(e, 0), rows)) == Fold(e, rows)
    ensures Absorb(Acc(e, 0), rows).episode.first == Fold(e, rows).first
    ensures Absorb(Acc(e, 0), rows).episode.last == Fold(e, rows).last
  {
    if rows != [] {
      AbsorbIsFold(e, rows[..|rows| - 1]);
    }
  }

  // ---- ranges of ids ----

  lemma {:induction false} MatchingAscending(rows: seq<Row>, from: int, upto: int, since: nat)
    requires Ascending(rows)
    ensures Ascending(Matching(rows, from, upto, since))
    ensures forall row :: row in Matching(rows, from, upto, since) ==> row in rows && from < row.id <= upto
  {
    FilterMembers(rows, Wanted(from, upto, since));
    if rows != [] {
      var init := rows[..|rows| - 1];
      assert rows == init + [rows[|rows| - 1]];
      assert forall row :: row in init ==> row.id < rows[|rows| - 1].id;
      MatchingAscending(init, from, upto, since);
    }
  }

  lemma {:induction false} MatchingEmpty(rows: seq<Row>, from: int, upto: int, since: nat)
    requires forall row :: row in rows ==> !(from < row.id <= upto)
    ensures Matching(rows, from, upto, since) == []
  {
    if rows != [] {
      assert rows == rows[..|rows| - 1] + [rows[|rows| - 1]] && rows[|rows| - 1] in rows;
      MatchingEmpty(rows[..|rows| - 1], from, upto, since);
    }
  }

  lemma {:induction false} MatchingSplit(rows: seq<Row>, a: int, b: int, c: int, since: nat)
    requires Ascending(rows) && a <= b <= c
    ensures Matching(rows, a, c, since) == Matching(rows, a, b, since) + Matching(rows, b, c, since)
  {
    if rows != [] {
      var init, last := rows[..|rows| - 1], rows[|rows| - 1];
      MatchingSplit(init, a, b, c, since);
      if last.id <= b {
        MatchingEmpty(init, b, c, since);
      }
    }
  }

  /** Rows appended above `upto` do not change what matches up to it. */
  lemma MatchingGrowth(rows: seq<Row>, more: seq<Row>, from: int, upto: int, since: nat)
    requires forall row :: row in more ==> upto < row.id
    ensures Matching(rows + more, from, upto, since) == Matching(rows, from, upto, since)
  {
    FilterConcat(rows, more, Wanted(from, upto, since));
    MatchingEmpty(more, from, upto, since);
  }

  /** A prefix of the matches is exactly what matches up to the id of its last row. */
  lemma MatchingPrefix(rows: seq<Row>, from: int, upto: int, since: nat, n: nat)
    requires Ascending(rows)
    requires 0 < n <= |Matching(rows, from, upto, since)|
    ensures var m := Matching(rows, from, upto, since);
            from < m[n - 1].id <= upto && Matching(rows, from, m[n - 1].id, since) == m[..n]
  {
    var m := Matching(rows, from, upto, since);
    MatchingAscending(rows, from, upto, since);
    assert m[n - 1] in m;
    var cut := m[n - 1].id;
    MatchingSplit(rows, from, cut, upto, since);
    var low, high := Matching(rows, from, cut, since), Matching(rows, cut, upto, since);
    MatchingAscending(rows, from, cut, since);
    MatchingAscending(rows, cut, upto, since);
    assert m == low + high;
    forall k | 0 <= k < |m| ensures m[k].id <= cut <==> k < |low| {
      if k < |low| {
        assert m[k] == low[k] && low[k] in low;
      } else {
        assert m[k] == high[k - |low|] && high[k - |low|] in high;
      }
    }
    assert forall k :: 0 <= k < |m| ==> (m[k].id <= cut <==> k < n);
    assert m[n - 1].id <= cut;
    assert n < |m| ==> !(m[n].id <= cut);
    assert |low| == n;
    assert low == m[..n];
  }

  // ---- many calls ----

  /** What one call sees of the log, and the oldest time it still asks for. */
  datatype Look = Look(log: LogView, since: nat)

  /** Rows are only ever added behind the newest id; the file stays the same file. */
  ghost predicate AppendOnly(looks: seq<Look>) {
    && (forall i :: 0 <= i < |looks| ==> Ascending(looks[i].log.rows) && PositiveIds(looks[i].log.rows))
    && (forall i, j :: 0 <= i < j < |looks| ==>
          && looks[i].log.identity == looks[j].log.identity
          && looks[i].log.rows <= looks[j].log.rows)
  }

  datatype Progress = Progress(reader: Reader, consumed: seq<Row>, clean: bool)

  /** Successive calls, each with its own look; `clean` says that no row failed to decode. */
  ghost function PollAll(r: Reader, looks: seq<Look>): Progress {
    if looks == [] then Progress(r, [], true)
    else
      var before, last := PollAll(r, looks[..|looks| - 1]), looks[|looks| - 1];
      var scan := Poll(before.reader, last.log, last.since);
      Progress(scan.reader, before.consumed + scan.consumed, before.clean && scan.count.Some?)
  }

  /** The cursor of an attached reader after the first `i` calls. */
  ghost function CursorAt(r: Reader, looks: seq<Look>, i: nat): int
    requires i <= |looks|
  {
    var reader := PollAll(r, looks[..i]).reader;
    if reader.cursor.Some? then reader.cursor.value else 0
  }

  /** Call by call, what matches between the cursors around the call and is recent enough for it. */
  ghost function Segments(rows: seq<Row>, r: Reader, looks: seq<Look>, n: nat): seq<Row>
    requires n <= |looks|
  {
    if n == 0 then []
    else Segments(rows, r, looks, n - 1)
         + Matching(rows, CursorAt(r, looks, n - 1), CursorAt(r, looks, n), looks[n - 1].since)
  }

  ghost predicate Attached(r: Reader, log: LogView) {
    r.cursor.Some? && r.identity == Some(log.identity) && r.cursor.value <= MaxId(log.rows)
    && r.episode.count <= U32_MAX
  }

  /** One call consumes exactly the matches between the old and the new cursor, in id order. */
  lemma PollStep(r: Reader, log: LogView, since: nat)
    requires Attached(r, log) && Ascending(log.rows)
    ensures var scan := Poll(r, log, since);
            && Attached(scan.reader, log)
            && r.cursor.value <= scan.reader.cursor.value
            && scan.consumed == Matching(log.rows, r.cursor.value, scan.reader.cursor.value, since)
            && scan.reader.episode.first == Fold(r.episode, scan.consumed).first
            && scan.reader.episode.last == Fold(r.episode, scan.consumed).last
            && (scan.count.Some? ==> scan.reader.episode == Fold(r.episode, scan.consumed))
            && (scan.count.Some? && scan.reader.cursor.value < MaxId(log.rows) ==> |scan.consumed| == BATCH)
  {
    var newest := MaxId(log.rows);
    var m := Matching(log.rows, r.cursor.value, newest, since);
    var scan := Poll(r, log, since);
    var batch := Take(m, BATCH);
    assert scan.consumed == m[..|scan.consumed|];
    AbsorbIsFold(r.episode, scan.consumed);
    AbsorbCountBounded(Acc(r.episode, 0), scan.consumed);
    if scan.consumed != [] {
      MatchingPrefix(log.rows, r.cursor.value, newest, since, |scan.consumed|);
    }
    if |scan.consumed| < |batch| && scan.consumed == [] {
      MatchingEmpty(log.rows, r.cursor.value, r.cursor.value, since);
    }
  }

  lemma {:induction false} AbsorbCountBounded(acc: Acc, rows: seq<Row>)
    requires acc.episode.count <= U32_MAX
    ensures Absorb(acc, rows).episode.count <= U32_MAX
  {
    if rows != [] {
      AbsorbCountBounded(acc, rows[..|rows| - 1]);
    }
  }

  lemma AppendOnlyPrefix(looks: seq<Look>)
    requires AppendOnly(looks) && |looks| > 0
    ensures AppendOnly(looks[..|looks| - 1])
  {
  }

  /** Segments up to `n` depend on the first `n` calls only. */
  lemma {:induction false} SegmentsPrefix(rows: seq<Row>, r: Reader, looks: seq<Look>, m: nat, n: nat)
    requires n <= m <= |looks|
    ensures Segments(rows, r, looks[..m], n) == Segments(rows, r, looks, n)
    ensures CursorAt(r, looks[..m], n) == CursorAt(r, looks, n)
  {
    assert looks[..m][..n] == looks[..n];
    if n > 0 {
      assert looks[..m][..n - 1] == looks[..n - 1];
      SegmentsPrefix(rows, r, looks, m, n - 1);
    }
  }

  /** Rows appended later change no earlier segment. */
  lemma {:induction false} SegmentsGrowth(older: seq<Row>, newer: seq<Row>, r: Reader, looks: seq<Look>, n: nat)
    requires n <= |looks| && older <= newer && Ascending(newer) && PositiveIds(newer)
    requires forall i: nat :: i <= n ==> CursorAt(r, looks, i) <= MaxId(older)
    ensures Segments(newer, r, looks, n) == Segments(older, r, looks, n)
  {
    if n > 0 {
      SegmentsGrowth(older, newer, r, looks, n - 1);
      ConsumedExtends(older, newer, CursorAt(r, looks, n - 1), CursorAt(r, looks, n), looks[n - 1].since);
    }
  }

  /** The cursors around every call, all within the log seen last, never moving back. */
  ghost predicate Forward(r: Reader, looks: seq<Look>, n: nat, newest: int)
    requires n <= |looks|
  {
    && (forall i: nat :: i <= n ==> CursorAt(r, looks, i) <= newest)
    && (forall i: nat :: i < n ==> CursorAt(r, looks, i) <= CursorAt(r, looks, i + 1))
  }

  /** Bounds, and without a decoding failure the count too, are those of one fold. */
  ghost predicate Folded(e: Episode, p: Progress) {
    && p.reader.episode.first == Fold(e, p.consumed).first
    && p.reader.episode.last == Fold(e, p.consumed).last
    && (p.clean ==> p.reader.episode == Fold(e, p.consumed))
  }

  /** One more call of a reader that stays attached. */
  lemma FoldedNext(e: Episode, before: Progress, log: LogView, since: nat)
    requires Folded(e, before) && Attached(before.reader, log) && Ascending(log.rows)
    ensures var scan := Poll(before.reader, log, since);
      Folded(e, Progress(scan.reader, before.consumed + scan.consumed, before.clean && scan.count.Some?))
  {
    PollStep(before.reader, log, since);
    var scan := Poll(before.reader, log, since);
    FoldConcat(e, before.consumed, scan.consumed);
    SameBounds(before.reader.episode, Fold(e, before.consumed), scan.consumed);
    hide Fold, Poll, Attached, Matching;
  }

  lemma LastCall(r: Reader, looks: seq<Look>)
    requires looks != []
    ensures var n := |looks|;
      var before, last := PollAll(r, looks[..n - 1]), looks[n - 1];
      var scan := Poll(before.reader, last.log, last.since);
      && PollAll(r, looks) == Progress(scan.reader, before.consumed + scan.consumed, before.clean && scan.count.Some?)
      && (before.reader.cursor.Some? ==> CursorAt(r, looks, n - 1) == before.reader.cursor.value)
      && (scan.reader.cursor.Some? ==> CursorAt(r, looks, n) == scan.reader.cursor.value)
  {
    assert looks[..|looks|] == looks;
    hide Poll;
  }

  /** What `ExactlyOnce` says after the calls `looks`. */
  ghost predicate Exact(r: Reader, looks: seq<Look>)
    requires looks != []
  {
    var p, last := PollAll(r, looks), looks[|looks| - 1].log;
    && Attached(r, looks[0].log) && Attached(p.reader, last)
    && CursorAt(r, looks, 0) == r.cursor.value && CursorAt(r, looks, |looks|) == p.reader.cursor.value
    && Forward(r, looks, |looks|, MaxId(last.rows))
    && p.consumed == Segments(last.rows, r, looks, |looks|)
    && Folded(r.episode, p)
  }

  lemma FirstExact(r: Reader, look: Look)
    requires Ascending(look.log.rows) && Attached(r, look.log)
    ensures Exact(r, [look])
  {
    var looks := [look];
    var before := PollAll(r, []);
    assert looks[..0] == [] && before == Progress(r, [], true);
    LastCall(r, looks);
    PollStep(r, look.log, look.since);
    assert Folded(r.episode, before);
    FoldedNext(r.episode, before, look.log, look.since);
    assert CursorAt(r, looks, 0) == r.cursor.value && Segments(look.log.rows, r, looks, 0) == [];
    hide Poll, Folded, Fold, Matching, PollAll, CursorAt, Ascending;
    assert Segments(look.log.rows, r, looks, 1)
        == [] + Matching(look.log.rows, CursorAt(r, looks, 0), CursorAt(r, looks, 1), look.since);
  }

  lemma NextExact(r: Reader, looks: seq<Look>)
    requires |looks| > 1 && AppendOnly(looks) && Exact(r, looks[..|looks| - 1])
    ensures Exact(r, looks)
  {
    var n := |looks|;
    var init, last, older := looks[..n - 1], looks[n - 1], looks[n - 2].log;
    var before := PollAll(r, init);
    assert init[|init| - 1] == looks[n - 2] && init[0] == looks[0];
    assert older.rows <= last.log.rows && Ascending(last.log.rows) && PositiveIds(last.log.rows);
    StillAttached(before.reader, looks);
    hide AppendOnly, Ascending, PositiveIds, Poll, Folded, Fold, Matching, PollAll, CursorAt;
    LastCall(r, looks);
    PollStep(before.reader, last.log, last.since);
    FoldedNext(r.episode, before, last.log, last.since);
    CursorsGrow(r, looks, older.rows, last.log.rows);
    assert Segments(last.log.rows, r, looks, n)
        == Segments(last.log.rows, r, looks, n - 1)
           + Matching(last.log.rows, CursorAt(r, looks, n - 1), CursorAt(r, looks, n), last.since);
    ForwardNext(r, looks, n, MaxId(last.log.rows));
    hide Forward, Segments;
  }

  lemma ForwardNext(r: Reader, looks: seq<Look>, n: nat, newest: int)
    requires 0 < n <= |looks| && Forward(r, looks, n - 1, newest)
    ensures CursorAt(r, looks, n - 1) <= CursorAt(r, looks, n) <= newest ==> Forward(r, looks, n, newest)
  {
    hide CursorAt;
  }

  /**
   Over any number of calls on a growing log, each asking from its own time on, the cursor only
   moves forward, every call consumes exactly the rows it passes that are recent enough for it,
   and the episode is that of one fold over the consumed rows.
   */
  lemma {:induction false} ExactlyOnce(r: Reader, looks: seq<Look>)
    requires looks != [] && AppendOnly(looks) && Attached(r, looks[0].log)
    ensures var p := PollAll(r, looks);
            var last := looks[|looks| - 1].log;
            && Attached(p.reader, last)
            && CursorAt(r, looks, 0) == r.cursor.value && CursorAt(r, looks, |looks|) == p.reader.cursor.value
            && Forward(r, looks, |looks|, MaxId(last.rows))
            && p.consumed == Segments(last.rows, r, looks, |looks|)
            && Folded(r.episode, p)
  {
    hide PollAll, CursorAt, Segments, Forward, Folded;
    if |looks| == 1 {
      FirstExact(r, looks[0]);
      assert looks == [looks[0]];
    } else {
      AppendOnlyPrefix(looks);
      ExactlyOnce(r, looks[..|looks| - 1]);
      assert Exact(r, looks[..|looks| - 1]);
      NextExact(r, looks);
    }
  }

  /** A reader attached to the log as it was is attached to the log as it grew. */
  lemma StillAttached(r: Reader, looks: seq<Look>)
    requires |looks| > 1 && AppendOnly(looks) && Attached(r, looks[|looks| - 2].log)
    ensures Attached(r, looks[|looks| - 1].log) && Ascending(looks[|looks| - 1].log.rows)
  {
    var older, newer := looks[|looks| - 2].log, looks[|looks| - 1].log;
    ConsumedExtends(older.rows, newer.rows, 0, r.cursor.value, 0);
  }

  /** The inductive step of `ExactlyOnce` as far as cursors and segments go. */
  lemma CursorsGrow(r: Reader, looks: seq<Look>, older: seq<Row>, newer: seq<Row>)
    requires |looks| > 1 && older <= newer && Ascending(newer) && PositiveIds(newer)
    requires Forward(r, looks[..|looks| - 1], |looks| - 1, MaxId(older))
    ensures var n := |looks| - 1;
      && Forward(r, looks, n, MaxId(newer))
      && Segments(newer, r, looks, n) == Segments(older, r, looks[..n], n)
      && CursorAt(r, looks, 0) == CursorAt(r, looks[..n], 0)
  {
    var n := |looks| - 1;
    forall i: nat | i <= n
      ensures CursorAt(r, looks, i) == CursorAt(r, looks[..n], i) <= MaxId(older) && CursorAt(r, looks, i) <= MaxId(newer)
    {
      SegmentsPrefix(older, r, looks, n, i);
      ConsumedExtends(older, newer, 0, CursorAt(r, looks[..n], i), 0);
    }
    SegmentsPrefix(older, r, looks, n, n);
    SegmentsGrowth(older, newer, r, looks, n);
    hide CursorAt, Segments, Ascending, PositiveIds;
  }

  /** Some call moved the cursor past the row and found it recent enough. */
  ghost predicate PassedBy(r: Reader, looks: seq<Look>, n: nat, row: Row)
    requires n <= |looks|
  {
    exists i: nat :: i < n && CursorAt(r, looks, i) < row.id <= CursorAt(r, looks, i + 1) && row.ts >= looks[i].since
  }

  lemma PassedByNext(r: Reader, looks: seq<Look>, n: nat, row: Row)
    requires 0 < n <= |looks|
    ensures PassedBy(r, looks, n, row) <==>
              || PassedBy(r, looks, n - 1, row)
              || (CursorAt(r, looks, n - 1) < row.id <= CursorAt(r, looks, n) && row.ts >= looks[n - 1].since)
  {
    hide CursorAt;
    assert CursorAt(r, looks, n - 1 + 1) == CursorAt(r, looks, n);
  }

  lemma AscendingConcat(a: seq<Row>, b: seq<Row>, cut: int)
    requires Ascending(a) && Ascending(b)
    requires (forall row :: row in a ==> row.id <= cut) && (forall row :: row in b ==> cut < row.id)
    ensures Ascending(a + b)
  {
  }

  /** Segment by segment, ids only rise, and a row is in exactly if the call that passed it found it recent enough. */
  lemma {:induction false} SegmentsExact(rows: seq<Row>, r: Reader, looks: seq<Look>, n: nat)
    requires n <= |looks| && Ascending(rows)
    requires forall i: nat :: i < n ==> CursorAt(r, looks, i) <= CursorAt(r, looks, i + 1)
    ensures Ascending(Segments(rows, r, looks, n))
    ensures forall row :: row in Segments(rows, r, looks, n) <==> row in rows && row.relevant && PassedBy(r, looks, n, row)
    ensures forall row :: row in Segments(rows, r, looks, n) ==> row.id <= CursorAt(r, looks, n)
  {
    if n > 0 {
      SegmentsExact(rows, r, looks, n - 1);
      var before := Segments(rows, r, looks, n - 1);
      var c0, c1, since := CursorAt(r, looks, n - 1), CursorAt(r, looks, n), looks[n - 1].since;
      assert CursorAt(r, looks, n - 1 + 1) == c1;
      MatchingAscending(rows, c0, c1, since);
      FilterMembers(rows, Wanted(c0, c1, since));
      forall row { PassedByNext(r, looks, n, row); }
      AscendingConcat(before, Matching(rows, c0, c1, since), c0);
      hide CursorAt, PassedBy, Ascending, Filter;
    }
  }

  /** With one time for all calls, the segments are one match. */
  lemma {:induction false} SegmentsConstant(rows: seq<Row>, r: Reader, looks: seq<Look>, n: nat, since: nat)
    requires n <= |looks| && Ascending(rows) && forall i :: 0 <= i < n ==> looks[i].since == since
    requires forall i: nat :: i < n ==> CursorAt(r, looks, i) <= CursorAt(r, looks, i + 1)
    ensures CursorAt(r, looks, 0) <= CursorAt(r, looks, n)
    ensures Segments(rows, r, looks, n) == Matching(rows, CursorAt(r, looks, 0), CursorAt(r, looks, n), since)
  {
    hide CursorAt;
    if n == 0 {
      MatchingEmpty(rows, CursorAt(r, looks, 0), CursorAt(r, looks, 0), since);
    } else {
      SegmentsConstant(rows, r, looks, n - 1, since);
      assert CursorAt(r, looks, n - 1 + 1) == CursorAt(r, looks, n);
      MatchingSplit(rows, CursorAt(r, looks, 0), CursorAt(r, looks, n - 1), CursorAt(r, looks, n), since);
    }
  }

  /** Episode bounds do not depend on the count. */
  lemma {:induction false} SameBounds(a: Episode, b: Episode, rows: seq<Row>)
    requires a.first == b.first && a.last == b.last
    ensures Fold(a, rows).first == Fold(b, rows).first && Fold(a, rows).last == Fold(b, rows).last
  {
    if rows != [] {
      SameBounds(a, b, rows[..|rows| - 1]);
    }
  }

  lemma ConsumedExtends(older: seq<Row>, newer: seq<Row>, c0: int, c1: int, since: nat)
    requires older <= newer && Ascending(newer) && PositiveIds(newer) && c1 <= MaxId(older)
    ensures Matching(newer, c0, c1, since) == Matching(older, c0, c1, since)
    ensures c1 <= MaxId(newer)
  {
    var more := newer[|older|..];
    assert newer == older + more;
    NewRowsAbove(older, more, c1);
    MatchingGrowth(older, more, c0, c1, since);
  }

  lemma NewRowsAbove(rows: seq<Row>, more: seq<Row>, cursor: int)
    requires Ascending(rows + more) && PositiveIds(rows + more) && cursor <= MaxId(rows)
    ensures forall row :: row in more ==> cursor < row.id
    ensures cursor <= MaxId(rows + more)
  {
    var all := rows + more;
    forall k | 0 <= k < |more| ensures cursor < more[k].id {
      assert all[|rows| + k] == more[k] && all[|rows| + k] in all;
      if rows != [] {
        assert all[|rows| - 1].id < all[|rows| + k].id;
      }
    }
    if more != [] {
      assert all[|all| - 1] == more[|more| - 1];
    }
  }

  lemma PollClean(r: Reader, log: LogView, since: nat)
    requires log.readable >= BATCH
    ensures Poll(r, log, since).count.Some?
  {
    hide Matching;
  }

  lemma UnchangedIsAppendOnly(look: Look, calls: nat)
    requires Ascending(look.log.rows) && PositiveIds(look.log.rows)
    ensures AppendOnly(seq(calls, _ => look))
    ensures calls > 0 ==> seq(calls, _ => look)[..calls - 1] == seq(calls - 1, _ => look)
  {
  }

  /** Calls on an unchanged log, all asking from one time on, are one match. */
  lemma UnchangedConsumes(r: Reader, look: Look, calls: nat)
    requires Ascending(look.log.rows) && PositiveIds(look.log.rows) && Attached(r, look.log) && calls > 0
    ensures var p := PollAll(r, seq(calls, _ => look));
            && Attached(p.reader, look.log) && r.cursor.value <= p.reader.cursor.value
            && p.consumed == Matching(look.log.rows, r.cursor.value, p.reader.cursor.value, look.since)
            && (p.clean ==> p.reader.episode == Fold(r.episode, p.consumed))
  {
    var looks := seq(calls, _ => look);
    UnchangedIsAppendOnly(look, calls);
    ExactlyOnce(r, looks);
    SegmentsConstant(look.log.rows, r, looks, calls, look.since);
  }

  /**
   Batching terminates: on an unchanged log, enough decodable calls reach the newest id, and
   the reader is then the one that a single unlimited scan would have left.
   */
  lemma {:induction false} DrainReachesUnboundedScan(r: Reader, log: LogView, since: nat, calls: nat)
    requires Ascending(log.rows) && PositiveIds(log.rows) && Attached(r, log) && log.readable >= BATCH && calls > 0
    ensures var m := Matching(log.rows, r.cursor.value, MaxId(log.rows), since);
            var p := PollAll(r, seq(calls, _ => Look(log, since)));
            && p.clean
            && (p.reader.cursor.value < MaxId(log.rows) ==> |p.consumed| == BATCH * calls)
            && (BATCH * calls > |m| ==>
                  p.consumed == m
                  && p.reader == r.(cursor := Some(MaxId(log.rows)), episode := Fold(r.episode, m)))
  {
    hide Matching, Fold, Poll, AppendOnly, Ascending, PositiveIds;
    var look := Look(log, since);
    var p := PollAll(r, seq(calls, _ => look));
    var newest := MaxId(log.rows);
    UnchangedIsAppendOnly(look, calls);
    UnchangedConsumes(r, look, calls);
    PollClean(r, log, since);
    var before := seq(calls - 1, _ => look);
    if calls == 1 {
      PollStep(r, log, since);
      assert PollAll(r, before) == Progress(r, [], true);
      assert [] + Poll(r, log, since).consumed == Poll(r, log, since).consumed;
    } else {
      DrainReachesUnboundedScan(r, log, since, calls - 1);
      UnchangedConsumes(r, look, calls - 1);
      PollStep(PollAll(r, before).reader, log, since);
      PollClean(PollAll(r, before).reader, log, since);
    }
    MatchingSplit(log.rows, r.cursor.value, p.reader.cursor.value, newest, since);
  }

  // ---- attaching ----

  /** Nothing to continue from: no cursor, another file, or a cursor beyond everything in the log. */
  ghost predicate Unattached(r: Reader, log: LogView) {
    || r.cursor.None?
    || r.identity != Some(log.identity)
    || (r.cursor.value > 0 && forall row :: row in log.rows ==> row.id < r.cursor.value)
  }

  /** The cursor stands at the newest row that is there, or at zero in an empty log. */
  ghost predicate AtNewest(r: Reader, log: LogView) {
    && r.identity == Some(log.identity) && r.cursor.Some?
    && (forall row :: row in log.rows ==> row.id <= r.cursor.value)
    && (if log.rows == [] then r.cursor.value == 0 else exists row :: row in log.rows && row.id == r.cursor.value)
  }

  /** An unattached call consumes nothing, whatever the log holds, and attaches at its newest row. */
  lemma Attaches(r: Reader, log: LogView, since: nat)
    requires Ascending(log.rows) && PositiveIds(log.rows) && Unattached(r, log)
    ensures var scan := Poll(r, log, since);
            && scan.consumed == [] && scan.count == Some(0) && AtNewest(scan.reader, log)
            && scan.reader.episode.first == r.episode.first && scan.reader.episode.last == r.episode.last
  {
    if log.rows != [] {
      assert log.rows[|log.rows| - 1] in log.rows;
    }
  }

  /** The two readers differ in their counts at most. */
  ghost predicate SameButCount(a: Reader, b: Reader) {
    a == b.(episode := b.episode.(count := a.episode.count))
  }

  lemma {:induction false} BoundsIgnoreCount(a: Acc, b: Acc, rows: seq<Row>)
    requires a.episode.first == b.episode.first && a.episode.last == b.episode.last
    ensures Absorb(a, rows).episode.first == Absorb(b, rows).episode.first
    ensures Absorb(a, rows).episode.last == Absorb(b, rows).episode.last
  {
    if rows != [] {
      BoundsIgnoreCount(a, b, rows[..|rows| - 1]);
    }
  }

  /** The count plays no part in what is read. */
  lemma PollIgnoresCount(a: Reader, b: Reader, log: LogView, since: nat)
    requires SameButCount(a, b)
    ensures Poll(a, log, since).consumed == Poll(b, log, since).consumed
    ensures SameButCount(Poll(a, log, since).reader, Poll(b, log, since).reader)
  {
    hide Matching;
    BoundsIgnoreCount(Acc(a.episode, 0), Acc(b.episode, 0), ScanLog(b, log, since).consumed);
  }

  lemma {:induction false} PollAllIgnoresCount(a: Reader, b: Reader, looks: seq<Look>)
    requires SameButCount(a, b)
    ensures PollAll(a, looks).consumed == PollAll(b, looks).consumed
    ensures SameButCount(PollAll(a, looks).reader, PollAll(b, looks).reader)
  {
    if looks != [] {
      var init, last := looks[..|looks| - 1], looks[|looks| - 1];
      PollAllIgnoresCount(a, b, init);
      PollIgnoresCount(PollAll(a, init).reader, PollAll(b, init).reader, last.log, last.since);
      hide Poll;
    }
  }

  lemma {:induction false} PollAllCons(r: Reader, look: Look, looks: seq<Look>)
    ensures var scan := Poll(r, look.log, look.since);
            var p, rest := PollAll(r, [look] + looks), PollAll(scan.reader, looks);
            p.reader == rest.reader && p.consumed == scan.consumed + rest.consumed
  {
    hide Poll;
    if looks == [] {
      assert [look] + looks == [look] && [look][..0] == [];
    } else {
      var init := looks[..|looks| - 1];
      assert ([look] + looks)[..|looks|] == [look] + init;
      PollAllCons(r, look, init);
    }
  }

  /** Once at the newest row of a log, a reader only ever consumes relevant rows that were not yet there. */
  lemma OnlyNewer(r: Reader, first: Look, looks: seq<Look>)
    requires AppendOnly([first] + looks) && AtNewest(r, first.log)
    ensures forall row :: row in PollAll(r, looks).consumed ==> row.relevant && row !in first.log.rows
  {
    if looks != [] {
      AppendOnlyTail(first, looks);
      var zero := r.(episode := r.episode.(count := 0));
      PollAllIgnoresCount(r, zero, looks);
      NewestGrows(r, first.log, looks[0].log);
      PassedIsNewer(zero, looks, r.cursor.value);
      hide PollAll, AppendOnly;
    }
  }

  lemma AppendOnlyTail(first: Look, looks: seq<Look>)
    requires AppendOnly([first] + looks)
    ensures AppendOnly(looks)
    ensures looks != [] ==>
              && first.log.identity == looks[0].log.identity && first.log.rows <= looks[0].log.rows
              && Ascending(looks[0].log.rows) && PositiveIds(looks[0].log.rows)
  {
    var all := [first] + looks;
    assert all[1..] == looks;
    assert forall i :: 0 <= i < |looks| ==> looks[i] == all[i + 1];
    assert looks != [] ==> all[0] == first && all[1] == looks[0];
    hide Ascending, PositiveIds;
  }

  /** What an attached reader consumes lies beyond its first cursor. */
  lemma PassedIsNewer(r: Reader, looks: seq<Look>, from: int)
    requires looks != [] && AppendOnly(looks) && Attached(r, looks[0].log) && r.cursor == Some(from)
    ensures forall row :: row in PollAll(r, looks).consumed ==> row.relevant && from < row.id
  {
    ExactlyOnce(r, looks);
    var rows, n := looks[|looks| - 1].log.rows, |looks|;
    assert Ascending(rows);
    hide AppendOnly, PollAll, CursorAt, Segments, Ascending;
    SegmentsExact(rows, r, looks, n);
    forall row | row in PollAll(r, looks).consumed ensures row.relevant && from < row.id {
      var i: nat :| i < n && CursorAt(r, looks, i) < row.id <= CursorAt(r, looks, i + 1) && row.ts >= looks[i].since;
      CursorsRise(r, looks, i);
    }
  }

  lemma NewestGrows(r: Reader, older: LogView, newer: LogView)
    requires AtNewest(r, older) && older.identity == newer.identity && older.rows <= newer.rows
    requires Ascending(newer.rows) && PositiveIds(newer.rows)
    ensures r.cursor.value <= MaxId(newer.rows)
  {
    if older.rows != [] {
      assert older.rows[|older.rows| - 1] == newer.rows[|older.rows| - 1];
      var row :| row in older.rows && row.id == r.cursor.value;
      var k :| 0 <= k < |older.rows| && older.rows[k] == row;
      assert newer.rows[k] == row;
    } else if newer.rows != [] {
      assert newer.rows[|newer.rows| - 1] in newer.rows;
    }
  }

  lemma {:induction false} CursorsRise(r: Reader, looks: seq<Look>, i: nat)
    requires i <= |looks| && forall k: nat :: k < |looks| ==> CursorAt(r, looks, k) <= CursorAt(r, looks, k + 1)
    ensures CursorAt(r, looks, 0) <= CursorAt(r, looks, i)
  {
    hide CursorAt;
    if i > 0 {
      CursorsRise(r, looks, i - 1);
      assert CursorAt(r, looks, i - 1) <= CursorAt(r, looks, i - 1 + 1);
    }
  }

  /** A reader that has to attach consumes, over any number of calls, nothing that its first call could see. */
  lemma NothingOldIsRead(r: Reader, looks: seq<Look>)
    requires looks != [] && AppendOnly(looks) && Unattached(r, looks[0].log)
    ensures forall row :: row in PollAll(r, looks).consumed ==> row.relevant && row !in looks[0].log.rows
  {
    var first, rest := looks[0], looks[1..];
    assert looks == [first] + rest;
    Attaches(r, first.log, first.since);
    PollAllCons(r, first, rest);
    OnlyNewer(Poll(r, first.log, first.since).reader, first, rest);
    hide Poll, PollAll;
  }
}
