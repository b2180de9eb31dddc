/** What recovery guarantees about the log reader (src/wal.rs, docs/engineering/wal-event-inventory.md). */
module WalRecovery {
  import opened Wrappers
  import opened Json
  import opened Wal

  // ---------------------------------------------------------------- lines and byte positions

  /** Bytes covered by the first k lines. */
  function End(raws: seq<RawLine>, k: nat, base: nat): nat
    requires k <= |raws|
  {
    if k == 0 then base else raws[k - 1].cumEnd
  }

  ghost predicate Ordered(raws: seq<RawLine>) {
    forall i, j :: 0 <= i < j < |raws| ==> raws[i].cumEnd < raws[j].cumEnd
  }

  lemma {:induction false} RawOrdered(c: Codec, file: bytes, base: nat)
    ensures var raws := RawLines(c, file, base);
            && Ordered(raws) && (forall i :: 0 <= i < |raws| ==> raws[i].cumEnd > base)
            && End(raws, |raws|, base) == base + |file|
    decreases |file|
  {
    hide StripEol;
    if file != [] {
      var n := LineLength(file);
      RawOrdered(c, file[n..], base + n);
    }
  }

  lemma {:induction false} LineLengthPrefix(file: bytes, p: nat)
    requires LineLength(file) <= p <= |file|
    ensures LineLength(file[..p]) == LineLength(file)
  {
    if file != [] && file[0] != LF {
      assert file[..p][1..] == file[1..][..p - 1];
      LineLengthPrefix(file[1..], p - 1);
    }
  }

  /** Cutting a file after a whole number of lines keeps exactly those lines. */
  lemma {:induction false} RawPrefix(c: Codec, file: bytes, base: nat, k: nat)
    requires k <= |RawLines(c, file, base)|
    ensures var raws := RawLines(c, file, base);
            var p := End(raws, k, base) - base;
            0 <= p <= |file| && RawLines(c, file[..p], base) == raws[..k]
    decreases |file|
  {
    NoRaw(c, base);
    hide *;
    if k == 0 {
      PrefixNone(c, file, base);
    } else {
      var n := LineLength(file);
      FirstRaw(c, file, base, n);
      var line, tail := RawLine(c.lossy(StripEol(file[..n])), n, base + n), RawLines(c, file[n..], base + n);
      RawPrefix(c, file[n..], base + n, k - 1);
      var q := End(tail, k - 1, base + n) - (base + n);
      PrefixStep(c, file, base, n, q, line, tail[..k - 1]);
      PrefixRejoins(c, file, base, n, q, k, line, tail);
    }
  }

  lemma {:induction false} NoRaw(c: Codec, base: nat)
    ensures RawLines(c, [], base) == []
  {}

  lemma {:induction false} PrefixNone(c: Codec, file: bytes, base: nat)
    ensures End(RawLines(c, file, base), 0, base) == base && RawLines(c, file[..0], base) == []
  {
    assert file[..0] == [];
  }

  lemma {:induction false} PrefixRejoins(c: Codec, file: bytes, base: nat, n: nat, q: nat, k: nat,
                                         line: RawLine, tail: seq<RawLine>)
    requires n + q <= |file| && 1 <= k <= 1 + |tail| && line.cumEnd == base + n
    requires q == End(tail, k - 1, base + n) - (base + n)
    requires RawLines(c, file, base) == [line] + tail
    requires RawLines(c, file[..n + q], base) == [line] + tail[..k - 1]
    ensures
      var raws := RawLines(c, file, base);
      End(raws, k, base) - base == n + q && RawLines(c, file[..n + q], base) == raws[..k]
  {
    EndStep(line, tail, k, base);
    TakeStep(line, tail, k);
    hide *;
  }

  lemma {:induction false} TakeStep(line: RawLine, tail: seq<RawLine>, k: nat)
    requires 1 <= k <= 1 + |tail|
    ensures ([line] + tail)[..k] == [line] + tail[..k - 1]
  {}

  lemma {:induction false} EndStep(line: RawLine, tail: seq<RawLine>, k: nat, base: nat)
    requires 1 <= k <= 1 + |tail|
    ensures End([line] + tail, k, base) == End(tail, k - 1, line.cumEnd)
  {}

  lemma {:induction false} FirstRaw(c: Codec, rest: bytes, base: nat, n: nat)
    requires rest != [] && n == LineLength(rest)
    ensures RawLines(c, rest, base)
      == [RawLine(c.lossy(StripEol(rest[..n])), n, base + n)] + RawLines(c, rest[n..], base + n)
  {
    hide StripEol, LineLength;
  }

  lemma {:induction false} PrefixStep(c: Codec, file: bytes, base: nat, n: nat, q: nat, line: RawLine,
                                      kept: seq<RawLine>)
    requires file != [] && n == LineLength(file) && n + q <= |file|
    requires line == RawLine(c.lossy(StripEol(file[..n])), n, base + n)
    requires RawLines(c, file[n..][..q], base + n) == kept
    ensures RawLines(c, file[..n + q], base) == [line] + kept
  {
    var g := file[..n + q];
    LineLengthPrefix(file, n + q);
    hide RawLines, StripEol, LineLength;
    assert g[..n] == file[..n];
    assert g[n..] == file[n..][..q];
    FirstRaw(c, g, base, n);
  }

  predicate EndsInLf(b: bytes) { b != [] && b[|b| - 1] == LF }

  lemma {:induction false} LineLengthAppend(a: bytes, b: bytes)
    requires EndsInLf(a)
    ensures LineLength(a + b) == LineLength(a)
    ensures LineLength(a) < |a| ==> EndsInLf(a[LineLength(a)..])
  {
    if a[0] != LF {
      assert (a + b)[1..] == a[1..] + b;
      LineLengthAppend(a[1..], b);
    }
  }

  /** Lines added behind a complete line leave the earlier lines as they were. */
  lemma {:induction false} RawConcat(c: Codec, a: bytes, b: bytes, base: nat)
    requires a == [] || EndsInLf(a)
    ensures RawLines(c, a + b, base) == RawLines(c, a, base) + RawLines(c, b, base + |a|)
    decreases |a|
  {
    hide RawLines, StripEol;
    if a == [] {
      ConcatNone(c, b, base);
    } else {
      var n := LineLength(a);
      LineLengthAppend(a, b);
      hide LineLength;
      assert a[n..] == [] || EndsInLf(a[n..]);
      RawConcat(c, a[n..], b, base + n);
      ConcatStep(c, a, b, base, n);
    }
  }

  lemma {:induction false} ConcatNone(c: Codec, b: bytes, base: nat)
    ensures RawLines(c, [] + b, base) == RawLines(c, [], base) + RawLines(c, b, base)
  {
    NoRaw(c, base);
    hide *;
    EmptyFirst(b);
    EmptyFirst(RawLines(c, b, base));
  }

  lemma {:induction false} EmptyFirst<T>(s: seq<T>)
    ensures [] + s == s
  {}

  lemma {:induction false} ConcatStep(c: Codec, a: bytes, b: bytes, base: nat, n: nat)
    requires a != [] && n == LineLength(a) && n == LineLength(a + b)
    requires RawLines(c, a[n..] + b, base + n) == RawLines(c, a[n..], base + n) + RawLines(c, b, base + |a|)
    ensures RawLines(c, a + b, base) == RawLines(c, a, base) + RawLines(c, b, base + |a|)
  {
    FirstRaw(c, a, base, n);
    FirstRaw(c, a + b, base, n);
    hide *;
    CutInFirst(a, b, n);
    Regroup([RawLine(c.lossy(StripEol(a[..n])), n, base + n)], RawLines(c, a[n..], base + n),
            RawLines(c, b, base + |a|));
  }

  lemma {:induction false} CutInFirst<T>(a: seq<T>, b: seq<T>, n: nat)
    requires n <= |a|
    ensures (a + b)[..n] == a[..n] && (a + b)[n..] == a[n..] + b
  {}

  lemma {:induction false} Regroup<T>(x: seq<T>, y: seq<T>, z: seq<T>)
    ensures x + (y + z) == x + y + z
  {}

  // ---------------------------------------------------------------- records and lines

  lemma {:induction false} RecordsBound(c: Codec, raws: seq<RawLine>, v1: bool, h: Option<nat>)
    requires Ordered(raws)
    ensures forall r :: r in Records(c, raws, v1, h) ==> raws != [] && r.cumEnd <= raws[|raws| - 1].cumEnd
  {
    hide LineRecord;
    if raws != [] {
      RecordsBound(c, raws[..|raws| - 1], v1, h);
    }
  }

  /** The records of one line more. */
  lemma {:induction false} RecordsLast(c: Codec, raws: seq<RawLine>, v1: bool, h: Option<nat>)
    requires raws != []
    ensures
      var n := |raws| - 1;
      Records(c, raws, v1, h)
        == Records(c, raws[..n], v1, h) + (if h == Some(n) then [] else LineRecord(c, raws[n], v1))
  {
    hide LineRecord;
  }

  /** The records of the first k lines come first; those behind them lie further into the file. */
  ghost predicate SplitAt(raws: seq<RawLine>, k: nat, a: seq<Rec>, b: seq<Rec>) {
    && a <= b
    && (forall i :: |a| <= i < |b| ==> k < |raws| && raws[k].cumEnd <= b[i].cumEnd)
  }

  lemma {:induction false} SplitAtMore(raws: seq<RawLine>, k: nat, a: seq<Rec>, b: seq<Rec>, last: seq<Rec>)
    requires Ordered(raws) && k < |raws| && SplitAt(raws[..|raws| - 1], k, a, b)
    requires forall r :: r in last ==> r.cumEnd == raws[|raws| - 1].cumEnd
    ensures SplitAt(raws, k, a, b + last)
  {
    forall i | |a| <= i < |b + last| ensures raws[k].cumEnd <= (b + last)[i].cumEnd {
      if i < |b| {
        assert (b + last)[i] == b[i];
        assert raws[..|raws| - 1][k] == raws[k];
      } else {
        assert (b + last)[i] in last;
      }
    }
  }

  lemma {:induction false} RecordsSplit(c: Codec, raws: seq<RawLine>, v1: bool, h: Option<nat>, k: nat)
    requires Ordered(raws) && k <= |raws|
    ensures SplitAt(raws, k, Records(c, raws[..k], v1, h), Records(c, raws, v1, h))
  {
    var n := |raws|;
    hide Records, LineRecord;
    if k == n {
      assert raws[..k] == raws;
    } else {
      RecordsLast(c, raws, v1, h);
      assert raws[..n - 1][..k] == raws[..k];
      assert Ordered(raws[..n - 1]);
      hide SplitAt, Ordered;
      RecordsSplit(c, raws[..n - 1], v1, h, k);
      SplitAtMore(raws, k, Records(c, raws[..k], v1, h), Records(c, raws[..n - 1], v1, h),
                  if h == Some(n - 1) then [] else LineRecord(c, raws[n - 1], v1));
    }
  }

  ghost predicate OrderedRecs(recs: seq<Rec>) {
    forall i, j :: 0 <= i < j < |recs| ==> recs[i].cumEnd < recs[j].cumEnd
  }

  lemma {:induction false} RecordsOrdered(c: Codec, raws: seq<RawLine>, v1: bool, h: Option<nat>)
    requires Ordered(raws)
    ensures OrderedRecs(Records(c, raws, v1, h))
  {
    hide LineRecord;
    if raws != [] {
      var n := |raws| - 1;
      RecordsOrdered(c, raws[..n], v1, h);
      RecordsBound(c, raws[..n], v1, h);
    }
  }

  /** The line a record came from. */
  lemma {:induction false} RecordSource(c: Codec, raws: seq<RawLine>, v1: bool, h: Option<nat>, i: nat) returns (k: nat)
    requires i < |Records(c, raws, v1, h)|
    ensures k < |raws| && h != Some(k)
    ensures Records(c, raws[..k], v1, h) == Records(c, raws, v1, h)[..i]
    ensures LineRecord(c, raws[k], v1) == [Records(c, raws, v1, h)[i]]
  {
    hide LineRecord;
    var n := |raws| - 1;
    var before := Records(c, raws[..n], v1, h);
    if i < |before| {
      k := RecordSource(c, raws[..n], v1, h, i);
      assert raws[..n][..k] == raws[..k];
    } else {
      k := n;
    }
  }

  lemma {:induction false} RecordsConcat(c: Codec, a: seq<RawLine>, b: seq<RawLine>, v1: bool, h: Option<nat>)
    requires h.Some? ==> h.value < |a|
    ensures Records(c, a + b, v1, h) == Records(c, a, v1, h) + Records(c, b, v1, None)
  {
    hide Records;
    if b == [] {
      RecordsNone(c, a, v1, h);
    } else {
      RecordsConcat(c, a, b[..|b| - 1], v1, h);
      RecordsConcatStep(c, a, b, v1, h);
    }
  }

  lemma {:induction false} RecordsConcatStep(c: Codec, a: seq<RawLine>, b: seq<RawLine>, v1: bool, h: Option<nat>)
    requires b != [] && (h.Some? ==> h.value < |a|)
    requires
      var init := b[..|b| - 1];
      Records(c, a + init, v1, h) == Records(c, a, v1, h) + Records(c, init, v1, None)
    ensures Records(c, a + b, v1, h) == Records(c, a, v1, h) + Records(c, b, v1, None)
  {
    var n := |b| - 1;
    RecordsLast(c, b, v1, None);
    RecordsLast(c, a + b, v1, h);
    TakeIntoSecond(a, b, n);
    assert h != Some(|a| + n);
    hide *;
    Regroup(Records(c, a, v1, h), Records(c, b[..n], v1, None), LineRecord(c, b[n], v1));
  }

  lemma {:induction false} TakeIntoSecond<T>(a: seq<T>, b: seq<T>, n: nat)
    requires n <= |b|
    ensures (a + b)[..|a| + n] == a + b[..n]
    ensures n < |b| ==> (a + b)[|a| + n] == b[n]
  {}

  lemma {:induction false} RecordsNone(c: Codec, a: seq<RawLine>, v1: bool, h: Option<nat>)
    ensures Records(c, a + [], v1, h) == Records(c, a, v1, h) + Records(c, [], v1, None)
  {
    assert a + [] == a;
    hide LineRecord;
    EmptyLast(Records(c, a, v1, h));
  }

  lemma {:induction false} EmptyLast<T>(s: seq<T>)
    ensures s + [] == s
  {}

  lemma {:induction false} BlankRecords(c: Codec, raws: seq<RawLine>, v1: bool, h: Option<nat>)
    requires forall i :: 0 <= i < |raws| ==> Blank(raws[i])
    ensures Records(c, raws, v1, h) == []
  {
    if raws != [] {
      BlankRecords(c, raws[..|raws| - 1], v1, h);
    }
  }

  lemma {:induction false} FirstNonBlankPrefix(raws: seq<RawLine>, k: nat)
    requires k <= |raws|
    ensures FirstNonBlank(raws[..k]) ==
            var f := FirstNonBlank(raws); if f.Some? && f.value < k then f else None
  {
    var f, g := FirstNonBlank(raws), FirstNonBlank(raws[..k]);
    assert forall i :: 0 <= i < k ==> raws[..k][i] == raws[i];
    if g.Some? {
      assert raws[..k][g.value] == raws[g.value];
    }
  }

  // ---------------------------------------------------------------- selection

  lemma {:induction false} SelectedConcat(a: seq<Rec>, b: seq<Rec>, upTo: Option<nat>)
    ensures Selected(a + b, upTo) == Selected(a, upTo) + Selected(b, upTo)
  {
    if b == [] {
      assert a + b == a;
    } else {
      var n := |b| - 1;
      assert (a + b)[..|a| + n] == a + b[..n];
      SelectedConcat(a, b[..n], upTo);
    }
  }

  lemma {:induction false} SelectedNone(recs: seq<Rec>, upTo: Option<nat>)
    requires forall i :: 0 <= i < |recs| ==> recs[i].ev.None? || (upTo.Some? && recs[i].cumEnd > upTo.value)
    ensures Selected(recs, upTo) == []
  {
    if recs != [] {
      SelectedNone(recs[..|recs| - 1], upTo);
    }
  }

  lemma {:induction false} SelectedAll(recs: seq<Rec>, off: nat)
    requires forall i :: 0 <= i < |recs| ==> recs[i].cumEnd <= off
    ensures Selected(recs, Some(off)) == Selected(recs, None)
  {
    if recs != [] {
      SelectedAll(recs[..|recs| - 1], off);
    }
  }

  /** Records at most `off` bytes in, of records in file order. */
  function Reached(recs: seq<Rec>, off: nat): (m: nat)
    ensures m <= |recs|
  {
    if recs == [] || recs[0].cumEnd > off then 0 else 1 + Reached(recs[1..], off)
  }

  lemma {:induction false} ReachedSplits(recs: seq<Rec>, off: nat)
    requires OrderedRecs(recs)
    ensures var m := Reached(recs, off);
            && (forall i :: 0 <= i < m ==> recs[i].cumEnd <= off)
            && (forall i :: m <= i < |recs| ==> recs[i].cumEnd > off)
  {
    if recs != [] && recs[0].cumEnd <= off {
      ReachedSplits(recs[1..], off);
    }
  }

  lemma {:induction false} ReachedIs(recs: seq<Rec>, off: nat, m: nat)
    requires m <= |recs|
    requires forall i :: 0 <= i < m ==> recs[i].cumEnd <= off
    requires m < |recs| ==> recs[m].cumEnd > off
    ensures Reached(recs, off) == m
  {
    if m > 0 {
      ReachedIs(recs[1..], off, m - 1);
    }
  }

  /** Selecting by offset is selecting a prefix of the records. */
  lemma {:induction false} SelectedUpTo(recs: seq<Rec>, off: nat)
    requires OrderedRecs(recs)
    ensures Selected(recs, Some(off)) == Selected(recs[..Reached(recs, off)], None)
  {
    ReachedSplits(recs, off);
    hide Selected, Reached, OrderedRecs;
    SelectedSplit(recs, off, Reached(recs, off));
  }

  lemma {:induction false} SelectedSplit(recs: seq<Rec>, off: nat, m: nat)
    requires m <= |recs|
    requires forall i :: 0 <= i < m ==> recs[i].cumEnd <= off
    requires forall i :: m <= i < |recs| ==> recs[i].cumEnd > off
    ensures Selected(recs, Some(off)) == Selected(recs[..m], None)
  {
    hide Selected;
    var a, b := recs[..m], recs[m..];
    SelectedNone(b, Some(off));
    SelectedAll(a, off);
    SelectedConcat(a, b, Some(off));
    assert a + b == recs;
    assert Selected(a, None) + [] == Selected(a, None);
  }

  // ---------------------------------------------------------------- when a log is refused

  ghost predicate Refused(recs: seq<Rec>) {
    exists i, j :: 0 <= i < j < |recs| && recs[i].ev.None? && recs[j].ev.Some?
  }

  lemma {:induction false} MidCorruptIff(recs: seq<Rec>)
    ensures MidCorrupt(recs, GoodPrefix(recs)) <==> Refused(recs)
  {
    var good := GoodPrefix(recs);
    if MidCorrupt(recs, good) {
      var i :| 0 <= i < good && recs[i].ev.None?;
      assert i < good - 1 && recs[good - 1].ev.Some?;
    }
  }

  lemma {:induction false} AllDecodable(recs: seq<Rec>)
    ensures Selected(recs[..GoodPrefix(recs)], None) == Selected(recs, None)
  {
    var good := GoodPrefix(recs);
    assert recs == recs[..good] + recs[good..];
    SelectedConcat(recs[..good], recs[good..], None);
    SelectedNone(recs[good..], None);
  }

  ghost function V1Records(c: Codec, raws: seq<RawLine>): seq<Rec> {
    Records(c, raws, true, FirstNonBlank(raws))
  }

  /** A log of a newer version is refused; a v1 log is refused exactly when some decodable record
      follows a corrupt one; any other v1 log yields every decodable record, in order. */
  lemma {:induction false} RefusedExactly(c: Codec, raws: seq<RawLine>, upTo: Option<nat>)
    ensures var r, version, recs := ReadRaw(c, raws, upTo), FileVersion(c, raws), V1Records(c, raws);
            && (r.report.error == Some(VersionReject(version)) <==> version > WAL_VERSION)
            && (r.report.error == Some(MidCorruption) <==> version == 1 && Refused(recs))
            && (r.report.error.Some? ==> r.events == [])
            && (version == 1 && r.report.error.None? && upTo.None? ==> r.events == Selected(recs, None))
  {
    hide Records;
    MidCorruptIff(V1Records(c, raws));
    AllDecodable(V1Records(c, raws));
  }

  // ---------------------------------------------------------------- reading up to an offset

  /** The records of a file, read in the mode its first line announces. */
  ghost function ModeRecords(c: Codec, raws: seq<RawLine>): seq<Rec> {
    var v1 := FileVersion(c, raws) >= 1;
    Records(c, raws, v1, if v1 then FirstNonBlank(raws) else None)
  }

  /** How many of them recovery serves: all but the corrupt tail, or all in a version 0 log. */
  function Kept(recs: seq<Rec>, v1: bool): (n: nat)
    ensures n <= |recs|
  {
    if v1 then GoodPrefix(recs) else |recs|
  }

  lemma {:induction false} ReadOutcome(c: Codec, raws: seq<RawLine>, upTo: Option<nat>)
    ensures var r, version, recs := ReadRaw(c, raws, upTo), FileVersion(c, raws), ModeRecords(c, raws);
            && (r.report.error.None? <==> version <= WAL_VERSION && (version >= 1 ==> !Refused(recs)))
            && r.events == if r.report.error.None? then Selected(recs[..Kept(recs, version >= 1)], upTo) else []
  {
    MidCorruptIff(ModeRecords(c, raws));
  }

  lemma {:induction false} OffsetsNestRecs(recs: seq<Rec>, a: nat, b: nat)
    requires a <= b && OrderedRecs(recs)
    ensures Selected(recs, Some(a)) <= Selected(recs, Some(b))
  {
    SelectedUpTo(recs, a);
    SelectedUpTo(recs, b);
    var m, n := Reached(recs, a), Reached(recs, b);
    ReachedSplits(recs, a);
    ReachedSplits(recs, b);
    assert m <= n;
    assert recs[..n] == recs[..m] + recs[m..n];
    SelectedConcat(recs[..m], recs[m..n], None);
  }

  /** A larger restore offset only adds events at the end. */
  lemma {:induction false} OffsetsNest(c: Codec, file: bytes, a: nat, b: nat)
    requires a <= b
    ensures Read(c, Some(file), Some(a)).events <= Read(c, Some(file), Some(b)).events
  {
    var raws := RawLines(c, file, 0);
    hide RawLines, Records, Selected, ReadRaw, FileVersion, FirstNonBlank, GoodPrefix;
    RawOrdered(c, file, 0);
    ReadOutcome(c, raws, Some(a));
    ReadOutcome(c, raws, Some(b));
    var v1 := FileVersion(c, raws) >= 1;
    RecordsOrdered(c, raws, v1, if v1 then FirstNonBlank(raws) else None);
    var recs := ModeRecords(c, raws);
    OffsetsNestRecs(recs[..Kept(recs, v1)], a, b);
  }

  /** Whole lines at most `off` bytes in. */
  function LinesWithin(raws: seq<RawLine>, off: nat): (k: nat)
    ensures k <= |raws|
  {
    if raws == [] || raws[0].cumEnd > off then 0 else 1 + LinesWithin(raws[1..], off)
  }

  lemma {:induction false} LinesWithinSplits(raws: seq<RawLine>, off: nat)
    requires Ordered(raws)
    ensures var k := LinesWithin(raws, off);
            && (forall i :: 0 <= i < k ==> raws[i].cumEnd <= off)
            && (forall i :: k <= i < |raws| ==> raws[i].cumEnd > off)
  {
    if raws != [] && raws[0].cumEnd <= off {
      LinesWithinSplits(raws[1..], off);
    }
  }

  lemma {:induction false} GoodPrefixOfCut(recs: seq<Rec>, m: nat)
    requires m <= |recs| && !Refused(recs)
    ensures GoodPrefix(recs[..m]) == if m < GoodPrefix(recs) then m else GoodPrefix(recs)
    ensures !Refused(recs[..m])
  {
    var good, g := GoodPrefix(recs), GoodPrefix(recs[..m]);
    MidCorruptIff(recs);
    assert forall i :: 0 <= i < good ==> recs[i].ev.Some?;
    assert forall i :: 0 <= i < m ==> recs[..m][i] == recs[i];
    if g > 0 {
      assert recs[..m][g - 1].ev.Some?;
    }
  }

  /** Dropping the records past the offset before or after dropping the corrupt tail is the same. */
  lemma {:induction false} CutCommutes(recs: seq<Rec>, v1: bool, m: nat, off: nat)
    requires OrderedRecs(recs) && m <= |recs| && (v1 ==> !Refused(recs))
    requires forall i :: 0 <= i < m ==> recs[i].cumEnd <= off
    requires forall i :: m <= i < |recs| ==> recs[i].cumEnd > off
    ensures v1 ==> !Refused(recs[..m])
    ensures Selected(recs[..m][..Kept(recs[..m], v1)], None) == Selected(recs[..Kept(recs, v1)], Some(off))
  {
    var kept := recs[..Kept(recs, v1)];
    if v1 {
      GoodPrefixOfCut(recs, m);
    }
    var n := if m < |kept| then m else |kept|;
    ReachedIs(kept, off, n);
    SelectedUpTo(kept, off);
    assert recs[..m][..Kept(recs[..m], v1)] == kept[..n];
  }

  lemma {:induction false} CutRecords(c: Codec, raws: seq<RawLine>, off: nat, v1: bool, h: Option<nat>)
    requires Ordered(raws)
    ensures var k, recs := LinesWithin(raws, off), Records(c, raws, v1, h);
            var m := |Records(c, raws[..k], v1, h)|;
            && m <= |recs| && recs[..m] == Records(c, raws[..k], v1, h)
            && (forall i :: 0 <= i < m ==> recs[i].cumEnd <= off)
            && (forall i :: m <= i < |recs| ==> recs[i].cumEnd > off)
  {
    hide LineRecord;
    var k := LinesWithin(raws, off);
    LinesWithinSplits(raws, off);
    RecordsSplit(c, raws, v1, h, k);
    RecordsBound(c, raws[..k], v1, h);
    var recs := Records(c, raws[..k], v1, h);
    assert forall i :: 0 <= i < |recs| ==> recs[i] in recs;
  }

  /** The cut file either announces the same version or holds no line at all. */
  lemma {:induction false} CutVersion(c: Codec, raws: seq<RawLine>, k: nat)
    requires k <= |raws|
    ensures var f := FirstNonBlank(raws);
            if f.Some? && f.value < k then
              FirstNonBlank(raws[..k]) == f && FileVersion(c, raws[..k]) == FileVersion(c, raws)
            else FirstNonBlank(raws[..k]) == None && FileVersion(c, raws[..k]) == 0
  {
    hide AnnouncedVersion;
    FirstNonBlankPrefix(raws, k);
  }

  lemma {:induction false} CutIsSelection(c: Codec, raws: seq<RawLine>, off: nat)
    requires Ordered(raws) && ReadRaw(c, raws, None).report.error.None?
    ensures var cut := raws[..LinesWithin(raws, off)];
            && ReadRaw(c, cut, None).report.error.None?
            && ReadRaw(c, cut, None).events == ReadRaw(c, raws, Some(off)).events
  {
    hide Records, Selected, ReadRaw, FileVersion, GoodPrefix, LinesWithin, Blank;
    var k := LinesWithin(raws, off);
    var v1 := FileVersion(c, raws) >= 1;
    var h := if v1 then FirstNonBlank(raws) else None;
    var recs := Records(c, raws, v1, h);
    ReadOutcome(c, raws, None);
    ReadOutcome(c, raws, Some(off));
    ReadOutcome(c, raws[..k], None);
    CutVersion(c, raws, k);
    CutRecords(c, raws, off, v1, h);
    RecordsOrdered(c, raws, v1, h);
    var m := |Records(c, raws[..k], v1, h)|;
    CutCommutes(recs, v1, m, off);
    if FirstNonBlank(raws[..k]).None? {
      BlankRecords(c, raws[..k], v1, h);
      BlankRecords(c, raws[..k], false, None);
      assert recs[..m][..Kept(recs[..m], v1)] == [];
    }
  }

  /** Reading up to an offset equals reading the file cut at the last line boundary within it. */
  lemma {:induction false} OffsetIsCut(c: Codec, file: bytes, off: nat)
    requires Read(c, Some(file), None).report.error.None?
    ensures var raws := RawLines(c, file, 0);
            var p := End(raws, LinesWithin(raws, off), 0);
            && p <= |file|
            && Read(c, Some(file[..p]), None).report.error.None?
            && Read(c, Some(file[..p]), None).events == Read(c, Some(file), Some(off)).events
  {
    hide RawLines, ReadRaw, LinesWithin;
    var raws := RawLines(c, file, 0);
    RawOrdered(c, file, 0);
    RawPrefix(c, file, 0, LinesWithin(raws, off));
    CutIsSelection(c, raws, off);
  }
}
