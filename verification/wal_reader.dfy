/** The reader as the program runs it: loops over lines, records and kinds (src/wal.rs:131-316),
    and what its report counts. */
module WalReader {
  import opened Wrappers
  import opened Json
  import opened Wal
  import opened WalRecovery

  // ---------------------------------------------------------------- sums over a map

  lemma {:induction false} SumMapAny(m: map<string, nat>, k: string)
    requires k in m
    ensures SumMap(m) == m[k] + SumMap(m - {k})
  {
    var j :| j in m && SumMap(m) == m[j] + SumMap(m - {j});
    if j != k {
      SumMapAny(m - {j}, k);
      SumMapAny(m - {k}, j);
      assert (m - {j}) - {k} == (m - {k}) - {j};
    }
  }

  lemma {:induction false} BumpSum(m: map<string, nat>, k: string)
    ensures SumMap(Bump(m, k)) == SumMap(m) + 1
  {
    var b := Bump(m, k);
    SumMapAny(b, k);
    assert b - {k} == m - {k};
    if k in m {
      SumMapAny(m, k);
    } else {
      assert m - {k} == m;
    }
  }

  lemma {:induction false} TallySum(events: seq<Value>)
    ensures SumMap(Tally(events)) == |events|
  {
    if events != [] {
      TallySum(events[..|events| - 1]);
      BumpSum(Tally(events[..|events| - 1]), EventKind(events[|events| - 1]));
    }
  }

  /** How many events carry a kind. */
  function Count(events: seq<Value>, kind: string): nat {
    if events == [] then 0
    else Count(events[..|events| - 1], kind) + if EventKind(events[|events| - 1]) == kind then 1 else 0
  }

  lemma {:induction false} TallyCounts(events: seq<Value>, kind: string)
    ensures Count(events, kind) == if kind in Tally(events) then Tally(events)[kind] else 0
    ensures kind in Tally(events) ==> Tally(events)[kind] > 0
  {
    hide EventKind;
    if events != [] {
      TallyCounts(events[..|events| - 1], kind);
    }
  }

  lemma {:induction false} UnknownKinds(events: seq<Value>, kind: string)
    ensures Count(Unknown(events), kind) == if IsKnownKind(kind) then 0 else Count(events, kind)
    ensures |Unknown(events)| <= |events|
  {
    hide EventKind, IsKnownKind;
    if events != [] {
      var e := events[|events| - 1];
      var before := Unknown(events[..|events| - 1]);
      UnknownKinds(events[..|events| - 1], kind);
      if !IsKnownKind(EventKind(e)) {
        assert Unknown(events) == before + [e];
        assert (before + [e])[..|before|] == before;
      } else {
        assert Unknown(events) == before;
      }
    }
  }

  /** The counts of an error-free report: one entry per event, by kind, unknown kinds apart. */
  lemma {:induction false} ReportCounts(c: Codec, raws: seq<RawLine>, upTo: Option<nat>, kind: string)
    requires ReadRaw(c, raws, upTo).report.error.None?
    ensures var r := ReadRaw(c, raws, upTo);
            && r.report.selectedEvents == r.report.decodedRecords == |r.events| == SumMap(r.report.kindCounts)
            && Count(r.events, kind) == (if kind in r.report.kindCounts then r.report.kindCounts[kind] else 0)
            && r.report.unknownKindCount == |Unknown(r.events)| == SumMap(r.report.unknownKinds)
            && (kind in r.report.unknownKinds <==> kind in r.report.kindCounts && !IsKnownKind(kind))
            && (kind in r.report.unknownKinds ==> r.report.unknownKinds[kind] == r.report.kindCounts[kind])
  {
    hide Records, FileVersion, FirstNonBlank, GoodPrefix, TailBytes, IsKnownKind;
    var events := ReadRaw(c, raws, upTo).events;
    TallySum(events);
    TallySum(Unknown(events));
    TallyCounts(events, kind);
    TallyCounts(Unknown(events), kind);
    UnknownKinds(events, kind);
  }

  // ---------------------------------------------------------------- the loops

  method ReadUntil(file: bytes, pos: nat) returns (n: nat)
    requires pos <= |file|
    ensures n == LineLength(file[pos..])
  {
    n := 0;
    var done := false;
    while pos + n < |file| && !done
      invariant pos + n <= |file|
      invariant LineLength(file[pos..]) == n + if done then 0 else LineLength(file[pos + n..])
    {
      assert file[pos + n..][1..] == file[pos + n + 1..];
      done := file[pos + n] == LF;
      n := n + 1;
    }
  }

  method DropLineEnding(line: bytes) returns (buf: bytes)
    ensures buf == StripEol(line)
  {
    buf := line;
    while buf != [] && (buf[|buf| - 1] == LF || buf[|buf| - 1] == CR)
      invariant StripEol(buf) == StripEol(line)
      decreases |buf|
    {
      buf := buf[..|buf| - 1];
    }
  }

  method SplitLines(c: Codec, file: bytes) returns (raws: seq<RawLine>)
    ensures raws == RawLines(c, file, 0)
  {
    raws := [];
    var cumulative := 0;
    SplitFrom(c, file);
    hide RawLines, StripEol, LineLength, ReadTo;
    while cumulative < |file|
      invariant cumulative <= |file|
      invariant ReadTo(c, file, cumulative, raws)
    {
      var n := ReadUntil(file, cumulative);
      var buf := DropLineEnding(file[cumulative..cumulative + n]);
      NextLine(c, file, cumulative, n, buf, raws);
      raws := raws + [RawLine(c.lossy(buf), n, cumulative + n)];
      cumulative := cumulative + n;
    }
    SplitDone(c, file, raws);
  }

  /** The lines before a position, followed by those behind it, are all the lines. */
  ghost predicate ReadTo(c: Codec, file: bytes, at: nat, raws: seq<RawLine>)
    requires at <= |file|
  {
    raws + RawLines(c, file[at..], at) == RawLines(c, file, 0)
  }

  lemma {:induction false} SplitFrom(c: Codec, file: bytes)
    ensures ReadTo(c, file, 0, [])
  {
    assert file[0..] == file;
    hide RawLines;
    assert [] + RawLines(c, file, 0) == RawLines(c, file, 0);
  }

  lemma {:induction false} SplitDone(c: Codec, file: bytes, raws: seq<RawLine>)
    requires ReadTo(c, file, |file|, raws)
    ensures raws == RawLines(c, file, 0)
  {
    assert RawLines(c, file[|file|..], |file|) == [];
    hide RawLines;
    assert raws + [] == raws;
  }

  lemma {:induction false} NextLine(c: Codec, file: bytes, at: nat, n: nat, buf: bytes, raws: seq<RawLine>)
    requires at < |file| && n == LineLength(file[at..]) && buf == StripEol(file[at..at + n])
      && ReadTo(c, file, at, raws)
    ensures at + n <= |file| && ReadTo(c, file, at + n, raws + [RawLine(c.lossy(buf), n, at + n)])
  {
    var rest := file[at..];
    FirstRaw(c, rest, at, n);
    assert rest[..n] == file[at..at + n] && rest[n..] == file[at + n..];
    hide RawLines, StripEol, LineLength;
    var line, later := RawLine(c.lossy(buf), n, at + n), RawLines(c, file[at + n..], at + n);
    assert raws + ([line] + later) == raws + [line] + later;
  }

  method FindVersion(c: Codec, raws: seq<RawLine>) returns (version: nat, first: Option<nat>)
    ensures first == FirstNonBlank(raws) && version == FileVersion(c, raws)
  {
    version, first := 0, None;
    var i := 0;
    while i < |raws| && first.None?
      invariant i <= |raws|
      invariant first.None? ==> version == 0 && forall j :: 0 <= j < i ==> Blank(raws[j])
      invariant first.Some? ==> first == FirstNonBlank(raws) && version == FileVersion(c, raws)
      decreases |raws| - i, first.None?
    {
      if !Blank(raws[i]) {
        first := Some(i);
        assert FirstNonBlank(raws) == Some(i);
        version := AnnouncedVersion(c, raws[i]);
      }
      i := i + 1;
    }
  }

  method DecodeLines(c: Codec, raws: seq<RawLine>, v1: bool, header: Option<nat>) returns (recs: seq<Rec>)
    ensures recs == Records(c, raws, v1, header)
  {
    hide Blank, DecodeWalLine, IsHeaderRecord;
    recs := [];
    for i := 0 to |raws|
      invariant recs == Records(c, raws[..i], v1, header)
    {
      assert raws[..i + 1][..i] == raws[..i];
      if header != Some(i) && !Blank(raws[i]) {
        match DecodeWalLine(c, Trim(raws[i].text), v1)
        case Ok(v) =>
          if !IsHeaderRecord(v) {
            recs := recs + [Rec(Some(v), raws[i].size, raws[i].cumEnd)];
          }
        case Corrupt =>
          recs := recs + [Rec(None, raws[i].size, raws[i].cumEnd)];
      }
    }
    assert raws[..|raws|] == raws;
  }

  method CorruptTail(recs: seq<Rec>) returns (count: nat, size: nat)
    ensures count == |recs| - GoodPrefix(recs) && size == TailBytes(recs[GoodPrefix(recs)..])
  {
    count, size := 0, 0;
    while count < |recs| && recs[|recs| - 1 - count].ev.None?
      invariant count <= |recs|
      invariant forall i :: |recs| - count <= i < |recs| ==> recs[i].ev.None?
      invariant size == TailBytes(recs[|recs| - count..])
    {
      assert recs[|recs| - 1 - count..][1..] == recs[|recs| - count..];
      size := size + recs[|recs| - 1 - count].size;
      count := count + 1;
    }
  }

  lemma {:induction false} CountNext(events: seq<Value>, ev: Value)
    ensures Tally(events + [ev]) == Bump(Tally(events), EventKind(ev))
    ensures Tally(Unknown(events + [ev])) ==
            if IsKnownKind(EventKind(ev)) then Tally(Unknown(events)) else Bump(Tally(Unknown(events)), EventKind(ev))
  {
    hide EventKind, IsKnownKind, Bump;
    assert (events + [ev])[..|events|] == events;
    if IsKnownKind(EventKind(ev)) {
      assert Unknown(events + [ev]) == Unknown(events) + [];
      assert Unknown(events) + [] == Unknown(events);
    } else {
      var u := Unknown(events) + [ev];
      assert Unknown(events + [ev]) == u;
      assert u[..|u| - 1] == Unknown(events);
    }
  }

  lemma {:induction false} SelectNext(recs: seq<Rec>, upTo: Option<nat>, i: nat)
    requires i < |recs|
    ensures Selected(recs[..i + 1], upTo) == Selected(recs[..i], upTo)
            + if (upTo.Some? ==> recs[i].cumEnd <= upTo.value) && recs[i].ev.Some? then [recs[i].ev.value] else []
  {
    assert recs[..i + 1][..i] == recs[..i];
  }

  method SelectAndCount(recs: seq<Rec>, upTo: Option<nat>)
    returns (events: seq<Value>, decoded: nat, kinds: map<string, nat>, unknown: map<string, nat>)
    ensures events == Selected(recs, upTo) && decoded == |events|
    ensures kinds == Tally(events) && unknown == Tally(Unknown(events))
  {
    events, decoded, kinds, unknown := [], 0, map[], map[];
    hide EventKind, IsKnownKind, Bump, Tally, Unknown, Selected;
    EmptyCounts(recs, upTo);
    for i := 0 to |recs|
      invariant events == Selected(recs[..i], upTo) && decoded == |events|
      invariant kinds == Tally(events) && unknown == Tally(Unknown(events))
    {
      var r := recs[i];
      SelectNext(recs, upTo, i);
      if (upTo.Some? ==> r.cumEnd <= upTo.value) && r.ev.Some? {
        var kind := EventKind(r.ev.value);
        CountNext(events, r.ev.value);
        decoded := decoded + 1;
        kinds := Bump(kinds, kind);
        if !IsKnownKind(kind) {
          unknown := Bump(unknown, kind);
        }
        events := events + [r.ev.value];
      }
    }
    assert recs[..|recs|] == recs;
  }

  lemma {:induction false} EmptyCounts(recs: seq<Rec>, upTo: Option<nat>)
    ensures Selected(recs[..0], upTo) == [] && Tally([]) == map[] && Tally(Unknown([])) == map[]
  {}

  method SumValues(m: map<string, nat>) returns (sum: nat)
    ensures sum == SumMap(m)
  {
    sum := 0;
    var rest := m;
    while rest != map[]
      invariant sum + SumMap(rest) == SumMap(m)
      decreases |rest|
    {
      var k :| k in rest;
      SumMapAny(rest, k);
      sum := sum + rest[k];
      assert |rest - {k}| < |rest| by { assert (rest - {k}).Keys == rest.Keys - {k}; }
      rest := rest - {k};
    }
  }

  /** Reading a log, as the broker and the inspection tool do. */
  method ReadWalEvents(c: Codec, file: Option<bytes>, upTo: Option<nat>) returns (r: ReadResult)
    ensures r == Read(c, file, upTo)
  {
    hide RawLines, Records, FileVersion, FirstNonBlank, Selected, SumMap, Tally, Unknown, TailBytes;
    if file.None? {
      return ReadResult([], EmptyReport(WAL_VERSION, None));
    }
    var raws := SplitLines(c, file.value);
    var version, first := FindVersion(c, raws);
    if version > WAL_VERSION {
      return ReadResult([], EmptyReport(version, Some(VersionReject(version))));
    }
    var v1 := version >= 1;
    var header := if v1 then first else None;
    var recs := DecodeLines(c, raws, v1, header);
    var tailCorrupt, truncated := 0, 0;
    if v1 {
      tailCorrupt, truncated := CorruptTail(recs);
      if exists i :: 0 <= i < |recs| - tailCorrupt && recs[i].ev.None? {
        return ReadResult([], EmptyReport(version, Some(MidCorruption)));
      }
    }
    var good := |recs| - tailCorrupt;
    if !v1 {
      assert recs[good..] == [];
      EmptyTail();
    }
    HeaderPresent(c, raws);
    var prefix :=
      if v1 then (if good > 0 then recs[good - 1].cumEnd else raws[header.value].cumEnd)
      else if raws == [] then 0 else raws[|raws| - 1].cumEnd;
    var events, decoded, kinds, unknown := SelectAndCount(recs[..good], upTo);
    var unknownCount := SumValues(unknown);
    r := ReadResult(events, Report(version, |events|, decoded, tailCorrupt, truncated, prefix,
                                   unknownCount, kinds, unknown, None));
  }

  lemma {:induction false} EmptyTail()
    ensures TailBytes([]) == 0
  {}

  lemma {:induction false} HeaderPresent(c: Codec, raws: seq<RawLine>)
    ensures FileVersion(c, raws) >= 1 ==> FirstNonBlank(raws).Some? && FirstNonBlank(raws).value < |raws|
  {
    hide AnnouncedVersion;
  }
}
