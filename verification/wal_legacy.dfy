/** Logs of other versions (src/wal.rs): bare JSON, one event per line, from before the header and the
    checksums; and logs that announce a version the reader does not know. */
module WalLegacy {
  import opened Wrappers
  import opened Json
  import opened Wal
  import opened WalRecovery
  import opened WalDurability
  import opened WalAppend
  import opened WalWitness

  /** A line of such a log: an event as it was written, or bytes that are no JSON. */
  datatype LegacyLine = Written(v: Value) | Garbled(b: bytes)

  function LineBytes(c: Codec, l: LegacyLine): bytes {
    match l
    case Written(v) => c.utf8(c.print_(v))
    case Garbled(b) => b
  }

  function LegacyFile(c: Codec, ls: seq<LegacyLine>): bytes {
    if ls == [] then [] else LegacyFile(c, ls[..|ls| - 1]) + (LineBytes(c, ls[|ls| - 1]) + [LF])
  }

  function Held(l: LegacyLine): seq<Value> { if l.Written? then [l.v] else [] }

  /** The events of the log, in the order they were written. */
  function Events(ls: seq<LegacyLine>): seq<Value> {
    if ls == [] then [] else Events(ls[..|ls| - 1]) + Held(ls[|ls| - 1])
  }

  /** The text is one line that parses back. */
  ghost predicate PrintsLine(c: Codec, v: Value) {
    var s := c.print_(v);
    var b := c.utf8(s);
    b != [] && LF !in b && b[|b| - 1] != CR && c.lossy(b) == s && s != [] && Trim(s) == s && c.parse(s) == Some(v)
  }

  /** Nothing a current log would hold: no header record, no envelope. */
  predicate Bare(v: Value) {
    && AsStr(Get(v, "kind")) != Some("wal_header")
    && (AsU64(Get(v, "_c")).None? || AsStr(Get(v, "_d")).None?)
  }

  ghost predicate Legible(c: Codec, l: LegacyLine) {
    match l
    case Written(v) => PrintsLine(c, v) && Bare(v)
    case Garbled(b) =>
      LF !in b && var t := Trim(c.lossy(StripEol(b + [LF]))); t == [] || c.parse(t).None?
  }

  ghost predicate AllLegible(c: Codec, ls: seq<LegacyLine>) { forall i :: 0 <= i < |ls| ==> Legible(c, ls[i]) }

  // ---------------------------------------------------------------- one line

  lemma {:induction false} EndedLine(c: Codec, f: bytes, b: bytes)
    requires (f == [] || EndsInLf(f)) && LF !in b
    ensures RawLines(c, f + (b + [LF]), 0)
      == RawLines(c, f, 0) + [RawLine(c.lossy(StripEol(b + [LF])), |b| + 1, |f| + |b| + 1)]
  {
    hide RawLines, StripEol;
    LineLengthNoLf(b);
    WholeLine(c, b + [LF], |f|);
    RawConcat(c, f, b + [LF], 0);
  }

  function RawOf(c: Codec, l: LegacyLine, before: nat): RawLine {
    var b := LineBytes(c, l);
    RawLine(c.lossy(StripEol(b + [LF])), |b| + 1, before + |b| + 1)
  }

  /** What the reader of version 0 makes of one line. */
  lemma {:induction false} LegibleRecord(c: Codec, l: LegacyLine, before: nat)
    requires Legible(c, l)
    ensures LF !in LineBytes(c, l)
    ensures var raw := RawOf(c, l, before);
      && (Blank(raw) || AnnouncedVersion(c, raw) == 0)
      && Selected(LineRecord(c, raw, false), None) == Held(l)
  {
    var raw := RawOf(c, l, before);
    match l {
      case Written(v) => StripEolPlain(c.utf8(c.print_(v)));
      case Garbled(_) =>
    }
    if LineRecord(c, raw, false) != [] {
      SelectedOne(LineRecord(c, raw, false)[0]);
    }
    hide StripEol, Trim;
  }

  // ---------------------------------------------------------------- the whole log

  ghost predicate NoneAnnounces(c: Codec, raws: seq<RawLine>) {
    forall i :: 0 <= i < |raws| ==> Blank(raws[i]) || AnnouncedVersion(c, raws[i]) == 0
  }

  lemma {:induction false} LegacyEnds(c: Codec, ls: seq<LegacyLine>)
    ensures LegacyFile(c, ls) == [] || EndsInLf(LegacyFile(c, ls))
  {
    hide LineBytes;
  }

  /** The lines of a file announce no version, hold these events, and end where the file ends. */
  ghost predicate HoldsEvents(c: Codec, raws: seq<RawLine>, evs: seq<Value>, size: nat) {
    && NoneAnnounces(c, raws) && Selected(Records(c, raws, false, None), None) == evs
    && (if raws == [] then 0 else raws[|raws| - 1].cumEnd) == size
  }

  lemma {:induction false} OneMoreLine(c: Codec, raws: seq<RawLine>, evs: seq<Value>, size: nat, l: LegacyLine)
    requires HoldsEvents(c, raws, evs, size) && Legible(c, l)
    ensures HoldsEvents(c, raws + [RawOf(c, l, size)],
                        evs + Held(l), size + |LineBytes(c, l)| + 1)
  {
    LegibleRecord(c, l, size);
    OneMoreRecord0(c, raws, RawOf(c, l, size));
    hide Legible, LineRecord, Selected, LineBytes, Blank, AnnouncedVersion, StripEol, Records;
  }

  lemma {:induction false} LegacyStep(c: Codec, f: bytes, evs: seq<Value>, l: LegacyLine)
    requires (f == [] || EndsInLf(f)) && HoldsEvents(c, RawLines(c, f, 0), evs, |f|) && Legible(c, l)
    ensures HoldsEvents(c, RawLines(c, f + (LineBytes(c, l) + [LF]), 0), evs + Held(l),
                        |f + (LineBytes(c, l) + [LF])|)
  {
    hide *;
    LegibleRecord(c, l, |f|);
    EndedLine(c, f, LineBytes(c, l));
    OneMoreLine(c, RawLines(c, f, 0), evs, |f|, l);
    RawOfIs(c, l, |f|);
  }

  lemma {:induction false} RawOfIs(c: Codec, l: LegacyLine, before: nat)
    ensures var b := LineBytes(c, l);
      RawOf(c, l, before) == RawLine(c.lossy(StripEol(b + [LF])), |b| + 1, before + |b| + 1)
  {}

  lemma {:induction false} LastWritten(c: Codec, ls: seq<LegacyLine>)
    requires ls != []
    ensures var init, last := ls[..|ls| - 1], ls[|ls| - 1];
      && LegacyFile(c, ls) == LegacyFile(c, init) + (LineBytes(c, last) + [LF])
      && Events(ls) == Events(init) + Held(last)
      && (AllLegible(c, ls) ==> AllLegible(c, init) && Legible(c, last))
  {
    hide Legible, LineBytes;
  }

  lemma {:induction false} LegacyRecords(c: Codec, ls: seq<LegacyLine>)
    requires AllLegible(c, ls)
    ensures HoldsEvents(c, RawLines(c, LegacyFile(c, ls), 0), Events(ls), |LegacyFile(c, ls)|)
  {
    if ls == [] {
      NoRaw(c, 0);
    } else {
      hide *;
      LastWritten(c, ls);
      var init, last := ls[..|ls| - 1], ls[|ls| - 1];
      LegacyRecords(c, init);
      LegacyEnds(c, init);
      LegacyStep(c, LegacyFile(c, init), Events(init), last);
    }
  }

  lemma {:induction false} OneMoreRecord0(c: Codec, raws: seq<RawLine>, raw: RawLine)
    ensures Records(c, raws + [raw], false, None) == Records(c, raws, false, None) + LineRecord(c, raw, false)
    ensures Selected(Records(c, raws + [raw], false, None), None)
      == Selected(Records(c, raws, false, None), None) + Selected(LineRecord(c, raw, false), None)
  {
    hide LineRecord, Selected;
    assert (raws + [raw])[..|raws|] == raws;
    SelectedConcat(Records(c, raws, false, None), LineRecord(c, raw, false), None);
  }

  lemma {:induction false} NoVersion(c: Codec, raws: seq<RawLine>)
    requires NoneAnnounces(c, raws)
    ensures FileVersion(c, raws) == 0
  {
    hide Blank, AnnouncedVersion;
  }

  /** A log of bare events reads as these events, in order and without error; a line among them that is
      no JSON is passed over wherever it stands, and nothing is cut off. */
  lemma {:induction false} LegacyReads(c: Codec, ls: seq<LegacyLine>)
    requires AllLegible(c, ls)
    ensures var file := LegacyFile(c, ls);
      var r := Read(c, Some(file), None);
      && r.report.error.None? && r.report.walVersion == 0 && r.events == Events(ls)
      && r.report.recoverablePrefixBytes == |file| && r.report.corruptTailRecords == 0
      && r.report.truncatedTailBytes == 0
  {
    LegacyRecords(c, ls);
    hide AllLegible, RawLines, LegacyFile, HoldsEvents, ReadRaw;
    HoldsRead(c, RawLines(c, LegacyFile(c, ls), 0), Events(ls), |LegacyFile(c, ls)|);
  }

  lemma {:induction false} HoldsRead(c: Codec, raws: seq<RawLine>, evs: seq<Value>, size: nat)
    requires HoldsEvents(c, raws, evs, size)
    ensures var r := ReadRaw(c, raws, None);
      && r.report.error.None? && r.report.walVersion == 0 && r.events == evs
      && r.report.recoverablePrefixBytes == size && r.report.corruptTailRecords == 0
      && r.report.truncatedTailBytes == 0
  {
    hide FileVersion, Records, Selected, NoneAnnounces;
    NoVersion(c, raws);
    var recs := Records(c, raws, false, None);
    assert recs[..|recs|] == recs && recs[|recs|..] == [];
  }

  lemma {:induction false} EventsSnoc(ls: seq<LegacyLine>, l: LegacyLine)
    ensures Events(ls + [l]) == Events(ls) + Held(l)
  {
    hide Held;
    assert (ls + [l])[..|ls|] == ls;
  }

  const HALVED: seq<LegacyLine> := [Written(EVENT), Garbled([40]), Written(EVENT)]

  lemma {:induction false} HalvedEvents()
    ensures Events(HALVED) == [EVENT, EVENT]
  {
    var ls := [] + [Written(EVENT)] + [Garbled([40])] + [Written(EVENT)];
    assert ls == HALVED;
    EventsSnoc([], Written(EVENT));
    EventsSnoc([] + [Written(EVENT)], Garbled([40]));
    EventsSnoc([] + [Written(EVENT)] + [Garbled([40])], Written(EVENT));
  }

  /** Such logs exist: two events of the small codec with half a text between them. */
  lemma {:induction false} LegacyExample()
    ensures AllLegible(TINY, HALVED)
    ensures var r := Read(TINY, Some(LegacyFile(TINY, HALVED)), None);
      r.report.error.None? && r.events == [EVENT, EVENT]
  {
    hide Legible, LegacyFile, ReadRaw, RawLines, Events;
    EventIsLegible();
    HalfIsLegible();
    HalvedEvents();
    LegacyReads(TINY, HALVED);
  }

  lemma {:induction false} EventIsLegible()
    ensures Legible(TINY, Written(EVENT))
  {
    hide EventEnvelope, HeaderValue, Bytes, Letters, CutFails, Trim;
    TinyTexts();
    TinyText("(e)", 'e');
  }

  lemma {:induction false} HalfIsLegible()
    ensures Legible(TINY, Garbled([40]))
  {
    var b: bytes := [40];
    StripEolPlain(b);
    assert Letters(b) == "(" && TrimStart("(") == "(" && TrimEnd("(") == "(";
    hide EventEnvelope, HeaderValue, StripEol, Letters, TrimStart, TrimEnd;
  }

  // ---------------------------------------------------------------- an unchecked line in a checked log

  lemma {:induction false} UncheckedRecord(c: Codec, v: Value, before: nat)
    requires PrintsLine(c, v) && Bare(v)
    ensures var raw := RawOf(c, Written(v), before);
      LineRecord(c, raw, true) == [Rec(None, raw.size, raw.cumEnd)]
  {
    StripEolPlain(c.utf8(c.print_(v)));
    hide StripEol, Trim;
  }

  lemma {:induction false} GoodPrefixBehind(recs: seq<Rec>, bad: Rec)
    requires GoodPrefix(recs) == |recs| && bad.ev.None?
    ensures GoodPrefix(recs + [bad]) == |recs| && !Refused(recs + [bad]) <==> !Refused(recs)
    ensures Selected(recs + [bad], None) == Selected(recs, None)
    ensures (recs + [bad])[|recs|..] == [bad] && TailBytes([bad]) == bad.size
  {
    assert (recs + [bad])[..|recs|] == recs;
    assert forall i :: 0 <= i < |recs| ==> (recs + [bad])[i] == recs[i];
    assert TailBytes([bad][1..]) == 0;
  }

  lemma {:induction false} UncheckedLast(c: Codec, raws: seq<RawLine>, evs: seq<Value>, raw: RawLine)
    requires ReadsAs(c, raws, evs) && LineRecord(c, raw, true) == [Rec(None, raw.size, raw.cumEnd)]
    ensures var r := ReadRaw(c, raws + [raw], None);
      && r.report.error.None? && r.events == evs
      && r.report.corruptTailRecords == 1 && r.report.truncatedTailBytes == raw.size
  {
    hide LineRecord, Blank, AnnouncedVersion, Records, Selected, ReadRaw, FirstNonBlank, GoodPrefix;
    FirstNonBlankFirst(raws, raw);
    RecordsConcat(c, raws, [raw], true, FirstNonBlank(raws));
    OneLineRecords(c, raw, true);
    GoodPrefixBehind(V1Records(c, raws), Rec(None, raw.size, raw.cumEnd));
    VersionStays(c, raws, raw);
    Reported(c, raws + [raw]);
  }

  lemma {:induction false} VersionStays(c: Codec, raws: seq<RawLine>, raw: RawLine)
    requires FileVersion(c, raws) == 1 && FirstNonBlank(raws + [raw]) == FirstNonBlank(raws)
    ensures FirstNonBlank(raws).Some? && FileVersion(c, raws + [raw]) == 1
  {
    hide AnnouncedVersion, FirstNonBlank;
  }

  lemma {:induction false} UncheckedBehind(c: Codec, f: bytes, evs: seq<Value>, v: Value, b: bytes)
    requires EndsInLf(f) && ReadsAs(c, RawLines(c, f, 0), evs) && PrintsLine(c, v) && Bare(v)
    requires b == LineBytes(c, Written(v)) && LF !in b
    ensures var r := ReadRaw(c, RawLines(c, f + (b + [LF]), 0), None);
      && r.report.error.None? && r.events == evs
      && r.report.corruptTailRecords == 1 && r.report.truncatedTailBytes == |b| + 1
  {
    hide *;
    EndedLine(c, f, b);
    RawOfIs(c, Written(v), |f|);
    UncheckedRecord(c, v, |f|);
    UncheckedLast(c, RawLines(c, f, 0), evs, RawOf(c, Written(v), |f|));
  }

  /** A log that announces version 1 does not take a bare event: behind whole envelopes it counts as a
      corrupt tail, and the events in front of it are recovered. */
  lemma {:induction false} UncheckedTailDropped(c: Codec, evs: seq<Value>, v: Value)
    requires AllWritable(c, evs) && PrintsLine(c, v) && Bare(v)
    ensures var b := c.utf8(c.print_(v));
      var r := Read(c, Some(Log(c, evs) + (b + [LF])), None);
      && r.report.error.None? && r.events == evs
      && r.report.corruptTailRecords == 1 && r.report.truncatedTailBytes == |b| + 1
  {
    hide ReadRaw, RawLines, Log, ReadsAs, AllWritable, EndsInLf, Bare;
    LogReads(c, evs);
    LogEnds(c, evs);
    UncheckedBehind(c, Log(c, evs), evs, v, c.utf8(c.print_(v)));
  }

  // ---------------------------------------------------------------- a version of the future

  function AnnouncingValue(n: u64): Value {
    Obj([Field("kind", Str("wal_header")), Field("wal_version", Num(Unsigned(n)))])
  }

  lemma {:induction false} Announces(c: Codec, n: u64, before: nat)
    requires PrintsLine(c, AnnouncingValue(n))
    ensures var raw := RawOf(c, Written(AnnouncingValue(n)), before);
      !Blank(raw) && AnnouncedVersion(c, raw) == n
  {
    var v := AnnouncingValue(n);
    StripEolPlain(c.utf8(c.print_(v)));
    assert "kind"[0] != "wal_version"[0];
    assert Find(v.fields, "wal_version") == Find(v.fields[1..], "wal_version") == Some(v.fields[1].value);
    hide StripEol, Trim;
  }

  lemma {:induction false} FirstAnnounces(c: Codec, n: u64, rest: bytes)
    requires PrintsLine(c, AnnouncingValue(n))
    ensures var raws := RawLines(c, c.utf8(c.print_(AnnouncingValue(n))) + [LF] + rest, 0);
      raws != [] && !Blank(raws[0]) && AnnouncedVersion(c, raws[0]) == n
  {
    var b := c.utf8(c.print_(AnnouncingValue(n)));
    assert LF !in b && LineBytes(c, Written(AnnouncingValue(n))) == b;
    hide PrintsLine, RawOf, LineBytes, RawLines, Blank, AnnouncedVersion, StripEol;
    Announces(c, n, 0);
    RawOfIs(c, Written(AnnouncingValue(n)), 0);
    EndedLine(c, [], b);
    NoRaw(c, 0);
    assert [] + (b + [LF]) == b + [LF];
    RawConcat(c, b + [LF], rest, 0);
  }

  lemma {:induction false} AnnouncedOutcome(c: Codec, raws: seq<RawLine>, n: nat)
    requires raws != [] && !Blank(raws[0]) && AnnouncedVersion(c, raws[0]) == n
    ensures var r := ReadRaw(c, raws, None);
      && r.report.walVersion == n && (r.report.error == Some(VersionReject(n)) <==> n > 1)
      && (n > 1 ==> r.events == [])
  {
    hide Blank, AnnouncedVersion, Records, Selected, GoodPrefix, MidCorrupt, TailBytes, Tally, Unknown, SumMap;
  }

  /** Whatever follows, a log whose first line announces version n is refused exactly when n exceeds 1. */
  lemma {:induction false} NewerRefused(c: Codec, n: u64, rest: bytes)
    requires PrintsLine(c, AnnouncingValue(n))
    ensures var r := Read(c, Some(c.utf8(c.print_(AnnouncingValue(n))) + [LF] + rest), None);
      && r.report.walVersion == n && (r.report.error == Some(VersionReject(n)) <==> n > 1)
      && (n > 1 ==> r.events == [])
  {
    hide PrintsLine, RawLines, Blank, AnnouncedVersion, ReadRaw, AnnouncingValue;
    FirstAnnounces(c, n, rest);
    AnnouncedOutcome(c, RawLines(c, c.utf8(c.print_(AnnouncingValue(n))) + [LF] + rest, 0), n);
  }

  // ---------------------------------------------------------------- the text of a line

  ghost predicate AllWhite(s: string) { forall i :: 0 <= i < |s| ==> IsWhitespace(s[i]) }

  /** The text without the whitespace at its two ends, and without any other change. */
  ghost predicate Between(s: string, t: string) {
    && (t == [] || (!IsWhitespace(t[0]) && !IsWhitespace(t[|t| - 1])))
    && exists pre: string, post: string :: s == pre + t + post && AllWhite(pre) && AllWhite(post)
  }

  lemma {:induction false} TrimStartDrops(s: string) returns (pre: string)
    ensures s == pre + TrimStart(s) && AllWhite(pre)
    ensures TrimStart(s) != [] ==> !IsWhitespace(TrimStart(s)[0])
  {
    hide IsWhitespace;
    if s != [] && IsWhitespace(s[0]) {
      var rest := TrimStartDrops(s[1..]);
      pre := [s[0]] + rest;
      assert s == [s[0]] + s[1..];
    } else {
      pre := [];
    }
  }

  lemma {:induction false} TrimEndDrops(s: string) returns (post: string)
    ensures s == TrimEnd(s) + post && AllWhite(post)
    ensures TrimEnd(s) != [] ==> !IsWhitespace(TrimEnd(s)[|TrimEnd(s)| - 1])
  {
    hide IsWhitespace;
    if s != [] && IsWhitespace(s[|s| - 1]) {
      var rest := TrimEndDrops(s[..|s| - 1]);
      post := rest + [s[|s| - 1]];
      assert s == s[..|s| - 1] + [s[|s| - 1]];
    } else {
      post := [];
    }
  }

  /** A line is parsed without the whitespace around it: tabs, line endings and spaces of ASCII, and the
      Unicode ones. */
  lemma {:induction false} TrimDropsEnds(s: string)
    ensures Between(s, Trim(s))
    ensures forall ch: char :: (ch as int) < 128 ==> (IsWhitespace(ch) <==> 9 <= ch as int <= 13 || ch == ' ')
  {
    var pre := TrimStartDrops(s);
    var t := TrimStart(s);
    var post := TrimEndDrops(t);
    assert s == pre + Trim(s) + post;
    if Trim(s) != [] {
      assert Trim(s)[0] == t[0];
    }
  }

  // ---------------------------------------------------------------- the kinds there are

  /** An event is counted under the string it names as its kind, one that names none under the empty text. */
  lemma {:induction false} KindRead(ev: Value, kind: string)
    ensures EventKind(ev) == kind <==>
            || Get(ev, "kind") == Some(Str(kind))
            || (kind == "" && (Get(ev, "kind").None? || !Get(ev, "kind").value.Str?))
  {
    hide Get;
  }

  /** The kinds a report does not count as unknown: entities and their components, authority and
      placement, transactions, the mesh, and the log's own. */
  lemma {:induction false} KnownKinds(kind: string)
    ensures IsKnownKind(kind) <==>
            || kind == "register" || kind == "write" || kind == "component_add" || kind == "component_remove"
            || kind == "delete_tombstone" || kind == "transfer" || kind == "reserve_entity_ids"
            || kind == "authority_epoch" || kind == "component_authority" || kind == "failover_grant"
            || kind == "block_migration" || kind == "partition_config"
            || kind == "threshold_prepare" || kind == "threshold_preload_ready" || kind == "threshold_commit"
            || kind == "threshold_adopt" || kind == "threshold_abort"
            || kind == "mesh_out" || kind == "mesh_acked" || kind == "snapshot_marker"
  {}
}
