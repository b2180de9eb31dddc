/** Crash safety of the log: cutting it anywhere, recovering, and appending again (src/wal.rs). */
module WalDurability {
  import opened Wrappers
  import opened Json
  import opened Wal
  import opened WalRecovery

  // ---------------------------------------------------------------- facts about printed JSON

  /** The printed object is one line of text that parses back, and no proper part of its front does. */
  ghost predicate PrintsWhole(c: Codec, v: Value) {
    var s := c.print_(v);
    var b := c.utf8(s);
    && b != [] && LF !in b && CR !in b
    && c.lossy(b) == s && s != [] && Trim(s) == s && c.parse(s) == Some(v)
    && forall n :: 0 < n < |b| ==> CutFails(c, b[..n])
  }

  ghost predicate CutFails(c: Codec, q: bytes) {
    Trim(c.lossy(q)) != [] && c.parse(Trim(c.lossy(q))) == None
  }

  ghost predicate RoundTrips(c: Codec, ev: Value) {
    c.parse(c.print_(ev)) == Some(ev)
  }

  ghost predicate Writable(c: Codec, ev: Value) {
    PrintsWhole(c, EnvelopeValue(c, ev)) && RoundTrips(c, ev)
  }

  /** Text that parses, with a printed envelope glued behind it, no longer parses. */
  ghost predicate GluedFails(c: Codec, ev: Value) {
    forall q: bytes :: c.parse(Trim(c.lossy(StripEol(q)))).Some? ==> CutFails(c, q + EnvelopeBytes(c, ev))
  }

  function HeaderBytes(c: Codec): bytes { c.utf8(HeaderLine(c)) }

  function EnvelopeBytes(c: Codec, ev: Value): bytes { c.utf8(EnvelopeLine(c, ev)) }

  // ---------------------------------------------------------------- single lines

  lemma {:induction false} LineLengthNoLf(b: bytes)
    requires LF !in b
    ensures LineLength(b) == |b| && LineLength(b + [LF]) == |b| + 1
  {
    if b != [] {
      assert (b + [LF])[1..] == b[1..] + [LF];
      LineLengthNoLf(b[1..]);
    }
  }

  lemma {:induction false} StripEolPlain(b: bytes)
    requires b != [] ==> b[|b| - 1] != LF && b[|b| - 1] != CR
    ensures StripEol(b) == b && StripEol(b + [LF]) == b
  {
    assert (b + [LF])[..|b|] == b;
  }

  /** A line of plain text reads as that text, whether or not its line feed was written. */
  lemma {:induction false} PlainLine(c: Codec, b: bytes, base: nat)
    requires b != [] && LF !in b && b[|b| - 1] != CR
    ensures RawLines(c, b, base) == [RawLine(c.lossy(b), |b|, base + |b|)]
    ensures RawLines(c, b + [LF], base) == [RawLine(c.lossy(b), |b| + 1, base + |b| + 1)]
  {
    LineLengthNoLf(b);
    assert b[|b| - 1] in b;
    StripEolPlain(b);
    assert b[..|b|] == b && b[|b|..] == [];
    var d := b + [LF];
    assert d[..|d|] == d && d[|d|..] == [];
  }

  lemma {:induction false} EnvelopePlain(c: Codec, ev: Value)
    requires Writable(c, ev)
    ensures var e := EnvelopeBytes(c, ev);
            e != [] && LF !in e && e[|e| - 1] != CR && c.lossy(e) == EnvelopeLine(c, ev)
  {
    var e := EnvelopeBytes(c, ev);
    assert e[|e| - 1] in e;
  }

  lemma {:induction false} EnvelopeRecord(c: Codec, ev: Value, raw: RawLine, v1: bool)
    requires Writable(c, ev) && raw.text == EnvelopeLine(c, ev)
    ensures !Blank(raw)
    ensures LineRecord(c, raw, v1) == if IsHeaderRecord(ev) then [] else [Rec(Some(ev), raw.size, raw.cumEnd)]
  {
    EnvelopeDecodes(c, ev, v1);
  }

  lemma {:induction false} OneLineRecords(c: Codec, raw: RawLine, v1: bool)
    ensures Records(c, [raw], v1, None) == LineRecord(c, raw, v1)
    ensures Records(c, [raw], v1, Some(0)) == []
  {
    hide LineRecord;
    assert [raw][..0] == [];
  }

  // ---------------------------------------------------------------- cutting a log at any byte

  /** Envelopes, each closed by a line feed. */
  function Body(c: Codec, evs: seq<Value>): bytes {
    if evs == [] then [] else EnvelopeBytes(c, evs[0]) + [LF] + Body(c, evs[1..])
  }

  function Log(c: Codec, evs: seq<Value>): bytes { HeaderBytes(c) + [LF] + Body(c, evs) }

  /** The events whose whole envelope text lies within the first `room` bytes of the body. */
  function Survivors(c: Codec, evs: seq<Value>, room: int): seq<Value> {
    if evs == [] || room < |EnvelopeBytes(c, evs[0])| then []
    else [evs[0]] + Survivors(c, evs[1..], room - |EnvelopeBytes(c, evs[0])| - 1)
  }

  /** Header records inside the log are dropped by every reader. */
  function WithoutHeaders(evs: seq<Value>): seq<Value> {
    if evs == [] then []
    else (if IsHeaderRecord(evs[0]) then [] else [evs[0]]) + WithoutHeaders(evs[1..])
  }

  ghost predicate OnlyLastCorrupt(recs: seq<Rec>) {
    forall i :: 0 <= i < |recs| - 1 ==> recs[i].ev.Some?
  }

  lemma {:induction false} CutInsideLine(c: Codec, v: Value, n: nat, base: nat, v1: bool)
    requires PrintsWhole(c, v) && 0 < n < |c.utf8(c.print_(v))|
    ensures var raws := RawLines(c, c.utf8(c.print_(v))[..n], base);
            && |raws| == 1 && !Blank(raws[0]) && c.parse(Trim(raws[0].text)) == None
            && LineRecord(c, raws[0], v1) == [Rec(None, n, base + n)]
  {
    var b := c.utf8(c.print_(v));
    assert CutFails(c, b[..n]);
    assert b[n - 1] in b;
    PlainLine(c, b[..n], base);
  }

  lemma {:induction false} SelectedOne(r: Rec)
    ensures Selected([r], None) == if r.ev.Some? then [r.ev.value] else []
  {
    assert [r][..0] == [];
  }

  /** One envelope and what is left of the log behind it. */
  lemma {:induction false} BodyLine(c: Codec, evs: seq<Value>, m: nat, base: nat)
    requires evs != [] && Writable(c, evs[0])
    requires |EnvelopeBytes(c, evs[0])| < m <= |Body(c, evs)|
    ensures var e := EnvelopeBytes(c, evs[0]);
            var tail := Records(c, RawLines(c, Body(c, evs[1..])[..m - |e| - 1], base + |e| + 1), true, None);
            Records(c, RawLines(c, Body(c, evs)[..m], base), true, None) ==
            (if IsHeaderRecord(evs[0]) then [] else [Rec(Some(evs[0]), |e| + 1, base + |e| + 1)]) + tail
  {
    hide LineRecord, Records, RawLines, Blank, IsHeaderRecord;
    var e := EnvelopeBytes(c, evs[0]);
    var rest := Body(c, evs[1..])[..m - |e| - 1];
    assert Body(c, evs)[..m] == (e + [LF]) + rest;
    RawConcat(c, e + [LF], rest, base);
    PlainLine(c, e, base);
    var raw := RawLine(c.lossy(e), |e| + 1, base + |e| + 1);
    EnvelopeRecord(c, evs[0], raw, true);
    RecordsConcat(c, [raw], RawLines(c, rest, base + |e| + 1), true, None);
    OneLineRecords(c, raw, true);
  }

  /** An envelope whose line feed, or more, is missing. */
  lemma {:induction false} PartRecords(c: Codec, ev: Value, m: nat, base: nat)
    requires Writable(c, ev) && m <= |EnvelopeBytes(c, ev)|
    ensures var recs := Records(c, RawLines(c, EnvelopeBytes(c, ev)[..m], base), true, None);
            && |recs| <= 1
            && Selected(recs, None) == if m == |EnvelopeBytes(c, ev)| && !IsHeaderRecord(ev) then [ev] else []
  {
    hide LineRecord, Blank, IsHeaderRecord;
    var e := EnvelopeBytes(c, ev);
    if m == |e| {
      assert e[..m] == e;
      PlainLine(c, e, base);
      var raw := RawLine(c.lossy(e), |e|, base + |e|);
      EnvelopeRecord(c, ev, raw, true);
      OneLineRecords(c, raw, true);
      SelectedOne(Rec(Some(ev), |e|, base + |e|));
    } else if m > 0 {
      CutInsideLine(c, EnvelopeValue(c, ev), m, base, true);
      OneLineRecords(c, RawLines(c, e[..m], base)[0], true);
      SelectedOne(Rec(None, m, base + m));
    }
  }

  lemma {:induction false} FirstSurvives(c: Codec, evs: seq<Value>, m: nat)
    requires evs != [] && m <= |EnvelopeBytes(c, evs[0])|
    ensures WithoutHeaders(Survivors(c, evs, m)) ==
            if m == |EnvelopeBytes(c, evs[0])| && !IsHeaderRecord(evs[0]) then [evs[0]] else []
  {
    hide IsHeaderRecord;
    if m == |EnvelopeBytes(c, evs[0])| {
      assert Survivors(c, evs, m) == [evs[0]];
    }
  }

  lemma {:induction false} SurvivorsStep(c: Codec, evs: seq<Value>, m: nat)
    requires evs != [] && m > |EnvelopeBytes(c, evs[0])|
    ensures WithoutHeaders(Survivors(c, evs, m)) ==
            (if IsHeaderRecord(evs[0]) then [] else [evs[0]])
            + WithoutHeaders(Survivors(c, evs[1..], m - |EnvelopeBytes(c, evs[0])| - 1))
  {
    assert Survivors(c, evs, m)[1..] == Survivors(c, evs[1..], m - |EnvelopeBytes(c, evs[0])| - 1);
  }

  lemma {:induction false} OneMoreRecord(r: seq<Rec>, tail: seq<Rec>)
    requires |r| <= 1 && OnlyLastCorrupt(tail) && (r != [] ==> r[0].ev.Some?)
    ensures OnlyLastCorrupt(r + tail)
    ensures Selected(r + tail, None) == (if r == [] then [] else [r[0].ev.value]) + Selected(tail, None)
  {
    SelectedConcat(r, tail, None);
    if r != [] {
      SelectedOne(r[0]);
      assert r == [r[0]];
    }
  }

  ghost predicate CutReads(c: Codec, evs: seq<Value>, m: int, base: nat) {
    && 0 <= m <= |Body(c, evs)|
    && var recs := Records(c, RawLines(c, Body(c, evs)[..m], base), true, None);
       OnlyLastCorrupt(recs) && Selected(recs, None) == WithoutHeaders(Survivors(c, evs, m))
  }

  lemma {:induction false} CutBodyStep(c: Codec, evs: seq<Value>, m: nat, base: nat)
    requires evs != [] && Writable(c, evs[0]) && |EnvelopeBytes(c, evs[0])| < m <= |Body(c, evs)|
    requires CutReads(c, evs[1..], m - |EnvelopeBytes(c, evs[0])| - 1, base + |EnvelopeBytes(c, evs[0])| + 1)
    ensures CutReads(c, evs, m, base)
  {
    hide Records, RawLines, IsHeaderRecord, Writable, Survivors, EnvelopeBytes, Selected, Body, WithoutHeaders,
      OnlyLastCorrupt;
    var e := EnvelopeBytes(c, evs[0]);
    BodyLine(c, evs, m, base);
    SurvivorsStep(c, evs, m);
    OneMoreRecord(if IsHeaderRecord(evs[0]) then [] else [Rec(Some(evs[0]), |e| + 1, base + |e| + 1)],
                  Records(c, RawLines(c, Body(c, evs[1..])[..m - |e| - 1], base + |e| + 1), true, None));
  }

  lemma {:induction false} CutBodyFirst(c: Codec, evs: seq<Value>, m: nat, base: nat)
    requires evs != [] && Writable(c, evs[0]) && m <= |EnvelopeBytes(c, evs[0])|
    ensures CutReads(c, evs, m, base)
  {
    hide Records, RawLines, IsHeaderRecord, Writable, Survivors, EnvelopeBytes, Selected, WithoutHeaders;
    assert Body(c, evs)[..m] == EnvelopeBytes(c, evs[0])[..m];
    PartRecords(c, evs[0], m, base);
    FirstSurvives(c, evs, m);
  }

  lemma {:induction false} CutBody(c: Codec, evs: seq<Value>, m: nat, base: nat)
    requires m <= |Body(c, evs)| && forall ev :: ev in evs ==> Writable(c, ev)
    ensures CutReads(c, evs, m, base)
    decreases |evs|
  {
    hide CutReads, Writable, EnvelopeBytes, Body;
    if evs == [] {
      NothingCut(c, m, base);
    } else {
      assert evs[0] in evs;
      BodyLength(c, evs);
      var e := EnvelopeBytes(c, evs[0]);
      if m <= |e| {
        CutBodyFirst(c, evs, m, base);
      } else {
        CutBody(c, evs[1..], m - |e| - 1, base + |e| + 1);
        CutBodyStep(c, evs, m, base);
      }
    }
  }

  lemma {:induction false} NothingCut(c: Codec, m: nat, base: nat)
    requires m <= |Body(c, [])|
    ensures CutReads(c, [], m, base)
  {}

  lemma {:induction false} BodyLength(c: Codec, evs: seq<Value>)
    requires evs != []
    ensures |Body(c, evs)| == |EnvelopeBytes(c, evs[0])| + 1 + |Body(c, evs[1..])|
  {
    hide EnvelopeBytes;
  }

  lemma {:induction false} CutHeader(c: Codec, n: nat)
    requires PrintsWhole(c, HeaderValue()) && n <= |HeaderBytes(c)|
    ensures var r := Read(c, Some(HeaderBytes(c)[..n]), None);
            r.report.error.None? && r.events == []
  {
    hide LineRecord, Blank;
    var h := HeaderBytes(c)[..n];
    var raws := RawLines(c, h, 0);
    ReadOutcome(c, raws, None);
    if 0 < n < |HeaderBytes(c)| {
      CutInsideLine(c, HeaderValue(), n, 0, false);
      OneLineRecords(c, raws[0], false);
      SelectedOne(Rec(None, n, n));
    } else if n == |HeaderBytes(c)| {
      assert h == HeaderBytes(c);
      PlainLine(c, h, 0);
      HeaderAnnounces(c, raws[0]);
      OneLineRecords(c, raws[0], true);
    }
  }

  lemma {:induction false} HeaderAnnounces(c: Codec, raw: RawLine)
    requires PrintsWhole(c, HeaderValue()) && raw.text == HeaderLine(c)
    ensures !Blank(raw) && AnnouncedVersion(c, raw) == 1
  {
    var v := HeaderValue();
    assert "kind"[0] != "wal_version"[0];
    assert Find(v.fields, "wal_version") == Find(v.fields[1..], "wal_version") == Some(v.fields[1].value);
  }

  /** A log cut behind its header is a version 1 log whose records are those of its body. */
  lemma {:induction false} LogRecords(c: Codec, body: bytes)
    requires PrintsWhole(c, HeaderValue())
    ensures var h := |HeaderBytes(c)|;
            var raws := RawLines(c, HeaderBytes(c) + [LF] + body, 0);
            && FirstNonBlank(raws) == Some(0) && FileVersion(c, raws) == 1
            && ModeRecords(c, raws) == Records(c, RawLines(c, body, h + 1), true, None)
  {
    hide LineRecord, Records, RawLines, Blank, AnnouncedVersion;
    var h := HeaderBytes(c);
    RawConcat(c, h + [LF], body, 0);
    PlainLine(c, h, 0);
    var raw := RawLine(c.lossy(h), |h| + 1, |h| + 1);
    var rest := RawLines(c, body, |h| + 1);
    HeaderAnnounces(c, raw);
    assert ([raw] + rest)[0] == raw;
    RecordsConcat(c, [raw], rest, true, Some(0));
    OneLineRecords(c, raw, true);
    var recs := Records(c, rest, true, None);
    assert [] + recs == recs;
  }

  /** Cutting a log at any byte recovers, without error, exactly the events whose whole envelope
      text survived the cut. */
  lemma {:induction false} CutRecovers(c: Codec, evs: seq<Value>, cut: nat)
    requires PrintsWhole(c, HeaderValue()) && forall ev :: ev in evs ==> Writable(c, ev)
    requires cut <= |Log(c, evs)|
    ensures var r := Read(c, Some(Log(c, evs)[..cut]), None);
            && r.report.error.None?
            && r.events == WithoutHeaders(Survivors(c, evs, cut - |HeaderBytes(c)| - 1))
  {
    hide Records, RawLines, Selected, FileVersion, ModeRecords, ReadRaw, GoodPrefix, PrintsWhole, Body, Survivors;
    var h := HeaderBytes(c);
    if cut <= |h| {
      assert Log(c, evs)[..cut] == h[..cut];
      CutHeader(c, cut);
      NoRoom(c, evs, cut - |h| - 1);
    } else {
      var body := Body(c, evs)[..cut - |h| - 1];
      assert Log(c, evs)[..cut] == h + [LF] + body;
      LogRecords(c, body);
      CutBody(c, evs, cut - |h| - 1, |h| + 1);
      ReadOutcome(c, RawLines(c, h + [LF] + body, 0), None);
      AllDecodable(Records(c, RawLines(c, body, |h| + 1), true, None));
    }
  }

  lemma {:induction false} NoRoom(c: Codec, evs: seq<Value>, room: int)
    requires room < 0
    ensures Survivors(c, evs, room) == []
  {}
}
