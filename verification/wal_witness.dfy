/** What the recovery theorems are about does occur: a log that loses its last line feed, and a
    concrete codec that meets every fact the theorems ask of one. */
module WalWitness {
  import opened Wrappers
  import opened Json
  import opened Wal
  import opened WalRecovery
  import opened WalDurability
  import opened WalAppend
  import Crc32

  // ---------------------------------------------------------------- a log cut before its last line feed

  ghost predicate AllWritable(c: Codec, evs: seq<Value>) {
    && PrintsWhole(c, HeaderValue())
    && forall i :: 0 <= i < |evs| ==> Writable(c, evs[i]) && !IsHeaderRecord(evs[i])
  }

  lemma {:induction false} BodySnoc(c: Codec, evs: seq<Value>, ev: Value)
    ensures Body(c, evs + [ev]) == Body(c, evs) + (EnvelopeBytes(c, ev) + [LF])
    decreases |evs|
  {
    hide EnvelopeBytes;
    if evs == [] {
      assert [] + [ev] == [ev] && [ev][1..] == [];
    } else {
      assert (evs + [ev])[0] == evs[0] && (evs + [ev])[1..] == evs[1..] + [ev];
      BodySnoc(c, evs[1..], ev);
    }
  }

  lemma {:induction false} LogSnoc(c: Codec, evs: seq<Value>, ev: Value)
    ensures Log(c, evs + [ev]) == Log(c, evs) + EnvelopeBytes(c, ev) + [LF]
  {
    hide Body, EnvelopeBytes, HeaderBytes;
    BodySnoc(c, evs, ev);
  }

  lemma {:induction false} LogEnds(c: Codec, evs: seq<Value>)
    ensures EndsInLf(Log(c, evs))
  {
    hide EnvelopeBytes, HeaderBytes;
    if evs == [] {
    } else {
      assert evs == evs[..|evs| - 1] + [evs[|evs| - 1]];
      LogSnoc(c, evs[..|evs| - 1], evs[|evs| - 1]);
    }
  }

  /** The lines read as these events, the last record among them. */
  ghost predicate ReadsAs(c: Codec, raws: seq<RawLine>, evs: seq<Value>) {
    && Recoverable(c, raws) && GoodPrefix(V1Records(c, raws)) == |V1Records(c, raws)|
    && Selected(V1Records(c, raws), None) == evs
  }

  lemma {:induction false} OneMoreReads(c: Codec, raws: seq<RawLine>, evs: seq<Value>, raw: RawLine, ev: Value)
    requires ReadsAs(c, raws, evs) && Writable(c, ev) && !IsHeaderRecord(ev) && raw.text == EnvelopeLine(c, ev)
    ensures ReadsAs(c, raws + [raw], evs + [ev])
    ensures FirstNonBlank(raws + [raw]).Some? && PrefixEnd(c, raws + [raw]) == raw.cumEnd
  {
    hide V1Records, FirstNonBlank, AnnouncedVersion, Selected, Writable;
    AppendedReads(c, raws, raw, ev);
    AppendedRecords(c, raws, raw, ev);
  }

  lemma {:induction false} WrittenReads(c: Codec, f: bytes, evs: seq<Value>, ev: Value)
    requires EndsInLf(f) && ReadsAs(c, RawLines(c, f, 0), evs) && Writable(c, ev) && !IsHeaderRecord(ev)
    ensures ReadsAs(c, RawLines(c, f + EnvelopeBytes(c, ev) + [LF], 0), evs + [ev])
  {
    hide *;
    AppendedLines(c, f, ev);
    var n := |EnvelopeBytes(c, ev)|;
    OneMoreReads(c, RawLines(c, f, 0), evs, RawLine(EnvelopeLine(c, ev), n + 1, |f| + n + 1), ev);
  }

  lemma {:induction false} LogReads(c: Codec, evs: seq<Value>)
    requires AllWritable(c, evs)
    ensures ReadsAs(c, RawLines(c, Log(c, evs), 0), evs)
  {
    if evs == [] {
      EmptyLogReads(c);
    } else {
      var n := |evs| - 1;
      assert evs[..n] + [evs[n]] == evs;
      assert Writable(c, evs[n]) && !IsHeaderRecord(evs[n]);
      hide *;
      FewerWritable(c, evs, n);
      LogReads(c, evs[..n]);
      LogSnoc(c, evs[..n], evs[n]);
      LogEnds(c, evs[..n]);
      WrittenReads(c, Log(c, evs[..n]), evs[..n], evs[n]);
    }
  }

  lemma {:induction false} FewerWritable(c: Codec, evs: seq<Value>, n: nat)
    requires AllWritable(c, evs) && n <= |evs|
    ensures AllWritable(c, evs[..n])
  {
    hide Writable, PrintsWhole, IsHeaderRecord;
  }

  lemma {:induction false} EmptyLogReads(c: Codec)
    requires PrintsWhole(c, HeaderValue())
    ensures ReadsAs(c, RawLines(c, Log(c, []), 0), [])
  {
    hide PrintsWhole, HeaderBytes, FirstNonBlank, FileVersion;
    assert HeaderBytes(c) + [LF] + [] == Log(c, []);
    LogRecords(c, []);
  }

  /** The last line of the file, whole but for its line feed. */
  lemma {:induction false} UnendedLine(c: Codec, f: bytes, ev: Value)
    requires EndsInLf(f) && Writable(c, ev)
    ensures var e := EnvelopeBytes(c, ev);
            RawLines(c, f + e, 0) == RawLines(c, f, 0) + [RawLine(EnvelopeLine(c, ev), |e|, |f| + |e|)]
  {
    hide RawLines, EnvelopeBytes, EnvelopeLine, Writable, EndsInLf, StripEol, LineLength;
    var e := EnvelopeBytes(c, ev);
    EnvelopePlain(c, ev);
    RawConcat(c, f, e, 0);
    LineLengthNoLf(e);
    StripEolPlain(e);
    WholeLine(c, e, |f|);
  }

  lemma {:induction false} UnendedReads(c: Codec, f: bytes, evs: seq<Value>, last: Value)
    requires EndsInLf(f) && ReadsAs(c, RawLines(c, f, 0), evs) && Writable(c, last) && !IsHeaderRecord(last)
    ensures var g := f + EnvelopeBytes(c, last); var r := ReadRaw(c, RawLines(c, g, 0), None);
            && !EndsInLf(g) && r.events == evs + [last]
            && r.report.error.None? && r.report.walVersion == 1 && r.report.recoverablePrefixBytes == |g|
  {
    hide *;
    NoLineFeedAtEnd(c, f, last);
    UnendedLine(c, f, last);
    var n := |EnvelopeBytes(c, last)|;
    var raw := RawLine(EnvelopeLine(c, last), n, |f| + n);
    OneMoreReads(c, RawLines(c, f, 0), evs, raw, last);
    ReadsReport(c, RawLines(c, f, 0) + [raw], evs + [last]);
  }

  lemma {:induction false} ReadsReport(c: Codec, raws: seq<RawLine>, evs: seq<Value>)
    requires ReadsAs(c, raws, evs) && FirstNonBlank(raws).Some?
    ensures var r := ReadRaw(c, raws, None);
            && r.events == evs && r.report.error.None? && r.report.walVersion == 1
            && r.report.recoverablePrefixBytes == PrefixEnd(c, raws)
  {
    hide ReadRaw, PrefixEnd, V1Records, FirstNonBlank, FileVersion, Selected, GoodPrefix, Recoverable;
    Reported(c, raws);
  }

  lemma {:induction false} NoLineFeedAtEnd(c: Codec, f: bytes, last: Value)
    requires Writable(c, last)
    ensures !EndsInLf(f + EnvelopeBytes(c, last))
  {
    hide EnvelopeBytes, Writable;
    EnvelopePlain(c, last);
    var e := EnvelopeBytes(c, last);
    assert (f + e)[|f + e| - 1] == e[|e| - 1] && e[|e| - 1] in e;
  }

  /** Any log cut just before its last line feed: recovery still reads every event, but the next
      event written behind it takes the last one with it. */
  lemma {:induction false} CutLineFeedLosesTwo(c: Codec, evs: seq<Value>, last: Value, ev: Value)
    requires AllWritable(c, evs) && Writable(c, last) && !IsHeaderRecord(last)
    requires Writable(c, ev) && !IsHeaderRecord(ev) && GluedFails(c, ev)
    ensures var f := Log(c, evs) + EnvelopeBytes(c, last);
            && Log(c, evs + [last]) == f + [LF]
            && Read(c, Some(f), None).events == evs + [last]
            && Read(c, Some(f + EnvelopeBytes(c, ev) + [LF]), None).events == evs
  {
    hide Log, ReadRaw, RawLines, EnvelopeBytes, Writable, GluedFails, IsHeaderRecord, AllWritable, EndsInLf, ReadsAs;
    LogSnoc(c, evs, last);
    LogEnds(c, evs);
    LogReads(c, evs);
    UnendedReads(c, Log(c, evs), evs, last);
    var f := Log(c, evs) + EnvelopeBytes(c, last);
    assert f[..|f|] == f;
    AppendRecoversIff(c, f, ev);
    assert (evs + [last])[..|evs|] == evs;
  }

  // ---------------------------------------------------------------- a codec that meets all the facts

  /** Three texts are enough: (h) is the header, (e) an event, (v) the envelope of that event. */
  function Letter(b: bv8): char {
    if b == 40 then '(' else if b == 41 then ')' else if b == 104 then 'h' else if b == 101 then 'e'
    else if b == 118 then 'v' else if b == LF then '\n' else if b == CR then '\r' else '?'
  }

  function Byte(ch: char): bv8 {
    if ch == '(' then 40 else if ch == ')' then 41 else if ch == 'h' then 104 else if ch == 'e' then 101
    else if ch == 'v' then 118 else if ch == '\n' then LF else if ch == '\r' then CR else 63
  }

  function Letters(b: bytes): string { seq(|b|, i requires 0 <= i < |b| => Letter(b[i])) }

  function Bytes(s: string): bytes { seq(|s|, i requires 0 <= i < |s| => Byte(s[i])) }

  const EVENT := Null

  function EventEnvelope(): Value {
    Obj([Field("_c", Num(Unsigned(Crc32.Crc(Bytes("(e)")) as int))), Field("_d", Str("(e)"))])
  }

  function PrintTiny(v: Value): string {
    if v == HeaderValue() then "(h)" else if v == EventEnvelope() then "(v)" else "(e)"
  }

  function ParseTiny(s: string): Option<Value> {
    if s == "(h)" then Some(HeaderValue())
    else if s == "(v)" then Some(EventEnvelope())
    else if s == "(e)" then Some(EVENT)
    else None
  }

  const TINY := Codec(Letters, Bytes, ParseTiny, PrintTiny)

  lemma {:induction false} TinyTexts()
    ensures PrintTiny(HeaderValue()) == "(h)" && PrintTiny(EVENT) == "(e)" && PrintTiny(EventEnvelope()) == "(v)"
    ensures EnvelopeValue(TINY, EVENT) == EventEnvelope()
  {
    assert |"_c"| != |"kind"|;
    assert HeaderValue().fields[0].key != EventEnvelope().fields[0].key;
  }

  lemma {:induction false} TinyText(s: string, ch: char)
    requires s == ['(', ch, ')'] && ch in {'h', 'e', 'v'}
    ensures var b := Bytes(s);
            && b == [40, Byte(ch), 41] && LF !in b && CR !in b && Letters(b) == s && Trim(s) == s
            && forall n :: 0 < n < |b| ==> CutFails(TINY, b[..n])
  {
    var b := Bytes(s);
    assert Letter(Byte(ch)) == ch;
    assert TrimStart(s) == s && TrimEnd(s) == s;
    forall n | 0 < n < |b| ensures CutFails(TINY, b[..n]) {
      var t := Letters(b[..n]);
      assert t[0] == '(' && t[n - 1] == s[n - 1];
      assert TrimStart(t) == t && TrimEnd(t) == t;
    }
  }

  lemma {:induction false} TinyPrints(v: Value, s: string, ch: char)
    requires PrintTiny(v) == s && ParseTiny(s) == Some(v) && s == ['(', ch, ')'] && ch in {'h', 'e', 'v'}
    ensures PrintsWhole(TINY, v)
  {
    TinyText(s, ch);
    hide PrintTiny, ParseTiny, Trim, CutFails, Bytes, Letters, Byte;
  }

  lemma {:induction false} TinyWrites()
    ensures PrintsWhole(TINY, HeaderValue()) && Writable(TINY, EVENT) && !IsHeaderRecord(EVENT)
  {
    TinyTexts();
    hide EventEnvelope, HeaderValue, PrintTiny, PrintsWhole;
    TinyPrints(HeaderValue(), "(h)", 'h');
    TinyPrints(EventEnvelope(), "(v)", 'v');
  }

  lemma {:induction false} TrimStartBehind(a: string, b: string)
    requires TrimStart(a) != []
    ensures TrimStart(a + b) == TrimStart(a) + b
  {
    if IsWhitespace(a[0]) {
      TrimStartBehind(a[1..], b);
      assert (a + b)[1..] == a[1..] + b;
    }
  }

  lemma {:induction false} TinyGlued(q: bytes)
    requires TrimStart(Letters(StripEol(q))) != []
    ensures CutFails(TINY, q + Bytes("(v)"))
  {
    StripEolPrefix(q);
    var x, e := Letters(q), "(v)";
    assert x == Letters(StripEol(q)) + x[|StripEol(q)|..];
    TrimStartBehind(Letters(StripEol(q)), x[|StripEol(q)|..]);
    TrimStartBehind(x, e);
    TinyText(e, 'v');
    assert Letters(q + Bytes(e)) == x + e;
    var t := TrimStart(x) + e;
    assert t[|t| - 1] == ')' && TrimEnd(t) == t;
  }

  lemma {:induction false} StripEolPrefix(q: bytes)
    ensures StripEol(q) <= q
  {
    if q != [] {
      StripEolPrefix(q[..|q| - 1]);
    }
  }

  lemma {:induction false} TrimEndNothing()
    ensures TrimEnd([]) == []
  {}

  /** All the facts the recovery theorems ask of a codec hold of this one together, so they do not
      contradict each other: a log of two events cut before its last line feed loses the second
      event when a third is written. */
  lemma {:induction false} FactsConsistent()
    ensures AllWritable(TINY, [EVENT]) && Writable(TINY, EVENT) && GluedFails(TINY, EVENT) && !IsHeaderRecord(EVENT)
    ensures var f := Log(TINY, [EVENT]) + EnvelopeBytes(TINY, EVENT);
            && Read(TINY, Some(f), None).events == [EVENT, EVENT]
            && Read(TINY, Some(f + EnvelopeBytes(TINY, EVENT) + [LF]), None).events == [EVENT]
  {
    TinyWrites();
    TinyGluedFails();
    hide *;
    assert [EVENT] + [EVENT] == [EVENT, EVENT];
    OneWritable(TINY, EVENT);
    CutLineFeedLosesTwo(TINY, [EVENT], EVENT, EVENT);
  }

  lemma {:induction false} OneWritable(c: Codec, ev: Value)
    requires PrintsWhole(c, HeaderValue()) && Writable(c, ev) && !IsHeaderRecord(ev)
    ensures AllWritable(c, [ev])
  {
    hide Writable, PrintsWhole, IsHeaderRecord, HeaderValue;
  }

  lemma {:induction false} TinyGluedFails()
    ensures GluedFails(TINY, EVENT)
  {
    TinyTexts();
    hide EventEnvelope, HeaderValue, CutFails, Bytes, Letters, TrimStart, StripEol;
    forall q: bytes | ParseTiny(Trim(Letters(StripEol(q)))).Some?
      ensures CutFails(TINY, q + EnvelopeBytes(TINY, EVENT))
    {
      TrimEndNothing();
      TinyGlued(q);
    }
  }
}
