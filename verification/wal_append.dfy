/** Truncating a log to its recoverable prefix and writing to it again (src/wal.rs). */
module WalAppend {
  import opened Wrappers
  import opened Json
  import opened Wal
  import opened WalRecovery
  import opened WalDurability

  // ---------------------------------------------------------------- what an error-free read reports

  ghost predicate Recoverable(c: Codec, raws: seq<RawLine>) {
    FileVersion(c, raws) == 1 && !Refused(V1Records(c, raws))
  }

  /** Bytes through the last decodable record, or through the header when there is none. */
  ghost function PrefixEnd(c: Codec, raws: seq<RawLine>): nat
    requires FirstNonBlank(raws).Some?
  {
    var recs := V1Records(c, raws);
    var good := GoodPrefix(recs);
    if good > 0 then recs[good - 1].cumEnd else raws[FirstNonBlank(raws).value].cumEnd
  }

  lemma {:induction false} Reported(c: Codec, raws: seq<RawLine>)
    ensures var r, recs := ReadRaw(c, raws, None), V1Records(c, raws);
            && (r.report.error.None? && r.report.walVersion == 1 <==> Recoverable(c, raws))
            && (Recoverable(c, raws) ==>
                  && FirstNonBlank(raws).Some?
                  && r.report.corruptTailRecords == |recs| - GoodPrefix(recs)
                  && r.report.truncatedTailBytes == TailBytes(recs[GoodPrefix(recs)..])
                  && r.report.recoverablePrefixBytes == PrefixEnd(c, raws)
                  && r.events == Selected(recs, None))
  {
    hide Records, AnnouncedVersion, SumMap, Tally, Unknown, Selected;
    MidCorruptIff(V1Records(c, raws));
    AllDecodable(V1Records(c, raws));
  }

  // ---------------------------------------------------------------- the recoverable prefix

  lemma {:induction false} SourceLine(c: Codec, raw: RawLine, r: Rec)
    requires LineRecord(c, raw, true) == [r] && r.ev.Some?
    ensures !Blank(raw) && raw.cumEnd == r.cumEnd && c.parse(Trim(raw.text)).Some?
  {}

  lemma {:induction false} HeaderParses(c: Codec, raw: RawLine)
    requires AnnouncedVersion(c, raw) >= 1
    ensures c.parse(Trim(raw.text)).Some?
  {}

  lemma {:induction false} NextRecords(c: Codec, raws: seq<RawLine>, v1: bool, h: Option<nat>, i: nat)
    requires i < |raws|
    ensures Records(c, raws[..i + 1], v1, h) ==
            Records(c, raws[..i], v1, h) + if h == Some(i) then [] else LineRecord(c, raws[i], v1)
  {
    hide LineRecord;
    assert raws[..i + 1][..i] == raws[..i];
  }

  /** The lines recovery keeps: through the last decodable record, or through the header. */
  lemma {:induction false} RecoverableLines(c: Codec, raws: seq<RawLine>) returns (k: nat)
    requires Recoverable(c, raws) && FirstNonBlank(raws).Some?
    ensures 0 < k <= |raws| && PrefixEnd(c, raws) == raws[k - 1].cumEnd && FirstNonBlank(raws).value < k
    ensures var recs := V1Records(c, raws);
            Records(c, raws[..k], true, FirstNonBlank(raws)) == recs[..GoodPrefix(recs)]
    ensures c.parse(Trim(raws[k - 1].text)).Some?
    ensures if V1Records(c, raws) != [] && GoodPrefix(V1Records(c, raws)) > 0
            then FirstNonBlank(raws).value < k - 1 && |LineRecord(c, raws[k - 1], true)| == 1
            else k == FirstNonBlank(raws).value + 1
  {
    hide LineRecord, AnnouncedVersion, Records, Blank;
    var f := FirstNonBlank(raws);
    var recs := V1Records(c, raws);
    var good := GoodPrefix(recs);
    if good > 0 {
      var i := RecordSource(c, raws, true, f, good - 1);
      SourceLine(c, raws[i], recs[good - 1]);
      k := i + 1;
      NextRecords(c, raws, true, f, i);
      assert recs[..good - 1] + [recs[good - 1]] == recs[..good];
    } else {
      k := f.value + 1;
      BlankRecords(c, raws[..f.value], true, f);
      NextRecords(c, raws, true, f, f.value);
      HeaderParses(c, raws[f.value]);
    }
  }

  lemma {:induction false} GoodPrefixFull(recs: seq<Rec>)
    requires !Refused(recs)
    ensures var good := GoodPrefix(recs); GoodPrefix(recs[..good]) == good && !Refused(recs[..good])
  {
    GoodPrefixOfCut(recs, GoodPrefix(recs));
  }

  lemma {:induction false} PrefixReadsSame(c: Codec, raws: seq<RawLine>)
    requires Ordered(raws) && Recoverable(c, raws)
    ensures FirstNonBlank(raws).Some?
    ensures exists k :: 0 < k <= |raws| && PrefixEnd(c, raws) == End(raws, k, 0) && SameRecovery(c, raws, raws[..k])
  {
    hide Records, Refused, AnnouncedVersion;
    var k := RecoverableLines(c, raws);
    CutVersion(c, raws, k);
    var recs := V1Records(c, raws);
    GoodPrefixFull(recs);
    AllDecodable(recs);
    assert V1Records(c, raws[..k]) == recs[..GoodPrefix(recs)];
    assert End(raws, k, 0) == raws[k - 1].cumEnd;
    assert SameRecovery(c, raws, raws[..k]);
  }

  /** The second log recovers the events of the first, and all of it is recoverable. */
  ghost predicate SameRecovery(c: Codec, raws: seq<RawLine>, kept: seq<RawLine>)
    requires FirstNonBlank(raws).Some?
  {
    && Recoverable(c, kept) && FirstNonBlank(kept).Some?
    && Selected(V1Records(c, kept), None) == Selected(V1Records(c, raws), None)
    && GoodPrefix(V1Records(c, kept)) == |V1Records(c, kept)|
    && PrefixEnd(c, kept) == PrefixEnd(c, raws)
  }

  /** Recovery is a fixed point: the recoverable prefix reads back as the same events, with no
      corrupt tail and the same prefix length. */
  lemma {:induction false} RecoveryIsFixedPoint(c: Codec, file: bytes)
    requires var r := Read(c, Some(file), None).report; r.error.None? && r.walVersion == 1
    ensures var r := Read(c, Some(file), None);
            var p := r.report.recoverablePrefixBytes;
            && 0 < p <= |file|
            && var s := Read(c, Some(file[..p]), None);
               && s.report.error.None? && s.report.walVersion == 1
               && s.events == r.events
               && s.report.corruptTailRecords == 0 && s.report.truncatedTailBytes == 0
               && s.report.recoverablePrefixBytes == p
  {
    var raws := RawLines(c, file, 0);
    assert Recoverable(c, raws) by {
      Reported(c, raws);
      hide Recoverable, ReadRaw;
    }
    PrefixPositive(c, raws);
    RawOrdered(c, file, 0);
    PrefixReadsSame(c, raws);
    hide RawLines, ReadRaw, V1Records, PrefixEnd, Recoverable, Ordered;
    var k :| 0 < k <= |raws| && PrefixEnd(c, raws) == End(raws, k, 0) && SameRecovery(c, raws, raws[..k]);
    RawPrefix(c, file, 0, k);
    KeptReport(c, raws, raws[..k]);
  }

  lemma {:induction false} PrefixPositive(c: Codec, raws: seq<RawLine>)
    requires Recoverable(c, raws)
    ensures FirstNonBlank(raws).Some?
  {
    Reported(c, raws);
    hide ReadRaw;
  }

  /** What reading the kept lines reports. */
  lemma {:induction false} KeptReport(c: Codec, raws: seq<RawLine>, kept: seq<RawLine>)
    requires Recoverable(c, raws) && FirstNonBlank(raws).Some? && SameRecovery(c, raws, kept)
    ensures
      var r, s := ReadRaw(c, raws, None), ReadRaw(c, kept, None);
      && r.report.recoverablePrefixBytes == PrefixEnd(c, raws)
      && s.report.error.None? && s.report.walVersion == 1
      && s.events == r.events
      && s.report.corruptTailRecords == 0 && s.report.truncatedTailBytes == 0
      && s.report.recoverablePrefixBytes == PrefixEnd(c, raws)
  {
    hide ReadRaw, V1Records, PrefixEnd, Selected, Recoverable;
    Reported(c, raws);
    Reported(c, kept);
    var recs := V1Records(c, kept);
    assert recs[|recs|..] == [];
  }

  // ---------------------------------------------------------------- appending

  ghost predicate PlainText(e: bytes) { e != [] && LF !in e && e[|e| - 1] != CR }

  lemma {:induction false} ClosedLine(c: Codec, e: bytes, d: bytes, base: nat)
    requires PlainText(e) && d == e + [LF]
    ensures RawLines(c, d, base) == [RawLine(c.lossy(e), |d|, base + |d|)]
  {
    hide RawLines;
    PlainLine(c, e, base);
  }

  lemma {:induction false} LineBehind(c: Codec, f: bytes, e: bytes, d: bytes)
    requires (f == [] || EndsInLf(f)) && PlainText(e) && d == e + [LF]
    ensures RawLines(c, f + d, 0) == RawLines(c, f, 0) + [RawLine(c.lossy(e), |d|, |f| + |d|)]
  {
    hide *;
    ClosedLine(c, e, d, |f|);
    RawConcat(c, f, d, 0);
  }

  /** The lines of a file that ends in a line feed, plus one appended envelope. */
  lemma {:induction false} AppendedLines(c: Codec, f: bytes, ev: Value)
    requires EndsInLf(f) && Writable(c, ev)
    ensures var e := EnvelopeBytes(c, ev);
            RawLines(c, f + e + [LF], 0) == RawLines(c, f, 0) + [RawLine(EnvelopeLine(c, ev), |e| + 1, |f| + |e| + 1)]
  {
    hide RawLines, EnvelopeBytes, EnvelopeLine, Writable, EndsInLf;
    var e := EnvelopeBytes(c, ev);
    EnvelopePlain(c, ev);
    assert PlainText(e);
    LineBehind(c, f, e, e + [LF]);
    Regroup(f, e);
  }

  lemma {:induction false} Regroup(f: bytes, e: bytes)
    ensures f + e + [LF] == f + (e + [LF])
  {}

  lemma {:induction false} AppendedRecords(c: Codec, raws: seq<RawLine>, raw: RawLine, ev: Value)
    requires FileVersion(c, raws) == 1 && Writable(c, ev) && !IsHeaderRecord(ev) && raw.text == EnvelopeLine(c, ev)
    ensures FirstNonBlank(raws + [raw]) == FirstNonBlank(raws) && FileVersion(c, raws + [raw]) == 1
    ensures V1Records(c, raws + [raw]) == V1Records(c, raws) + [Rec(Some(ev), raw.size, raw.cumEnd)]
  {
    hide LineRecord, Blank, AnnouncedVersion, Records;
    FirstNonBlankFirst(raws, raw);
    RecordsConcat(c, raws, [raw], true, FirstNonBlank(raws));
    EnvelopeRecord(c, ev, raw, true);
    OneLineRecords(c, raw, true);
  }

  lemma {:induction false} FirstNonBlankFirst(raws: seq<RawLine>, raw: RawLine)
    requires FirstNonBlank(raws).Some?
    ensures FirstNonBlank(raws + [raw]) == FirstNonBlank(raws)
  {
    hide Blank;
    var x := raws + [raw];
    assert x[0] == raws[0] && x[1..] == raws[1..] + [raw];
    if Blank(raws[0]) {
      FirstNonBlankFirst(raws[1..], raw);
    }
  }

  /** Appending after a corrupt tail that was not truncated makes the log unreadable. */
  lemma {:induction false} AppendAfterCorruptTailRefused(c: Codec, file: bytes, ev: Value)
    requires EndsInLf(file) && Writable(c, ev) && !IsHeaderRecord(ev)
    requires var r := Read(c, Some(file), None).report; r.error.None? && r.walVersion == 1 && r.corruptTailRecords > 0
    ensures Read(c, Some(file + EnvelopeBytes(c, ev) + [LF]), None).report.error == Some(MidCorruption)
  {
    hide RawLines, ReadRaw, V1Records, FirstNonBlank, FileVersion, Writable;
    var raws := RawLines(c, file, 0);
    Reported(c, raws);
    AppendedLines(c, file, ev);
    var e := EnvelopeBytes(c, ev);
    var raw := RawLine(EnvelopeLine(c, ev), |e| + 1, |file| + |e| + 1);
    AppendedRecords(c, raws, raw, ev);
    RefusedExactly(c, raws + [raw], None);
    var recs := V1Records(c, raws);
    var all := V1Records(c, raws + [raw]);
    assert all[|recs| - 1].ev.None? && all[|recs|].ev.Some?;
  }

  lemma {:induction false} AppendedReads(c: Codec, raws: seq<RawLine>, raw: RawLine, ev: Value)
    requires Recoverable(c, raws) && GoodPrefix(V1Records(c, raws)) == |V1Records(c, raws)|
    requires Writable(c, ev) && !IsHeaderRecord(ev) && raw.text == EnvelopeLine(c, ev)
    ensures Recoverable(c, raws + [raw])
    ensures Selected(V1Records(c, raws + [raw]), None) == Selected(V1Records(c, raws), None) + [ev]
  {
    hide V1Records, FirstNonBlank, FileVersion, Selected, Writable;
    AppendedRecords(c, raws, raw, ev);
    var recs := V1Records(c, raws);
    var r := Rec(Some(ev), raw.size, raw.cumEnd);
    MidCorruptIff(recs);
    assert forall i :: 0 <= i < |recs| ==> recs[i].ev.Some?;
    SelectedConcat(recs, [r], None);
    SelectedOne(r);
  }

  // ---------------------------------------------------------------- a prefix without its line feed

  lemma {:induction false} WholeLine(c: Codec, f: bytes, base: nat)
    requires f != [] && LineLength(f) == |f|
    ensures RawLines(c, f, base) == [RawLine(c.lossy(StripEol(f)), |f|, base + |f|)]
  {
    hide StripEol;
    assert f[..|f|] == f && f[|f|..] == [];
  }

  lemma {:induction false} LastLineBehind(c: Codec, x: bytes, y: bytes, b: bytes, r: RawLine, base: nat)
    requires EndsInLf(x)
    requires RawLines(c, y, base + |x|) == RawLines(c, b, base + |x|) + [r]
    ensures RawLines(c, x + y, base) == RawLines(c, x + b, base) + [r]
  {
    hide *;
    RawConcat(c, x, b, base);
    RawConcat(c, x, y, base);
  }

  lemma {:induction false} JoinLast(x: bytes, y: bytes, b: bytes, t: bytes)
    requires EndsInLf(x) && y == b + t && (b == [] || EndsInLf(b))
    ensures x + y == x + b + t && EndsInLf(x + b)
  {}

  /** A file's last line stands alone. */
  lemma {:induction false} LastLine(c: Codec, f: bytes, base: nat) returns (a: bytes, t: bytes)
    requires f != []
    ensures f == a + t && t != [] && (a == [] || EndsInLf(a)) && LineLength(t) == |t|
    ensures RawLines(c, f, base) == RawLines(c, a, base) + [RawLine(c.lossy(StripEol(t)), |t|, base + |f|)]
    decreases |f|
  {
    hide RawLines, StripEol;
    var n := LineLength(f);
    if n == |f| {
      a, t := [], f;
      LoneLine(c, f, base);
    } else {
      var x, y := f[..n], f[n..];
      FirstLineEnds(f);
      var b;
      b, t := LastLine(c, y, base + n);
      a := x + b;
      NotTheLastLine(c, f, x, y, b, t, base);
    }
  }

  lemma {:induction false} LoneLine(c: Codec, f: bytes, base: nat)
    requires f != [] && LineLength(f) == |f|
    ensures RawLines(c, f, base) == RawLines(c, [], base) + [RawLine(c.lossy(StripEol(f)), |f|, base + |f|)]
  {
    WholeLine(c, f, base);
    NoRaw(c, base);
    hide *;
    EmptyFirst([RawLine(c.lossy(StripEol(f)), |f|, base + |f|)]);
  }

  lemma {:induction false} NotTheLastLine(c: Codec, f: bytes, x: bytes, y: bytes, b: bytes, t: bytes, base: nat)
    requires f == x + y && EndsInLf(x) && y == b + t && (b == [] || EndsInLf(b))
    requires RawLines(c, y, base + |x|)
      == RawLines(c, b, base + |x|) + [RawLine(c.lossy(StripEol(t)), |t|, base + |x| + |y|)]
    ensures f == x + b + t && EndsInLf(x + b)
    ensures RawLines(c, f, base) == RawLines(c, x + b, base) + [RawLine(c.lossy(StripEol(t)), |t|, base + |f|)]
  {
    JoinLast(x, y, b, t);
    hide *;
    LastLineBehind(c, x, y, b, RawLine(c.lossy(StripEol(t)), |t|, base + |f|), base);
  }

  lemma {:induction false} FirstLineEnds(f: bytes)
    requires LineLength(f) < |f|
    ensures EndsInLf(f[..LineLength(f)])
  {
    if f[0] != LF {
      FirstLineEnds(f[1..]);
      assert f[..LineLength(f)][1..] == f[1..][..LineLength(f) - 1];
    }
  }

  lemma {:induction false} LineWithoutLf(t: bytes)
    requires LineLength(t) == |t| && !EndsInLf(t)
    ensures LF !in t
  {
    if t != [] {
      LineWithoutLf(t[1..]);
    }
  }

  /** An envelope written behind a line that has no line feed becomes part of that line. */
  lemma {:induction false} GluedLines(c: Codec, f: bytes, ev: Value)
    returns (a: seq<RawLine>, last: RawLine, glued: RawLine)
    requires f != [] && !EndsInLf(f) && Writable(c, ev) && GluedFails(c, ev)
    ensures RawLines(c, f, 0) == a + [last] && last.cumEnd == |f|
    ensures RawLines(c, f + EnvelopeBytes(c, ev) + [LF], 0) == a + [glued]
    ensures c.parse(Trim(last.text)).Some? ==> !Blank(glued) && c.parse(Trim(glued.text)).None?
  {
    hide StripEol, RawLines, LineLength, EnvelopeBytes, Writable, Trim;
    var e := EnvelopeBytes(c, ev);
    EnvelopePlain(c, ev);
    var x, t := LastLine(c, f, 0);
    LineWithoutLf(t);
    var g := t + e;
    assert PlainText(g);
    LineBehind(c, x, g, g + [LF]);
    assert f + e + [LF] == x + (g + [LF]);
    a := RawLines(c, x, 0);
    last := RawLine(c.lossy(StripEol(t)), |t|, |f|);
    glued := RawLine(c.lossy(g), |g| + 1, |x| + |g| + 1);
    if c.parse(Trim(last.text)).Some? {
      assert CutFails(c, t + e);
    }
  }

  lemma {:induction false} UnparsedRecord(c: Codec, raw: RawLine, v1: bool)
    requires !Blank(raw) && c.parse(Trim(raw.text)).None?
    ensures LineRecord(c, raw, v1) == [Rec(None, raw.size, raw.cumEnd)] && AnnouncedVersion(c, raw) == 0
  {}

  lemma {:induction false} FirstBlanks(a: seq<RawLine>, last: RawLine, glued: RawLine)
    requires FirstNonBlank(a + [last]) == Some(|a|) && !Blank(glued)
    ensures FirstNonBlank(a + [glued]) == Some(|a|)
    ensures forall i :: 0 <= i < |a| ==> Blank(a[i])
  {
    hide Blank;
    assert forall i :: 0 <= i < |a| ==> (a + [last])[i] == a[i] == (a + [glued])[i];
    assert (a + [glued])[|a|] == glued;
  }

  lemma {:induction false} GluedHeaderRecords(c: Codec, a: seq<RawLine>, glued: RawLine)
    requires forall i :: 0 <= i < |a| ==> Blank(a[i])
    requires FirstNonBlank(a + [glued]) == Some(|a|)
    requires !Blank(glued) && c.parse(Trim(glued.text)).None?
    ensures FileVersion(c, a + [glued]) == 0
    ensures ModeRecords(c, a + [glued]) == [Rec(None, glued.size, glued.cumEnd)]
  {
    hide LineRecord, Blank, AnnouncedVersion, Records, FirstNonBlank;
    UnparsedRecord(c, glued, false);
    assert (a + [glued])[|a|] == glued;
    RecordsConcat(c, a, [glued], false, None);
    BlankRecords(c, a, false, None);
    OneLineRecords(c, glued, false);
  }

  /** Only the header was there: gluing to it leaves a log without a header, and nothing is read. */
  lemma {:induction false} GluedHeader(c: Codec, a: seq<RawLine>, last: RawLine, glued: RawLine)
    requires FirstNonBlank(a + [last]) == Some(|a|)
    requires !Blank(glued) && c.parse(Trim(glued.text)).None?
    ensures var s := ReadRaw(c, a + [glued], None); s.report.error.None? && s.events == []
  {
    hide Blank, ReadRaw, FirstNonBlank, ModeRecords, FileVersion, Trim, Selected;
    FirstBlanks(a, last, glued);
    GluedHeaderRecords(c, a, glued);
    ReadOutcome(c, a + [glued], None);
    SelectedNone(ModeRecords(c, a + [glued])[..1], None);
  }

  /** Gluing destroys the last record: the events in front of it are all that is recovered. */
  lemma {:induction false} GluedRecord(c: Codec, a: seq<RawLine>, last: RawLine, glued: RawLine)
    requires Recoverable(c, a + [last]) && FirstNonBlank(a + [last]).Some? && FirstNonBlank(a + [last]).value < |a|
    requires GoodPrefix(V1Records(c, a + [last])) == |V1Records(c, a + [last])| && |LineRecord(c, last, true)| == 1
    requires !Blank(glued) && c.parse(Trim(glued.text)).None?
    ensures Recoverable(c, a + [glued])
    ensures var r := Selected(V1Records(c, a + [last]), None);
            r != [] && Selected(V1Records(c, a + [glued]), None) == r[..|r| - 1]
  {
    hide LineRecord, Blank, AnnouncedVersion, Records, Selected;
    UnparsedRecord(c, glued, true);
    assert (a + [last])[..|a|] == a && (a + [glued])[..|a|] == a;
    FirstNonBlankPrefix(a + [last], |a|);
    FirstNonBlankFirst(a, glued);
    var f := FirstNonBlank(a);
    assert (a + [glued])[f.value] == a[f.value] == (a + [last])[f.value];
    RecordsConcat(c, a, [glued], true, f);
    RecordsConcat(c, a, [last], true, f);
    OneLineRecords(c, glued, true);
    OneLineRecords(c, last, true);
    MidCorruptIff(V1Records(c, a + [last]));
    GluedTail(Records(c, a, true, f), LineRecord(c, last, true), Rec(None, glued.size, glued.cumEnd));
  }

  lemma {:induction false} GluedTail(recs: seq<Rec>, last: seq<Rec>, glued: Rec)
    requires |last| == 1 && glued.ev.None?
    requires forall i :: 0 <= i < |recs| + 1 ==> (recs + last)[i].ev.Some?
    ensures !Refused(recs + [glued])
    ensures var r := Selected(recs + last, None);
            r != [] && Selected(recs + [glued], None) == r[..|r| - 1]
  {
    assert forall i :: 0 <= i < |recs| ==> (recs + last)[i] == recs[i] == (recs + [glued])[i];
    assert (recs + last)[|recs|] == last[0] && last == [last[0]];
    SelectedConcat(recs, last, None);
    SelectedConcat(recs, [glued], None);
    SelectedOne(last[0]);
    SelectedOne(glued);
  }

  /** What the next write finds when it follows a recovered log whose last line has no line feed. */
  lemma {:induction false} GluedAppend(c: Codec, f: bytes, ev: Value)
    requires f != [] && !EndsInLf(f) && Writable(c, ev) && GluedFails(c, ev)
    requires var r := Read(c, Some(f), None).report;
             r.error.None? && r.walVersion == 1 && r.corruptTailRecords == 0 && r.recoverablePrefixBytes == |f|
    ensures var r, s := Read(c, Some(f), None), Read(c, Some(f + EnvelopeBytes(c, ev) + [LF]), None);
            s.report.error.None? && s.events == if r.events == [] then [] else r.events[..|r.events| - 1]
  {
    hide RawLines, ReadRaw, V1Records, LineRecord, Blank, FirstNonBlank, FileVersion, GoodPrefix, PrefixEnd, Selected,
      Writable;
    var a, last, glued := GluedLines(c, f, ev);
    var raws := a + [last];
    RawOrdered(c, f, 0);
    Reported(c, raws);
    var k := RecoverableLines(c, raws);
    assert raws[|raws| - 1] == last;
    assert k == |raws| && raws[..k] == raws;
    if V1Records(c, raws) == [] {
      SelectedNone(V1Records(c, raws), None);
      GluedHeader(c, a, last, glued);
    } else {
      GluedRecord(c, a, last, glued);
      Reported(c, a + [glued]);
    }
  }

  /** After recovery, writing one more event behind the recoverable prefix recovers the old events
      and the new one exactly when that prefix ends in a line feed; otherwise the last old event is
      lost as well. */
  lemma {:induction false} AppendRecoversIff(c: Codec, file: bytes, ev: Value)
    requires Writable(c, ev) && GluedFails(c, ev) && !IsHeaderRecord(ev)
    requires var r := Read(c, Some(file), None).report; r.error.None? && r.walVersion == 1
    ensures var r := Read(c, Some(file), None);
            var p := r.report.recoverablePrefixBytes;
            && p <= |file|
            && var s := Read(c, Some(file[..p] + EnvelopeBytes(c, ev) + [LF]), None);
               && s.report.error.None?
               && (s.events == r.events + [ev] <==> EndsInLf(file[..p]))
               && (!EndsInLf(file[..p]) ==> s.events == if r.events == [] then [] else r.events[..|r.events| - 1])
  {
    hide ReadRaw, RawLines, Writable, GluedFails, V1Records, Selected, GoodPrefix, FileVersion, EndsInLf,
         EnvelopeBytes, EnvelopeLine;
    RecoveryIsFixedPoint(c, file);
    var r := Read(c, Some(file), None);
    var f := file[..r.report.recoverablePrefixBytes];
    if EndsInLf(f) {
      var raws := RawLines(c, f, 0);
      Reported(c, raws);
      AppendedLines(c, f, ev);
      var e := EnvelopeBytes(c, ev);
      var raw := RawLine(EnvelopeLine(c, ev), |e| + 1, |f| + |e| + 1);
      AppendedReads(c, raws, raw, ev);
      Reported(c, raws + [raw]);
    } else {
      GluedAppend(c, f, ev);
    }
  }
}
