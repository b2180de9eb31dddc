/** The write-ahead log reader (src/wal.rs): line splitting, integrity envelopes, tail truncation,
    refusal of corruption in the middle, and selection by byte offset.

    UTF-8 repair and JSON text are parameters (Codec); the facts about them that a theorem needs
    are stated as predicates beside it. */
module Wal {
  import opened Wrappers
  import opened Json
  import Crc32

  type bytes = seq<bv8>

  datatype Codec = Codec(
    lossy: bytes -> string,
    utf8: string -> bytes,
    parse: string -> Option<Value>,
    print_: Value -> string)

  const WAL_VERSION: nat := 1
  const LF: bv8 := 10
  const CR: bv8 := 13

  // ---------------------------------------------------------------- records on a line

  datatype WalLine = Ok(ev: Value) | Corrupt

  function HeaderValue(): Value {
    Obj([Field("kind", Str("wal_header")), Field("wal_version", Num(Unsigned(WAL_VERSION)))])
  }

  function EnvelopeValue(c: Codec, ev: Value): Value {
    var payload := c.print_(ev);
    Obj([Field("_c", Num(Unsigned(Crc32.Crc(c.utf8(payload)) as int))), Field("_d", Str(payload))])
  }

  function HeaderLine(c: Codec): string { c.print_(HeaderValue()) }

  function EnvelopeLine(c: Codec, ev: Value): string { c.print_(EnvelopeValue(c, ev)) }

  /** The stored checksum is cut to 32 bits before the comparison. */
  function DecodeWalLine(c: Codec, line: string, v1: bool): WalLine {
    match c.parse(line)
    case None => Corrupt
    case Some(v) =>
      match (AsU64(Get(v, "_c")), AsStr(Get(v, "_d")))
      case (Some(n), Some(d)) =>
        if Crc32.Crc(c.utf8(d)) as int != n % 0x1_0000_0000 then Corrupt
        else (match c.parse(d) case Some(ev) => WalLine.Ok(ev) case None => Corrupt)
      case _ => if v1 then Corrupt else WalLine.Ok(v)
  }

  function KindOf(v: Value): Option<string> { AsStr(Get(v, "kind")) }

  predicate IsHeaderRecord(v: Value) { KindOf(v) == Some("wal_header") }

  function EventKind(ev: Value): string { if KindOf(ev).Some? then KindOf(ev).value else "" }

  const KNOWN_KINDS: set<string> := {
    "register", "write", "component_add", "component_remove", "delete_tombstone", "transfer",
    "authority_epoch", "failover_grant", "block_migration", "component_authority",
    "threshold_prepare", "threshold_preload_ready", "threshold_commit", "threshold_adopt",
    "threshold_abort", "mesh_out", "mesh_acked", "partition_config", "reserve_entity_ids",
    "snapshot_marker" }

  predicate IsKnownKind(kind: string) { kind in KNOWN_KINDS }

  /** An envelope written for an event that prints and parses back decodes to that event. */
  lemma {:induction false} EnvelopeDecodes(c: Codec, ev: Value, v1: bool)
    requires c.parse(EnvelopeLine(c, ev)) == Some(EnvelopeValue(c, ev))
    requires c.parse(c.print_(ev)) == Some(ev)
    ensures DecodeWalLine(c, EnvelopeLine(c, ev), v1) == WalLine.Ok(ev)
  {
    var v := EnvelopeValue(c, ev);
    assert "_c"[1] != "_d"[1];
    assert Find(v.fields, "_d") == Find(v.fields[1..], "_d") == Some(v.fields[1].value);
    ChecksumFits(Crc32.Crc(c.utf8(c.print_(ev))));
    assert AsU64(Get(v, "_c")).Some? && AsStr(Get(v, "_d")).Some?;
  }

  /** Only the low 32 bits of the stored checksum count. */
  lemma {:induction false} StoredChecksumWraps(c: Codec, line: string, v1: bool, d: string, ev: Value, n: u64, k: nat)
    requires n == Crc32.Crc(c.utf8(d)) as int + k * 0x1_0000_0000
    requires c.parse(line) == Some(Obj([Field("_c", Num(Unsigned(n))), Field("_d", Str(d))]))
    requires c.parse(d) == Some(ev)
    ensures DecodeWalLine(c, line, v1) == WalLine.Ok(ev)
  {
    var v := Obj([Field("_c", Num(Unsigned(n))), Field("_d", Str(d))]);
    assert "_c"[1] != "_d"[1];
    assert Find(v.fields, "_d") == Find(v.fields[1..], "_d") == Some(v.fields[1].value);
    ChecksumFits(Crc32.Crc(c.utf8(d)));
    WrapsAround(Crc32.Crc(c.utf8(d)) as int, k);
  }

  lemma {:induction false} WrapsAround(a: int, k: nat)
    ensures (a + k * 0x1_0000_0000) % 0x1_0000_0000 == a % 0x1_0000_0000
  {}

  /** A payload changed only inside one window of at most four bytes, under the checksum that was
      written for it, is always found corrupt. */
  lemma {:induction false} TamperedIsCorrupt(c: Codec, line: string, v1: bool, v: Value, d: string,
                          before: bytes, x: bytes, y: bytes, after: bytes)
    requires c.parse(line) == Some(v)
    requires Get(v, "_c") == Some(Num(Unsigned(Crc32.Crc(before + x + after) as int)))
    requires Get(v, "_d") == Some(Str(d)) && c.utf8(d) == before + y + after
    requires |x| == |y| <= 4 && x != y
    ensures DecodeWalLine(c, line, v1) == Corrupt
  {
    Crc32.WindowChangesCrc(before, x, y, after);
    ChecksumFits(Crc32.Crc(before + x + after));
    DistinctWords(Crc32.Crc(before + x + after), Crc32.Crc(before + y + after));
  }

  lemma {:induction false} WordBack(a: bv32)
    ensures (a as int) as bv32 == a && 0 <= a as int < 0x1_0000_0000
  {}

  lemma {:induction false} SmallMod(n: int)
    requires 0 <= n < 0x1_0000_0000
    ensures n % 0x1_0000_0000 == n
  {}

  lemma {:induction false} ChecksumFits(a: bv32)
    ensures a as int % 0x1_0000_0000 == a as int
  {
    WordBack(a);
    SmallMod(a as int);
  }

  lemma {:induction false} DistinctWords(a: bv32, b: bv32)
    requires a != b
    ensures a as int != b as int
  {
    WordBack(a);
    WordBack(b);
  }

  // ---------------------------------------------------------------- lines of a file

  /** One line as read: text without its line ending, bytes on disk, offset just past it. */
  datatype RawLine = RawLine(text: string, size: nat, cumEnd: nat)

  /** How far a read up to the next line feed goes. */
  function LineLength(file: bytes): (n: nat)
    ensures n <= |file| && (file != [] ==> n > 0)
  {
    if file == [] then 0 else if file[0] == LF then 1 else 1 + LineLength(file[1..])
  }

  function StripEol(b: bytes): bytes {
    if b != [] && (b[|b| - 1] == LF || b[|b| - 1] == CR) then StripEol(b[..|b| - 1]) else b
  }

  function RawLines(c: Codec, file: bytes, base: nat): seq<RawLine>
    decreases |file|
  {
    if file == [] then []
    else
      var n := LineLength(file);
      [RawLine(c.lossy(StripEol(file[..n])), n, base + n)] + RawLines(c, file[n..], base + n)
  }

  /** Unicode White_Space, the characters Rust's trim removes. */
  predicate IsWhitespace(ch: char) {
    || '\U{0009}' <= ch <= '\U{000D}' || ch == ' ' || ch == '\U{0085}' || ch == '\U{00A0}'
    || ch == '\U{1680}' || '\U{2000}' <= ch <= '\U{200A}' || ch == '\U{2028}' || ch == '\U{2029}'
    || ch == '\U{202F}' || ch == '\U{205F}' || ch == '\U{3000}'
  }

  function TrimStart(s: string): string {
    if s != [] && IsWhitespace(s[0]) then TrimStart(s[1..]) else s
  }

  function TrimEnd(s: string): string {
    if s != [] && IsWhitespace(s[|s| - 1]) then TrimEnd(s[..|s| - 1]) else s
  }

  function Trim(s: string): string { TrimEnd(TrimStart(s)) }

  predicate Blank(raw: RawLine) { Trim(raw.text) == [] }

  // ---------------------------------------------------------------- what a file says

  function FirstNonBlank(raws: seq<RawLine>): (r: Option<nat>)
    ensures r.Some? ==> r.value < |raws| && !Blank(raws[r.value])
    ensures r.Some? ==> forall i :: 0 <= i < r.value ==> Blank(raws[i])
    ensures r.None? ==> forall i :: 0 <= i < |raws| ==> Blank(raws[i])
  {
    if raws == [] then None
    else if !Blank(raws[0]) then Some(0)
    else
      match FirstNonBlank(raws[1..])
      case None => None
      case Some(i) => Some(i + 1)
  }

  /** The version a first line announces; anything but a header counts as version 0. */
  function AnnouncedVersion(c: Codec, raw: RawLine): nat {
    match c.parse(Trim(raw.text))
    case Some(v) =>
      if IsHeaderRecord(v) && AsU64(Get(v, "wal_version")).Some? then AsU64(Get(v, "wal_version")).value else 0
    case None => 0
  }

  function FileVersion(c: Codec, raws: seq<RawLine>): nat {
    match FirstNonBlank(raws)
    case Some(i) => AnnouncedVersion(c, raws[i])
    case None => 0
  }

  datatype Rec = Rec(ev: Option<Value>, size: nat, cumEnd: nat)

  /** The record a line holds, if it holds one: blank lines and header records hold none. */
  function LineRecord(c: Codec, raw: RawLine, v1: bool): (r: seq<Rec>)
    ensures |r| <= 1 && (r != [] ==> r[0].size == raw.size && r[0].cumEnd == raw.cumEnd)
  {
    if Blank(raw) then []
    else
      match DecodeWalLine(c, Trim(raw.text), v1)
      case Ok(v) => if IsHeaderRecord(v) then [] else [Rec(Some(v), raw.size, raw.cumEnd)]
      case Corrupt => [Rec(None, raw.size, raw.cumEnd)]
  }

  function Records(c: Codec, raws: seq<RawLine>, v1: bool, header: Option<nat>): seq<Rec> {
    if raws == [] then []
    else
      var n := |raws| - 1;
      Records(c, raws[..n], v1, header) + if header == Some(n) then [] else LineRecord(c, raws[n], v1)
  }

  /** Records up to and including the last decodable one. */
  function GoodPrefix(recs: seq<Rec>): (n: nat)
    ensures n <= |recs|
    ensures n > 0 ==> recs[n - 1].ev.Some?
    ensures forall i :: n <= i < |recs| ==> recs[i].ev.None?
  {
    if recs == [] then 0
    else if recs[|recs| - 1].ev.Some? then |recs|
    else GoodPrefix(recs[..|recs| - 1])
  }

  function TailBytes(recs: seq<Rec>): nat {
    if recs == [] then 0 else recs[0].size + TailBytes(recs[1..])
  }

  function Selected(recs: seq<Rec>, upTo: Option<nat>): seq<Value> {
    if recs == [] then []
    else
      var r := recs[|recs| - 1];
      Selected(recs[..|recs| - 1], upTo)
      + if (upTo.Some? ==> r.cumEnd <= upTo.value) && r.ev.Some? then [r.ev.value] else []
  }

  // ---------------------------------------------------------------- the report

  datatype WalError = VersionReject(version: nat) | MidCorruption

  datatype Report = Report(
    walVersion: nat,
    selectedEvents: nat,
    decodedRecords: nat,
    corruptTailRecords: nat,
    truncatedTailBytes: nat,
    recoverablePrefixBytes: nat,
    unknownKindCount: nat,
    kindCounts: map<string, nat>,
    unknownKinds: map<string, nat>,
    error: Option<WalError>)

  datatype ReadResult = ReadResult(events: seq<Value>, report: Report)

  function EmptyReport(version: nat, error: Option<WalError>): Report {
    Report(version, 0, 0, 0, 0, 0, 0, map[], map[], error)
  }

  function Bump(m: map<string, nat>, k: string): map<string, nat> {
    m[k := (if k in m then m[k] else 0) + 1]
  }

  function Tally(events: seq<Value>): map<string, nat> {
    if events == [] then map[] else Bump(Tally(events[..|events| - 1]), EventKind(events[|events| - 1]))
  }

  function Unknown(events: seq<Value>): seq<Value> {
    if events == [] then []
    else
      var e := events[|events| - 1];
      Unknown(events[..|events| - 1]) + if IsKnownKind(EventKind(e)) then [] else [e]
  }

  ghost function SumMap(m: map<string, nat>): nat {
    if m == map[] then 0 else var k :| k in m; m[k] + SumMap(m - {k})
  }

  ghost predicate MidCorrupt(recs: seq<Rec>, good: nat)
    requires good <= |recs|
  {
    exists i :: 0 <= i < good && recs[i].ev.None?
  }

  /** What reading a file of these lines yields. */
  ghost function ReadRaw(c: Codec, raws: seq<RawLine>, upTo: Option<nat>): ReadResult {
    var version := FileVersion(c, raws);
    if version > WAL_VERSION then ReadResult([], EmptyReport(version, Some(VersionReject(version))))
    else
      var v1 := version >= 1;
      var header := if v1 then FirstNonBlank(raws) else None;
      var recs := Records(c, raws, v1, header);
      var good := if v1 then GoodPrefix(recs) else |recs|;
      if v1 && MidCorrupt(recs, good) then ReadResult([], EmptyReport(version, Some(MidCorruption)))
      else
        var prefix :=
          if v1 then (if good > 0 then recs[good - 1].cumEnd else raws[header.value].cumEnd)
          else if raws == [] then 0 else raws[|raws| - 1].cumEnd;
        var events := Selected(recs[..good], upTo);
        ReadResult(events, Report(version, |events|, |events|, |recs| - good, TailBytes(recs[good..]), prefix,
                                  SumMap(Tally(Unknown(events))), Tally(events), Tally(Unknown(events)), None))
  }

  /** A file that cannot be opened reads as an empty log. */
  ghost function Read(c: Codec, file: Option<bytes>, upTo: Option<nat>): ReadResult {
    match file
    case None => ReadResult([], EmptyReport(WAL_VERSION, None))
    case Some(f) => ReadRaw(c, RawLines(c, f, 0), upTo)
  }
}
