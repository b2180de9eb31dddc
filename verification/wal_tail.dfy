/** What recovery reports of a corrupt tail (src/wal.rs): which lines it is, and that with the recoverable
    prefix it accounts for every byte of the file. */
module WalTail {
  import opened Wrappers
  import opened Json
  import opened Wal
  import opened WalRecovery
  import opened WalAppend

  /** A line that holds no record: blank, or a header record. */
  predicate Idle(c: Codec, raw: RawLine) { LineRecord(c, raw, true) == [] }

  /** The number of lines that hold a record. */
  function Busy(c: Codec, raws: seq<RawLine>): nat {
    if raws == [] then 0 else Busy(c, raws[..|raws| - 1]) + if Idle(c, raws[|raws| - 1]) then 0 else 1
  }

  function IdleBytes(c: Codec, raws: seq<RawLine>): nat {
    if raws == [] then 0
    else IdleBytes(c, raws[..|raws| - 1]) + if Idle(c, raws[|raws| - 1]) then raws[|raws| - 1].size else 0
  }

  function Size(raws: seq<RawLine>): nat {
    if raws == [] then 0 else Size(raws[..|raws| - 1]) + raws[|raws| - 1].size
  }

  lemma {:induction false} TailBytesConcat(a: seq<Rec>, b: seq<Rec>)
    ensures TailBytes(a + b) == TailBytes(a) + TailBytes(b)
  {
    if a == [] {
      assert a + b == b;
    } else {
      assert (a + b)[1..] == a[1..] + b;
      TailBytesConcat(a[1..], b);
    }
  }

  lemma {:induction false} LineBytes(c: Codec, raw: RawLine)
    ensures TailBytes(LineRecord(c, raw, true)) == if Idle(c, raw) then 0 else raw.size
    ensures |LineRecord(c, raw, true)| == if Idle(c, raw) then 0 else 1
  {
    hide Blank, DecodeWalLine;
    if !Idle(c, raw) {
      assert TailBytes(LineRecord(c, raw, true)[1..]) == 0;
    }
  }

  /** The records of some lines and their idle bytes are all of their bytes. */
  lemma {:induction false} BytesSplit(c: Codec, raws: seq<RawLine>)
    ensures TailBytes(Records(c, raws, true, None)) + IdleBytes(c, raws) == Size(raws)
    ensures |Records(c, raws, true, None)| == Busy(c, raws)
  {
    hide LineRecord, Idle;
    if raws != [] {
      var init, last := raws[..|raws| - 1], raws[|raws| - 1];
      BytesSplit(c, init);
      LineBytes(c, last);
      TailBytesConcat(Records(c, init, true, None), LineRecord(c, last, true));
      hide TailBytes;
    }
  }

  // ---------------------------------------------------------------- lines and offsets

  lemma {:induction false} LineAfterLine(c: Codec, file: bytes, base: nat, i: nat)
    requires i < |RawLines(c, file, base)|
    ensures var raws := RawLines(c, file, base); End(raws, i + 1, base) == End(raws, i, base) + raws[i].size
    decreases |file|
  {
    hide StripEol;
    if i > 0 {
      var n := LineLength(file);
      LineAfterLine(c, file[n..], base + n, i - 1);
      hide LineLength;
      assert forall j :: 0 < j < |RawLines(c, file, base)| ==>
        RawLines(c, file, base)[j] == RawLines(c, file[n..], base + n)[j - 1];
    }
  }

  lemma {:induction false} SizeBetween(c: Codec, file: bytes, k: nat, m: nat)
    requires k <= m <= |RawLines(c, file, 0)|
    ensures var raws := RawLines(c, file, 0); End(raws, k, 0) + Size(raws[k..m]) == End(raws, m, 0)
    decreases m
  {
    hide RawLines;
    if k < m {
      var raws := RawLines(c, file, 0);
      SizeBetween(c, file, k, m - 1);
      LineAfterLine(c, file, 0, m - 1);
      assert raws[k..m][..m - 1 - k] == raws[k..m - 1];
    }
  }

  // ---------------------------------------------------------------- the tail

  /** The lines from k on are the tail: none of them decodes, the records among them are those counted as
      corrupt, and with the idle lines among them they are all of the file behind the recoverable prefix. */
  ghost predicate TailFrom(c: Codec, file: bytes, k: nat) {
    var raws, r := RawLines(c, file, 0), Read(c, Some(file), None).report;
    && k <= |raws|
    && r.recoverablePrefixBytes == End(raws, k, 0)
    && r.corruptTailRecords == Busy(c, raws[k..])
    && r.recoverablePrefixBytes + r.truncatedTailBytes + IdleBytes(c, raws[k..]) == |file|
    && forall rec :: rec in Records(c, raws[k..], true, None) ==> rec.ev.None?
  }

  lemma {:induction false} RecordsBehind(c: Codec, raws: seq<RawLine>, k: nat)
    requires Recoverable(c, raws) && FirstNonBlank(raws).Some? && FirstNonBlank(raws).value < k <= |raws|
    requires
      var recs := V1Records(c, raws); Records(c, raws[..k], true, FirstNonBlank(raws)) == recs[..GoodPrefix(recs)]
    ensures var recs := V1Records(c, raws); Records(c, raws[k..], true, None) == recs[GoodPrefix(recs)..]
  {
    hide Records, FirstNonBlank, Recoverable, GoodPrefix;
    assert raws == raws[..k] + raws[k..];
    RecordsConcat(c, raws[..k], raws[k..], true, FirstNonBlank(raws));
  }

  /** Reading a version 1 log without error, every byte of it is in the recoverable prefix, in the corrupt
      tail, or in a blank or header line behind the prefix. */
  lemma {:induction false} TailAddsUp(c: Codec, file: bytes)
    requires var r := Read(c, Some(file), None).report; r.error.None? && r.walVersion == 1
    ensures exists k :: TailFrom(c, file, k)
  {
    hide RawLines, ReadRaw, Recoverable, V1Records, Records, FirstNonBlank, Busy, IdleBytes, TailBytes, PrefixEnd;
    var raws := RawLines(c, file, 0);
    Reported(c, raws);
    var k := RecoverableLines(c, raws);
    RecordsBehind(c, raws, k);
    BytesSplit(c, raws[k..]);
    RawOrdered(c, file, 0);
    SizeBetween(c, file, k, |raws|);
    assert raws[k..|raws|] == raws[k..];
    assert End(raws, k, 0) == raws[k - 1].cumEnd;
    assert TailFrom(c, file, k);
  }
}
