/** CRC-32 of the write-ahead log (src/wal.rs): the reflected IEEE 802.3 polynomial.

    The reference is the serial shift register of IEEE 802.3 clause 3.2.9: message bits enter one
    at a time, least significant bit of each byte first.  The program's table-driven loop is proved
    equal to it, and the register is proved to tell apart any two messages that differ only inside
    one run of at most 32 consecutive bits. */
module Crc32 {

  // ---------------------------------------------------------------- the shift register

  /** One step on the raw word, no message bit entering. */
  function Step(c: bv32): bv32 {
    if c & 1 != 0 then 0xEDB88320 ^ (c >> 1) else c >> 1
  }

  /** The register contents; a wrapper that keeps word arithmetic out of the inductions below. */
  datatype Register = Register(word: bv32)

  function Shift(r: Register): Register { Register(Step(r.word)) }

  function Xor(r: Register, s: Register): Register { Register(r.word ^ s.word) }

  function Bit(b: bool): Register { Register(if b then 1 else 0) }

  function ShiftN(r: Register, n: nat): Register
    decreases n
  {
    if n == 0 then r else ShiftN(Shift(r), n - 1)
  }

  /** Message bits enter at the low end, one per step. */
  function Feed(r: Register, bits: seq<bool>): Register
    decreases |bits|
  {
    if bits == [] then r else Feed(Shift(Xor(r, Bit(bits[0]))), bits[1..])
  }

  /** The eight bits of a byte in transmission order. */
  function ByteBits(b: bv8): (r: seq<bool>)
    ensures |r| == 8
  {
    [b & 1 != 0, b & 2 != 0, b & 4 != 0, b & 8 != 0, b & 16 != 0, b & 32 != 0, b & 64 != 0, b & 128 != 0]
  }

  function MessageBits(bytes: seq<bv8>): (r: seq<bool>)
    ensures |r| == 8 * |bytes|
  {
    if bytes == [] then [] else ByteBits(bytes[0]) + MessageBits(bytes[1..])
  }

  const PRESET := Register(0xFFFF_FFFF)

  /** The checksum: register preset to ones, complemented at the end. */
  function Crc(bytes: seq<bv8>): bv32 {
    Xor(Feed(PRESET, MessageBits(bytes)), PRESET).word
  }

  // ---------------------------------------------------------------- linear and invertible

  lemma {:induction false} XorParts(a: bv32, b: bv32)
    ensures (a ^ b) >> 1 == (a >> 1) ^ (b >> 1)
    ensures (a ^ b) & 1 == (a & 1) ^ (b & 1)
    ensures a & 1 == 0 || a & 1 == 1
    ensures b & 1 == 0 || b & 1 == 1
  {}

  lemma {:induction false} XorRegroup(x: bv32, y: bv32, p: bv32)
    ensures p ^ (x ^ y) == (p ^ x) ^ y
    ensures p ^ (x ^ y) == x ^ (p ^ y)
    ensures x ^ y == (p ^ x) ^ (p ^ y)
  {}

  lemma {:induction false} StepLinear(a: bv32, b: bv32)
    ensures Step(a ^ b) == Step(a) ^ Step(b)
  {
    XorParts(a, b);
    XorRegroup(a >> 1, b >> 1, 0xEDB88320);
  }

  lemma {:induction false} StepOfXor(a: bv32, b: bv32, c: bv32)
    requires c == a ^ b
    ensures Step(c) == Step(a) ^ Step(b)
  {
    StepLinear(a, b);
  }

  lemma {:induction false} ShiftOfXor(r: Register, s: Register)
    ensures Shift(Xor(r, s)).word == Step(r.word ^ s.word)
  {}

  lemma {:induction false} ShiftedXor(r: Register, s: Register)
    ensures Shift(Xor(r, s)).word == Step(r.word) ^ Step(s.word)
  {
    ShiftOfXor(r, s);
    StepOfXor(r.word, s.word, r.word ^ s.word);
  }

  lemma {:induction false} XorOfShifted(r: Register, s: Register)
    ensures Xor(Shift(r), Shift(s)).word == Step(r.word) ^ Step(s.word)
  {
    hide Step;
  }

  lemma {:induction false} ShiftLinear(r: Register, s: Register)
    ensures Shift(Xor(r, s)) == Xor(Shift(r), Shift(s))
  {
    ShiftedXor(r, s);
    XorOfShifted(r, s);
  }

  lemma {:induction false} ShiftNLinear(r: Register, s: Register, n: nat)
    ensures ShiftN(Xor(r, s), n) == Xor(ShiftN(r, n), ShiftN(s, n))
    decreases n
  {
    if n > 0 {
      ShiftLinear(r, s);
      ShiftNLinear(Shift(r), Shift(s), n - 1);
    }
  }

  /** The register run backwards. */
  function Unstep(c: bv32): bv32 {
    if c & 0x8000_0000 != 0 then ((c ^ 0xEDB88320) << 1) | 1 else c << 1
  }

  lemma {:induction false} UnstepClearTop(c: bv32)
    requires c & 0x8000_0000 == 0
    ensures (c << 1) & 1 == 0 && (c << 1) >> 1 == c
  {}

  lemma {:induction false} UnstepSetTop(c: bv32, d: bv32)
    requires c & 0x8000_0000 != 0 && d == ((c ^ 0xEDB88320) << 1) | 1
    ensures d & 1 != 0 && 0xEDB88320 ^ (d >> 1) == c
  {}

  lemma {:induction false} StepOfUnstep(c: bv32)
    ensures Step(Unstep(c)) == c
  {
    if c & 0x8000_0000 == 0 {
      UnstepClearTop(c);
    } else {
      UnstepSetTop(c, ((c ^ 0xEDB88320) << 1) | 1);
    }
  }

  lemma {:induction false} StepUndone(c: bv32)
    ensures Unstep(Step(c)) == c
  {}

  /** The byte step can be run in either direction: no two contents step to the same one. */
  lemma {:induction false} StepInvertible(c: bv32)
    ensures Unstep(Step(c)) == c
    ensures Step(Unstep(c)) == c
  {
    hide Step, Unstep;
    StepUndone(c);
    StepOfUnstep(c);
  }

  lemma {:induction false} ShiftInjective(r: Register, s: Register)
    requires Shift(r) == Shift(s)
    ensures r == s
  {
    StepUndone(r.word);
    StepUndone(s.word);
  }

  lemma {:induction false} ShiftNInjective(r: Register, s: Register, n: nat)
    requires ShiftN(r, n) == ShiftN(s, n)
    ensures r == s
    decreases n
  {
    if n > 0 {
      ShiftNInjective(Shift(r), Shift(s), n - 1);
      ShiftInjective(r, s);
    }
  }

  lemma {:induction false} XorCancel(r: Register, s: Register, w: Register)
    ensures Xor(r, w) == Xor(s, w) ==> r == s
    ensures Xor(w, r) == Xor(w, s) ==> r == s
  {
    WordCancel(r.word, s.word, w.word);
  }

  lemma {:induction false} WordCancel(x: bv32, y: bv32, w: bv32)
    ensures x ^ w == y ^ w ==> x == y
    ensures w ^ x == w ^ y ==> x == y
  {}

  /** No two register contents ever merge, whatever bits follow. */
  lemma {:induction false} FeedInjective(r: Register, s: Register, bits: seq<bool>)
    requires Feed(r, bits) == Feed(s, bits)
    ensures r == s
    decreases |bits|
  {
    if bits != [] {
      var w := Bit(bits[0]);
      FeedInjective(Shift(Xor(r, w)), Shift(Xor(s, w)), bits[1..]);
      ShiftInjective(Xor(r, w), Xor(s, w));
      XorCancel(r, s, w);
    }
  }

  lemma {:induction false} FeedConcat(r: Register, x: seq<bool>, y: seq<bool>)
    ensures Feed(r, x + y) == Feed(Feed(r, x), y)
    decreases |x|
  {
    if x == [] {
      assert x + y == y;
    } else {
      assert (x + y)[1..] == x[1..] + y;
      FeedConcat(Shift(Xor(r, Bit(x[0]))), x[1..], y);
    }
  }

  // ---------------------------------------------------------------- a window of up to 32 bits

  function Double(r: Register): Register { Register(r.word << 1) }

  /** A run of bits as one word, first bit lowest. */
  function Pack(bits: seq<bool>): Register {
    if bits == [] then Register(0) else Xor(Bit(bits[0]), Double(Pack(bits[1..])))
  }

  /** The top k bits are clear. */
  predicate TopClear(r: Register, k: nat)
    decreases k
  {
    k == 0 || (r.word & 0x8000_0000 == 0 && TopClear(Double(r), k - 1))
  }

  lemma {:induction false} ZeroTopClear(k: nat)
    ensures TopClear(Register(0), k)
  {
    if k > 0 {
      assert Double(Register(0)) == Register(0);
      ZeroTopClear(k - 1);
    }
  }

  lemma {:induction false} DoubledXor(r: Register, s: Register)
    ensures Double(Xor(r, s)).word == (r.word << 1) ^ (s.word << 1)
  {}

  lemma {:induction false} XorOfDoubled(r: Register, s: Register)
    ensures Xor(Double(r), Double(s)).word == (r.word << 1) ^ (s.word << 1)
  {}

  lemma {:induction false} TopXor(r: Register, s: Register)
    requires r.word & 0x8000_0000 == 0 && s.word & 0x8000_0000 == 0
    ensures Xor(r, s).word & 0x8000_0000 == 0
  {}

  lemma {:induction false} TopClearXor(r: Register, s: Register, k: nat)
    requires TopClear(r, k) && TopClear(s, k)
    ensures TopClear(Xor(r, s), k)
    decreases k
  {
    if k > 0 {
      TopXor(r, s);
      DoubledXor(r, s);
      XorOfDoubled(r, s);
      TopClearXor(Double(r), Double(s), k - 1);
    }
  }

  lemma {:induction false} TopClearFewer(r: Register, k: nat, m: nat)
    requires TopClear(r, k) && m <= k
    ensures TopClear(r, m)
    decreases m
  {
    if m > 0 {
      TopClearFewer(Double(r), k - 1, m - 1);
    }
  }

  lemma {:induction false} DoubleWord(w: bv32, u: bv32)
    requires u == w << 1
    ensures Double(Register(w)) == Register(u)
  {}

  lemma {:induction false} TopClearStep(w: bv32, u: bv32, k: nat)
    requires u == w << 1 && w & 0x8000_0000 == 0 && TopClear(Register(u), k)
    ensures TopClear(Register(w), k + 1)
  {
    DoubleWord(w, u);
    hide Double;
  }

  lemma {:induction false} TopClear4(w0: bv32, w1: bv32, w2: bv32, w3: bv32, w4: bv32, k: nat)
    requires w1 == w0 << 1 && w2 == w1 << 1 && w3 == w2 << 1 && w4 == w3 << 1
    requires w0 & 0x8000_0000 == 0 && w1 & 0x8000_0000 == 0 && w2 & 0x8000_0000 == 0 && w3 & 0x8000_0000 == 0
    requires TopClear(Register(w4), k)
    ensures TopClear(Register(w0), k + 4)
  {
    hide *;
    TopClearStep(w3, w4, k);
    TopClearStep(w2, w3, k + 1);
    TopClearStep(w1, w2, k + 2);
    TopClearStep(w0, w1, k + 3);
  }

  /** The low bit reaches the top of a 32-bit word only at the 31st doubling. */
  lemma {:induction false} LowBitClimbs()
    ensures TopClear(Register(1), 31)
  {
    TopClearStep(0x4000_0000, 0x8000_0000, 0);
    TopClearStep(0x2000_0000, 0x4000_0000, 1);
    TopClearStep(0x1000_0000, 0x2000_0000, 2);
    hide *;
    TopClear4(0x0100_0000, 0x0200_0000, 0x0400_0000, 0x0800_0000, 0x1000_0000, 3);
    TopClear4(0x0010_0000, 0x0020_0000, 0x0040_0000, 0x0080_0000, 0x0100_0000, 7);
    TopClear4(0x0001_0000, 0x0002_0000, 0x0004_0000, 0x0008_0000, 0x0010_0000, 11);
    TopClear4(0x1000, 0x2000, 0x4000, 0x8000, 0x0001_0000, 15);
    TopClear4(0x100, 0x200, 0x400, 0x800, 0x1000, 19);
    TopClear4(0x10, 0x20, 0x40, 0x80, 0x100, 23);
    TopClear4(1, 2, 4, 8, 0x10, 27);
  }

  lemma {:induction false} PackTopClear(bits: seq<bool>)
    requires |bits| <= 32
    ensures TopClear(Pack(bits), 32 - |bits|)
  {
    if bits == [] {
      ZeroTopClear(32);
    } else {
      var k := 32 - |bits|;
      PackTopClear(bits[1..]);
      LowBitClimbs();
      ZeroTopClear(31);
      TopClearFewer(Bit(bits[0]), 31, k);
      TopClearXor(Bit(bits[0]), Double(Pack(bits[1..])), k);
    }
  }

  lemma {:induction false} WordDoubled(w: bv32)
    requires w & 0x8000_0000 == 0
    ensures Step(w << 1) == w
  {}

  lemma {:induction false} ShiftDoubled(r: Register)
    requires r.word & 0x8000_0000 == 0
    ensures Shift(Double(r)) == r
  {
    WordDoubled(r.word);
  }

  lemma {:induction false} WordAssociative(a: bv32, b: bv32, c: bv32)
    ensures (a ^ b) ^ c == a ^ (b ^ c)
  {}

  lemma {:induction false} XorLeft(r: Register, s: Register, t: Register)
    ensures Xor(Xor(r, s), t).word == (r.word ^ s.word) ^ t.word
  {}

  lemma {:induction false} XorRight(r: Register, s: Register, t: Register)
    ensures Xor(r, Xor(s, t)).word == r.word ^ (s.word ^ t.word)
  {}

  lemma {:induction false} XorAssociative(r: Register, s: Register, t: Register)
    ensures Xor(Xor(r, s), t) == Xor(r, Xor(s, t))
  {
    XorLeft(r, s, t);
    XorRight(r, s, t);
    WordAssociative(r.word, s.word, t.word);
  }

  lemma {:induction false} XorZero(r: Register)
    ensures Xor(r, Register(0)) == r
  {}

  /** Feeding at most 32 bits is one exclusive-or followed by plain shifts. */
  lemma {:induction false} FeedIsPackedXor(r: Register, bits: seq<bool>)
    requires |bits| <= 32
    ensures Feed(r, bits) == ShiftN(Xor(r, Pack(bits)), |bits|)
    decreases |bits|
  {
    if bits == [] {
      XorZero(r);
    } else {
      var rest := bits[1..];
      var w, p := Bit(bits[0]), Pack(rest);
      FeedIsPackedXor(Shift(Xor(r, w)), rest);
      PackTopClear(rest);
      ShiftDoubled(p);
      XorAssociative(r, w, Double(p));
      ShiftLinear(Xor(r, w), Double(p));
    }
  }

  lemma {:induction false} PackedHead(x: bv32, v: bool, w: bool, p: bv32, q: bv32)
    requires p & 0x8000_0000 == 0 && q & 0x8000_0000 == 0
    requires x == (if v then 1 else 0) ^ (p << 1)
    requires x == (if w then 1 else 0) ^ (q << 1)
    ensures v == w && p == q
  {}

  lemma {:induction false} PackWord(v: bool, p: Register)
    ensures Xor(Bit(v), Double(p)).word == (if v then 1 else 0) ^ (p.word << 1)
  {}

  lemma {:induction false} PackHeadInjective(v: bool, w: bool, p: Register, q: Register)
    requires p.word & 0x8000_0000 == 0 && q.word & 0x8000_0000 == 0
    requires Xor(Bit(v), Double(p)) == Xor(Bit(w), Double(q))
    ensures v == w && p == q
  {
    hide Xor, Bit, Double;
    PackWord(v, p);
    PackWord(w, q);
    PackedHead(Xor(Bit(v), Double(p)).word, v, w, p.word, q.word);
  }

  lemma {:induction false} PackInjective(x: seq<bool>, y: seq<bool>)
    requires |x| == |y| <= 32
    requires Pack(x) == Pack(y)
    ensures x == y
  {
    hide Xor, Bit, Double;
    if x != [] {
      PackTopClear(x[1..]);
      PackTopClear(y[1..]);
      PackHeadInjective(x[0], y[0], Pack(x[1..]), Pack(y[1..]));
      PackInjective(x[1..], y[1..]);
      assert x == [x[0]] + x[1..] && y == [y[0]] + y[1..];
    }
  }

  lemma {:induction false} WindowInjective(r: Register, x: seq<bool>, y: seq<bool>)
    requires |x| == |y| <= 32
    requires Feed(r, x) == Feed(r, y)
    ensures x == y
  {
    FeedIsPackedXor(r, x);
    FeedIsPackedXor(r, y);
    ShiftNInjective(Xor(r, Pack(x)), Xor(r, Pack(y)), |x|);
    XorCancel(Pack(x), Pack(y), r);
    PackInjective(x, y);
  }

  /** Every burst of at most 32 bits changes the register, at any bit position. */
  lemma {:induction false} BurstDetected(r: Register, before: seq<bool>, x: seq<bool>, y: seq<bool>, after: seq<bool>)
    requires |x| == |y| <= 32 && x != y
    ensures Feed(r, before + x + after) != Feed(r, before + y + after)
  {
    FeedConcat(r, before + x, after);
    FeedConcat(r, before, x);
    FeedConcat(r, before + y, after);
    FeedConcat(r, before, y);
    var s := Feed(r, before);
    if Feed(r, before + x + after) == Feed(r, before + y + after) {
      FeedInjective(Feed(s, x), Feed(s, y), after);
      WindowInjective(s, x, y);
    }
  }

  lemma {:induction false} MessageBitsConcat(x: seq<bv8>, y: seq<bv8>)
    ensures MessageBits(x + y) == MessageBits(x) + MessageBits(y)
  {
    if x == [] {
      assert x + y == y;
    } else {
      assert (x + y)[1..] == x[1..] + y;
      MessageBitsConcat(x[1..], y);
    }
  }

  lemma {:induction false} ByteFromBits(b: bv8, c: bv8)
    requires (b & 1 != 0) == (c & 1 != 0) && (b & 2 != 0) == (c & 2 != 0)
    requires (b & 4 != 0) == (c & 4 != 0) && (b & 8 != 0) == (c & 8 != 0)
    requires (b & 16 != 0) == (c & 16 != 0) && (b & 32 != 0) == (c & 32 != 0)
    requires (b & 64 != 0) == (c & 64 != 0) && (b & 128 != 0) == (c & 128 != 0)
    ensures b == c
  {}

  lemma {:induction false} ByteBitsInjective(b: bv8, c: bv8)
    requires ByteBits(b) == ByteBits(c)
    ensures b == c
  {
    var s, t := ByteBits(b), ByteBits(c);
    assert s[0] == t[0] && s[1] == t[1] && s[2] == t[2] && s[3] == t[3];
    assert s[4] == t[4] && s[5] == t[5] && s[6] == t[6] && s[7] == t[7];
    ByteFromBits(b, c);
  }

  lemma {:induction false} MessageBitsInjective(x: seq<bv8>, y: seq<bv8>)
    requires |x| == |y|
    requires MessageBits(x) == MessageBits(y)
    ensures x == y
  {
    if x != [] {
      assert ByteBits(x[0]) == MessageBits(x)[..8];
      assert ByteBits(y[0]) == MessageBits(y)[..8];
      assert MessageBits(x[1..]) == MessageBits(x)[8..];
      assert MessageBits(y[1..]) == MessageBits(y)[8..];
      ByteBitsInjective(x[0], y[0]);
      MessageBitsInjective(x[1..], y[1..]);
      assert x == [x[0]] + x[1..] && y == [y[0]] + y[1..];
    }
  }

  /** Two payloads that differ only inside one window of at most four bytes have different CRCs. */
  lemma {:induction false} WindowChangesCrc(before: seq<bv8>, x: seq<bv8>, y: seq<bv8>, after: seq<bv8>)
    requires |x| == |y| <= 4 && x != y
    ensures Crc(before + x + after) != Crc(before + y + after)
  {
    MessageBitsConcat(before + x, after);
    MessageBitsConcat(before, x);
    MessageBitsConcat(before + y, after);
    MessageBitsConcat(before, y);
    if MessageBits(x) == MessageBits(y) {
      MessageBitsInjective(x, y);
    }
    BurstDetected(PRESET, MessageBits(before), MessageBits(x), MessageBits(y), MessageBits(after));
    XorCancel(Feed(PRESET, MessageBits(before + x + after)), Feed(PRESET, MessageBits(before + y + after)), PRESET);
  }

  // ---------------------------------------------------------------- the table-driven program

  lemma {:induction false} EightHalvings(c: bv32)
    requires c & 0xFF == 0
    ensures Step(c) == c >> 1 && Step(c >> 1) == c >> 2 && Step(c >> 2) == c >> 3 && Step(c >> 3) == c >> 4
    ensures Step(c >> 4) == c >> 5 && Step(c >> 5) == c >> 6 && Step(c >> 6) == c >> 7 && Step(c >> 7) == c >> 8
  {}

  /** Eight zero bits shift a register whose low byte is clear straight down. */
  lemma {:induction false} ShiftHigh(c: bv32)
    requires c & 0xFF == 0
    ensures ShiftN(Register(c), 8) == Register(c >> 8)
  {
    EightHalvings(c);
    hide Step;
    assert ShiftN(Register(c >> 7), 1) == ShiftN(Register(c >> 8), 0);
    assert ShiftN(Register(c >> 6), 2) == ShiftN(Register(c >> 7), 1);
    assert ShiftN(Register(c >> 5), 3) == ShiftN(Register(c >> 6), 2);
    assert ShiftN(Register(c >> 4), 4) == ShiftN(Register(c >> 5), 3);
    assert ShiftN(Register(c >> 3), 5) == ShiftN(Register(c >> 4), 4);
    assert ShiftN(Register(c >> 2), 6) == ShiftN(Register(c >> 3), 5);
    assert ShiftN(Register(c >> 1), 7) == ShiftN(Register(c >> 2), 6);
  }

  lemma {:induction false} SplitWord(x: bv32)
    ensures x == (x & 0xFF) ^ (x & 0xFFFF_FF00)
    ensures (x & 0xFFFF_FF00) & 0xFF == 0
    ensures (x & 0xFFFF_FF00) >> 8 == x >> 8
  {}

  lemma {:induction false} EnteredByte(c: bv32, b: bv32, x: bv32)
    requires x == c ^ b
    ensures Xor(Register(c), Register(b)) == Register(x)
  {}

  /** A bit shifted in below a word. */
  function Up(v: bool, w: bv32): bv32 { (if v then 1 else 0) ^ (w << 1) }

  lemma {:induction false} BitUp(v: bool, w: bv32)
    ensures Xor(Bit(v), Double(Register(w))) == Register(Up(v, w))
  {}

  lemma {:induction false} PackUnfolded(s: seq<bool>)
    requires s != []
    ensures Pack(s) == Xor(Bit(s[0]), Double(Pack(s[1..])))
  {
    hide Xor, Bit, Double;
  }

  lemma {:induction false} ByteHorner(b: bv8)
    ensures Up(b & 1 != 0, Up(b & 2 != 0, Up(b & 4 != 0, Up(b & 8 != 0,
            Up(b & 16 != 0, Up(b & 32 != 0, Up(b & 64 != 0, Up(b & 128 != 0, 0)))))))) == b as bv32
  {}

  /** Packing one more bit in front of a run. */
  lemma {:induction false} PackUp(s: seq<bool>, k: nat, w: bv32)
    requires k < |s| && Pack(s[k + 1..]) == Register(w)
    ensures Pack(s[k..]) == Register(Up(s[k], w))
  {
    hide *;
    assert s[k..][1..] == s[k + 1..] && s[k..][0] == s[k];
    PackUnfolded(s[k..]);
    BitUp(s[k], w);
  }

  lemma {:induction false} PackEight(s: seq<bool>)
    requires |s| == 8
    ensures Pack(s) == Register(Up(s[0], Up(s[1], Up(s[2], Up(s[3], Up(s[4], Up(s[5], Up(s[6], Up(s[7], 0)))))))))
  {
    assert Pack(s[8..]) == Register(0);
    hide *;
    PackUp(s, 7, 0);
    var p7 := Up(s[7], 0);
    PackUp(s, 6, p7);
    var p6 := Up(s[6], p7);
    PackUp(s, 5, p6);
    var p5 := Up(s[5], p6);
    PackUp(s, 4, p5);
    var p4 := Up(s[4], p5);
    PackUp(s, 3, p4);
    var p3 := Up(s[3], p4);
    PackUp(s, 2, p3);
    var p2 := Up(s[2], p3);
    PackUp(s, 1, p2);
    PackUp(s, 0, Up(s[1], p2));
    assert s[0..] == s;
  }

  lemma {:induction false} PackByteBits(b: bv8)
    ensures Pack(ByteBits(b)) == Register(b as bv32)
  {
    hide Up, Pack;
    PackEight(ByteBits(b));
    ByteHorner(b);
  }

  /** Eight bits entering a register that splits into a low and a high part. */
  lemma {:induction false} LookupAlgebra(c: Register, b: Register, bits: seq<bool>, lo: Register, hi: Register,
                                         down: Register)
    requires |bits| == 8 && Pack(bits) == b
    requires Xor(c, b) == Xor(lo, hi) && ShiftN(hi, 8) == down
    ensures Feed(c, bits) == Xor(ShiftN(lo, 8), down)
  {
    hide Xor, Step, Shift;
    FeedIsPackedXor(c, bits);
    ShiftNLinear(lo, hi, 8);
  }

  lemma {:induction false} SplitRegister(c: bv32, b: bv32, x: bv32, lo: bv32, hi: bv32)
    requires x == c ^ b && lo == x & 0xFF && hi == x & 0xFFFF_FF00
    ensures Xor(Register(c), Register(b)) == Xor(Register(lo), Register(hi))
  {
    hide *;
    SplitWord(x);
    EnteredByte(c, b, x);
    EnteredByte(lo, hi, x);
  }

  lemma {:induction false} HighWord(c: bv32, b: bv8, x: bv32, hi: bv32)
    requires x == c ^ (b as bv32) && hi == x & 0xFFFF_FF00
    ensures hi & 0xFF == 0 && hi >> 8 == c >> 8
  {}

  lemma {:induction false} HighByteDown(c: bv32, b: bv8, x: bv32, hi: bv32, down: bv32)
    requires x == c ^ (b as bv32) && hi == x & 0xFFFF_FF00 && down == c >> 8
    ensures ShiftN(Register(hi), 8) == Register(down)
  {
    hide *;
    HighWord(c, b, x, hi);
    ShiftHigh(hi);
  }

  /** One table lookup feeds the eight bits of one byte. */
  lemma {:induction false} LookupFeedsByte(c: bv32, b: bv8, x: bv32, lo: bv32, down: bv32)
    requires x == c ^ (b as bv32) && lo == x & 0xFF && down == c >> 8
    ensures Xor(ShiftN(Register(lo), 8), Register(down)) == Feed(Register(c), ByteBits(b))
  {
    hide *;
    var hi := x & 0xFFFF_FF00;
    SplitRegister(c, b as bv32, x, lo, hi);
    HighByteDown(c, b, x, hi, down);
    PackByteBits(b);
    LookupAlgebra(Register(c), Register(b as bv32), ByteBits(b), Register(lo), Register(hi), Register(down));
  }

  /** The table built once: entry i is i after eight plain shifts. */
  method BuildTable() returns (t: array<bv32>)
    ensures fresh(t) && t.Length == 256
    ensures forall i :: 0 <= i < 256 ==> Register(t[i]) == ShiftN(Register(i as bv32), 8)
  {
    hide Step;
    t := new bv32[256];
    var i := 0;
    while i < 256
      invariant 0 <= i <= 256
      invariant forall j :: 0 <= j < i ==> Register(t[j]) == ShiftN(Register(j as bv32), 8)
    {
      var c := i as bv32;
      var k := 0;
      while k < 8
        invariant 0 <= k <= 8
        invariant ShiftN(Register(c), 8 - k) == ShiftN(Register(i as bv32), 8)
      {
        c := Step(c);
        k := k + 1;
      }
      t[i] := c;
      i := i + 1;
    }
  }

  lemma {:induction false} LowByteIndex(x: bv32, lo: bv32)
    requires lo == x & 0xFF
    ensures 0 <= lo as int < 256 && (lo as int) as bv32 == lo
  {
    SmallWord(lo);
  }

  lemma {:induction false} SmallWord(lo: bv32)
    requires lo < 256
    ensures 0 <= lo as int < 256 && (lo as int) as bv32 == lo
  {}

  ghost predicate IsTable(t: seq<bv32>) {
    |t| == 256 && forall i :: 0 <= i < 256 ==> Register(t[i]) == ShiftN(Register(i as bv32), 8)
  }

  lemma {:induction false} NextByte(bytes: seq<bv8>, n: nat)
    requires n < |bytes|
    ensures Feed(PRESET, MessageBits(bytes[..n + 1])) == Feed(Feed(PRESET, MessageBits(bytes[..n])), ByteBits(bytes[n]))
  {
    assert bytes[..n + 1] == bytes[..n] + [bytes[n]];
    MessageBitsConcat(bytes[..n], [bytes[n]]);
    assert MessageBits([bytes[n]]) == ByteBits(bytes[n]);
    FeedConcat(PRESET, MessageBits(bytes[..n]), ByteBits(bytes[n]));
  }

  lemma {:induction false} TableEntry(t: seq<bv32>, x: bv32, lo: bv32)
    requires IsTable(t) && lo == x & 0xFF
    ensures 0 <= lo as int < 256 && Register(t[lo as int]) == ShiftN(Register(lo), 8)
  {
    hide ShiftN;
    LowByteIndex(x, lo);
    assert Register(t[lo as int]) == ShiftN(Register((lo as int) as bv32), 8);
  }

  lemma {:induction false} TableStep(c: bv32, b: bv8, x: bv32, lo: bv32, down: bv32, entry: bv32, next: bv32)
    requires x == c ^ (b as bv32) && lo == x & 0xFF && down == c >> 8 && next == entry ^ down
    requires Register(entry) == ShiftN(Register(lo), 8)
    ensures Register(next) == Feed(Register(c), ByteBits(b))
  {
    hide *;
    LookupFeedsByte(c, b, x, lo, down);
    EnteredByte(entry, down, next);
  }

  /** The program: one table lookup per byte computes the serial register. */
  method Crc32Ieee(bytes: seq<bv8>) returns (r: bv32)
    ensures r == Crc(bytes)
  {
    var table := BuildTable();
    var crc: bv32 := 0xFFFF_FFFF;
    for n := 0 to |bytes|
      invariant IsTable(table[..])
      invariant Register(crc) == Feed(PRESET, MessageBits(bytes[..n]))
    {
      crc := TableLookup(table, crc, bytes[n]);
      NextByte(bytes, n);
    }
    assert bytes[..|bytes|] == bytes;
    r := crc ^ 0xFFFF_FFFF;
  }

  /** The loop body of the program: one byte of input. */
  method TableLookup(table: array<bv32>, crc: bv32, b: bv8) returns (next: bv32)
    requires table.Length == 256 && IsTable(table[..])
    ensures Register(next) == Feed(Register(crc), ByteBits(b))
  {
    hide *;
    var x := crc ^ (b as bv32);
    var lo := x & 0xFF;
    TableEntry(table[..], x, lo);
    var entry, down := table[lo as int], crc >> 8;
    next := entry ^ down;
    TableStep(crc, b, x, lo, down, entry, next);
  }

  // ---------------------------------------------------------------- which polynomial it is

  /** Eight steps on the raw word. */
  function Step8(c: bv32): bv32 { Step(Step(Step(Step(Step(Step(Step(Step(c)))))))) }

  lemma {:induction false} ShiftEight(c: bv32)
    ensures ShiftN(Register(c), 8) == Register(Step8(c))
  {
    hide Step;
    var r := Register(c);
    assert ShiftN(r, 8) == ShiftN(Shift(r), 7);
    assert ShiftN(Shift(r), 7) == ShiftN(Shift(Shift(r)), 6);
    var s := Shift(Shift(r));
    assert ShiftN(s, 6) == ShiftN(Shift(s), 5) == ShiftN(Shift(Shift(s)), 4);
    var t := Shift(Shift(s));
    assert ShiftN(t, 4) == ShiftN(Shift(t), 3) == ShiftN(Shift(Shift(t)), 2);
    var u := Shift(Shift(t));
    assert ShiftN(u, 2) == ShiftN(Shift(u), 1) == ShiftN(Shift(Shift(u)), 0);
  }

  /** One byte takes the first word to the second. */
  predicate Enters(c: bv32, b: bv8, next: bv32) { Step8(c ^ (b as bv32)) == next }

  lemma {:induction false} ByteInto(c: bv32, b: bv8, x: bv32)
    requires x == c ^ (b as bv32)
    ensures Feed(Register(c), ByteBits(b)) == Register(Step8(x))
  {
    hide *;
    PackByteBits(b);
    FeedIsPackedXor(Register(c), ByteBits(b));
    EnteredByte(c, b as bv32, x);
    ShiftEight(x);
  }

  lemma {:induction false} ByteEnters(c: bv32, b: bv8, next: bv32)
    requires Enters(c, b, next)
    ensures Feed(Register(c), ByteBits(b)) == Register(next)
  {
    hide Step8, Feed, ByteBits;
    ByteInto(c, b, c ^ (b as bv32));
  }

  lemma {:induction false} FeedMore(message: seq<bv8>, b: bv8, r: Register, s: Register)
    requires Feed(PRESET, MessageBits(message)) == r && Feed(r, ByteBits(b)) == s
    ensures Feed(PRESET, MessageBits(message + [b])) == s
  {
    hide Feed, ByteBits;
    MessageBitsConcat(message, [b]);
    assert MessageBits([b]) == ByteBits(b);
    FeedConcat(PRESET, MessageBits(message), ByteBits(b));
  }

  /** The register after each of the nine digits. */
  lemma {:induction false} DigitSteps()
    ensures Enters(0xFFFF_FFFF, 0x31, 0x7C23_1048)
    ensures Enters(0x7C23_1048, 0x32, 0xB0AC_BB32)
    ensures Enters(0xB0AC_BB32, 0x33, 0x77B7_9C2D)
    ensures Enters(0x77B7_9C2D, 0x34, 0x641C_1F5C)
    ensures Enters(0x641C_1F5C, 0x35, 0x340A_C5E3)
    ensures Enters(0x340A_C5E3, 0x36, 0xF68D_2C9E)
    ensures Enters(0xF68D_2C9E, 0x37, 0xAFFC_9660)
    ensures Enters(0xAFFC_9660, 0x38, 0x651F_2550)
    ensures Enters(0x651F_2550, 0x39, 0x340B_C6D9)
  {}

  const DIGITS: seq<bv8> := [0x31, 0x32, 0x33, 0x34, 0x35, 0x36, 0x37, 0x38, 0x39]

  lemma {:induction false} NextDigit(message: seq<bv8>, c: bv32, b: bv8, next: bv32)
    requires Enters(c, b, next) && Feed(PRESET, MessageBits(message)) == Register(c)
    ensures Feed(PRESET, MessageBits(message + [b])) == Register(next)
  {
    hide *;
    ByteEnters(c, b, next);
    FeedMore(message, b, Register(c), Register(next));
  }

  lemma {:induction false} DigitsFed()
    ensures Feed(PRESET, MessageBits(DIGITS)) == Register(0x340B_C6D9)
  {
    DigitSteps();
    assert Feed(PRESET, MessageBits([])) == Register(0xFFFF_FFFF);
    hide *;
    NextDigit([], 0xFFFF_FFFF, 0x31, 0x7C23_1048);
    NextDigit([] + [0x31], 0x7C23_1048, 0x32, 0xB0AC_BB32);
    NextDigit([] + [0x31] + [0x32], 0xB0AC_BB32, 0x33, 0x77B7_9C2D);
    NextDigit([] + [0x31] + [0x32] + [0x33], 0x77B7_9C2D, 0x34, 0x641C_1F5C);
    NextDigit([] + [0x31] + [0x32] + [0x33] + [0x34], 0x641C_1F5C, 0x35, 0x340A_C5E3);
    NextDigit([] + [0x31] + [0x32] + [0x33] + [0x34] + [0x35], 0x340A_C5E3, 0x36, 0xF68D_2C9E);
    NextDigit([] + [0x31] + [0x32] + [0x33] + [0x34] + [0x35] + [0x36], 0xF68D_2C9E, 0x37, 0xAFFC_9660);
    NextDigit([] + [0x31] + [0x32] + [0x33] + [0x34] + [0x35] + [0x36] + [0x37], 0xAFFC_9660, 0x38, 0x651F_2550);
    NextDigit([] + [0x31] + [0x32] + [0x33] + [0x34] + [0x35] + [0x36] + [0x37] + [0x38], 0x651F_2550, 0x39,
              0x340B_C6D9);
    assert [] + [0x31] + [0x32] + [0x33] + [0x34] + [0x35] + [0x36] + [0x37] + [0x38] + [0x39] == DIGITS;
  }

  /** The check value of CRC-32: the nine ASCII digits 1 to 9. */
  lemma {:induction false} CheckValue()
    ensures Crc(DIGITS) == 0xCBF4_3926
  {
    DigitsFed();
    hide Feed, MessageBits;
  }

  // ---------------------------------------------------------------- the residue

  /** The four bytes of a word, lowest first. */
  function LowFirst(w: bv32): seq<bv8> {
    [(w & 0xFF) as bv8, ((w >> 8) & 0xFF) as bv8, ((w >> 16) & 0xFF) as bv8, (w >> 24) as bv8]
  }

  lemma {:induction false} ComplementWord(t: bv32, r: bv32, c: bv32, b: bv8, x: bv32, u: bv32, hi: bv32)
    requires c == t ^ r && b as bv32 == (r & 0xFF) ^ 0xFF && x == c ^ (b as bv32)
    requires u == t ^ 0xFF && hi == r & 0xFFFF_FF00
    ensures x == u ^ hi && hi & 0xFF == 0 && hi >> 8 == r >> 8
  {}

  lemma {:induction false} HighEnters(c: bv32, u: bv32, hi: bv32, b: bv8, x: bv32, down: bv32)
    requires x == c ^ (b as bv32) && x == u ^ hi && hi & 0xFF == 0 && down == hi >> 8
    ensures Feed(Register(c), ByteBits(b)) == Xor(Register(Step8(u)), Register(down))
  {
    hide *;
    EnteredByte(u, hi, x);
    EnteredByte(c, b as bv32, x);
    PackByteBits(b);
    ShiftHigh(hi);
    ShiftEight(u);
    LookupAlgebra(Register(c), Register(b as bv32), ByteBits(b), Register(u), Register(hi), Register(down));
  }

  /** A register made of a known word and an unknown one. */
  function Mix(known: bv32, unknown: bv32): Register { Register(known ^ unknown) }

  /** The byte is the complement of the low byte of r, and s is r moved down over it. */
  predicate Takes(r: bv32, b: bv8, s: bv32) { b as bv32 == (r & 0xFF) ^ 0xFF && s == r >> 8 }

  lemma {:induction false} MixEnters(t: bv32, r: bv32, c: bv32, b: bv8, u: bv32, s: bv32)
    requires c == t ^ r && b as bv32 == (r & 0xFF) ^ 0xFF && u == t ^ 0xFF && s == r >> 8
    ensures Feed(Register(c), ByteBits(b)) == Xor(Register(Step8(u)), Register(s))
  {
    hide *;
    var x, hi := c ^ (b as bv32), r & 0xFFFF_FF00;
    ComplementWord(t, r, c, b, x, u, hi);
    HighEnters(c, u, hi, b, x, s);
  }

  /** When the complement of the unknown low byte enters, the known word takes a step of its own and the
      unknown one moves down. */
  lemma {:induction false} ComplementEnters(t: bv32, r: bv32, b: bv8, t2: bv32, r2: bv32)
    requires Takes(r, b, r2) && Enters(t, 0xFF, t2)
    ensures Feed(Mix(t, r), ByteBits(b)) == Mix(t2, r2)
  {
    MixEnters(t, r, t ^ r, b, t ^ 0xFF, r2);
    hide Feed, ByteBits, Step8;
    XorIsMix(t2, r2);
    hide Xor;
  }

  lemma {:induction false} XorIsMix(t: bv32, r: bv32)
    ensures Xor(Register(t), Register(r)) == Mix(t, r)
  {}

  lemma {:induction false} LowFirstTakes(r: bv32, w: bv32)
    requires w == r ^ 0xFFFF_FFFF
    ensures Takes(r, LowFirst(w)[0], r >> 8) && Takes(r >> 8, LowFirst(w)[1], r >> 16)
    ensures Takes(r >> 16, LowFirst(w)[2], r >> 24) && Takes(r >> 24, LowFirst(w)[3], 0)
  {}

  lemma {:induction false} ResidueSteps()
    ensures Enters(0, 0xFF, 0x2D02_EF8D) && Enters(0x2D02_EF8D, 0xFF, 0xBE26_12FF)
    ensures Enters(0xBE26_12FF, 0xFF, 0x00BE_2612) && Enters(0x00BE_2612, 0xFF, 0xDEBB_20E3)
  {}

  lemma {:induction false} MixEnds(r: bv32)
    ensures Mix(0, r) == Register(r) && Mix(r, 0) == Register(r)
  {}

  /** Feeding a register its own complement, lowest byte first, leaves the same word whatever it held. */
  lemma {:induction false} OwnComplement(r: bv32, w: bv32, b: seq<bv8>)
    requires w == r ^ 0xFFFF_FFFF && b == LowFirst(w)
    ensures Feed(Feed(Feed(Feed(Register(r), ByteBits(b[0])), ByteBits(b[1])), ByteBits(b[2])), ByteBits(b[3]))
      == Register(0xDEBB_20E3)
  {
    LowFirstTakes(r, w);
    hide *;
    ResidueSteps();
    MixEnds(r);
    MixEnds(0xDEBB_20E3);
    ComplementChain(r, r >> 8, r >> 16, r >> 24, b);
  }

  lemma {:induction false} ComplementChain(r0: bv32, r1: bv32, r2: bv32, r3: bv32, b: seq<bv8>)
    requires |b| == 4 && Takes(r0, b[0], r1) && Takes(r1, b[1], r2) && Takes(r2, b[2], r3) && Takes(r3, b[3], 0)
    requires Enters(0, 0xFF, 0x2D02_EF8D) && Enters(0x2D02_EF8D, 0xFF, 0xBE26_12FF)
    requires Enters(0xBE26_12FF, 0xFF, 0x00BE_2612) && Enters(0x00BE_2612, 0xFF, 0xDEBB_20E3)
    ensures Feed(Feed(Feed(Feed(Mix(0, r0), ByteBits(b[0])), ByteBits(b[1])), ByteBits(b[2])), ByteBits(b[3]))
      == Mix(0xDEBB_20E3, 0)
  {
    hide *;
    ComplementEnters(0, r0, b[0], 0x2D02_EF8D, r1);
    ComplementEnters(0x2D02_EF8D, r1, b[1], 0xBE26_12FF, r2);
    ComplementEnters(0xBE26_12FF, r2, b[2], 0x00BE_2612, r3);
    ComplementEnters(0x00BE_2612, r3, b[3], 0xDEBB_20E3, 0);
  }

  lemma {:induction false} FourBytes(message: seq<bv8>, b: seq<bv8>)
    requires |b| == 4
    ensures Feed(PRESET, MessageBits(message + b)) ==
      Feed(Feed(Feed(Feed(Feed(PRESET, MessageBits(message)), ByteBits(b[0])), ByteBits(b[1])), ByteBits(b[2])),
           ByteBits(b[3]))
  {
    hide *;
    var r := Feed(PRESET, MessageBits(message));
    var r0 := Feed(r, ByteBits(b[0]));
    var r1 := Feed(r0, ByteBits(b[1]));
    var r2 := Feed(r1, ByteBits(b[2]));
    FeedMore(message, b[0], r, r0);
    FeedMore(message + [b[0]], b[1], r0, r1);
    FeedMore(message + [b[0]] + [b[1]], b[2], r1, r2);
    FeedMore(message + [b[0]] + [b[1]] + [b[2]], b[3], r2, Feed(r2, ByteBits(b[3])));
    assert message + [b[0]] + [b[1]] + [b[2]] + [b[3]] == message + b;
  }

  lemma {:induction false} Complemented(r: Register)
    ensures Xor(r, PRESET).word == r.word ^ 0xFFFF_FFFF
  {}

  /** Any message followed by its own checksum, lowest byte first, has one and the same checksum. */
  lemma {:induction false} Residue(message: seq<bv8>)
    ensures Crc(message + LowFirst(Crc(message))) == 0x2144_DF1C
  {
    var r := Feed(PRESET, MessageBits(message));
    var w := Crc(message);
    var b := LowFirst(w);
    Complemented(r);
    FourBytes(message, b);
    OwnComplement(r.word, w, b);
    Complemented(Register(0xDEBB_20E3));
    hide Feed, MessageBits, Xor, LowFirst, ByteBits;
  }
}
