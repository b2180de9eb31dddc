/** The load-balanced cut of a line into ranges, from examples/agar_mit_clone/gw_shard_monitor.js:
    balancedRanges and sanitizeRanges. */
module ShardRanges {

  datatype Range = Range(lo: int, hi: int)

  function Clamp(v: int, lo: int, hi: int): int {
    var least := if v < hi then v else hi;
    if lo > least then lo else least
  }

  function Sum(s: seq<int>): int {
    if s == [] then 0 else Sum(s[..|s| - 1]) + s[|s| - 1]
  }

  /** The weight of the first k cells. */
  function Prefix(ws: seq<int>, k: nat): int
    requires k <= |ws|
  {
    Sum(ws[..k])
  }

  lemma {:induction false} PrefixNext(ws: seq<int>, k: nat)
    requires k < |ws|
    ensures Prefix(ws, k + 1) == Prefix(ws, k) + ws[k]
  {
    assert ws[..k + 1][..k] == ws[..k];
  }

  method Total(ws: seq<int>) returns (sum: int)
    ensures sum == Sum(ws)
  {
    sum := 0;
    for i := 0 to |ws|
      invariant sum == Prefix(ws, i)
    {
      PrefixNext(ws, i);
      sum := sum + ws[i];
    }
    assert ws[..|ws|] == ws;
  }

  // ---------------------------------------------------------------- sanitizing

  function SanitizeFrom(ranges: seq<Range>, parts: int, max: int, i: nat, cursor: int): (r: seq<Range>)
    ensures i <= parts ==> |r| == parts - i
    decreases parts - i
  {
    if i >= parts then []
    else
      var raw := if i < |ranges| then ranges[i].hi else max;
      var end := if i == parts - 1 then max else Clamp(raw, cursor + 1, max - (parts - i - 1));
      [Range(cursor, end)] + SanitizeFrom(ranges, parts, max, i + 1, end)
  }

  function Sanitized(ranges: seq<Range>, parts: int, max: int): seq<Range> {
    SanitizeFrom(ranges, parts, max, 0, 0)
  }

  method SanitizeRanges(ranges: seq<Range>, parts: int, max: int) returns (out: seq<Range>)
    ensures out == Sanitized(ranges, parts, max)
  {
    out := [];
    var cursor := 0;
    var i := 0;
    while i < parts
      invariant 0 <= i
      invariant out + SanitizeFrom(ranges, parts, max, i, cursor) == Sanitized(ranges, parts, max)
    {
      var raw := if i < |ranges| then ranges[i].hi else max;
      var end := Clamp(raw, cursor + 1, max - (parts - i - 1));
      if i == parts - 1 {
        end := max;
      }
      out := out + [Range(cursor, end)];
      cursor := end;
      i := i + 1;
    }
  }

  /** Non-empty ranges, each starting where the one before ends, from lo to hi. */
  ghost predicate Tiles(rs: seq<Range>, lo: int, hi: int) {
    if rs == [] then lo == hi
    else rs[0].lo == lo && lo < rs[0].hi && Tiles(rs[1..], rs[0].hi, hi)
  }

  lemma {:induction false} TilesNeedRoom(rs: seq<Range>, lo: int, hi: int)
    requires Tiles(rs, lo, hi)
    ensures hi - lo >= |rs|
  {
    if rs != [] {
      TilesNeedRoom(rs[1..], rs[0].hi, hi);
    }
  }

  lemma {:induction false} SanitizeFromTiles(ranges: seq<Range>, parts: int, max: int, i: nat, cursor: int)
    requires i < parts && cursor <= max - (parts - i)
    ensures Tiles(SanitizeFrom(ranges, parts, max, i, cursor), cursor, max)
    decreases parts - i
  {
    var rs := SanitizeFrom(ranges, parts, max, i, cursor);
    if i < parts - 1 {
      SanitizeFromTiles(ranges, parts, max, i + 1, rs[0].hi);
    }
  }

  /** Whatever the raw ranges, the result has one range per part; they are non-empty and cover
      exactly the line if and only if the line has a cell for every part. */
  lemma {:induction false} SanitizedTilesIff(ranges: seq<Range>, parts: int, max: int)
    requires parts >= 1
    ensures |Sanitized(ranges, parts, max)| == parts
    ensures Tiles(Sanitized(ranges, parts, max), 0, max) <==> max >= parts
  {
    if max >= parts {
      SanitizeFromTiles(ranges, parts, max, 0, 0);
    } else if Tiles(Sanitized(ranges, parts, max), 0, max) {
      TilesNeedRoom(Sanitized(ranges, parts, max), 0, max);
    }
  }

  lemma {:induction false} SanitizeFromKeeps(ranges: seq<Range>, max: int, i: nat, cursor: int)
    requires i <= |ranges| && Tiles(ranges[i..], cursor, max)
    ensures SanitizeFrom(ranges, |ranges|, max, i, cursor) == ranges[i..]
    decreases |ranges| - i
  {
    if i < |ranges| {
      var rest := ranges[i..];
      assert rest[0] == ranges[i] && rest[1..] == ranges[i + 1..];
      TilesNeedRoom(rest[1..], rest[0].hi, max);
      if i == |ranges| - 1 {
        assert rest[1..] == [];
      }
      SanitizeFromKeeps(ranges, max, i + 1, rest[0].hi);
    }
  }

  /** Ranges that tile the line already, one per part, are left as they are. */
  lemma {:induction false} SanitizedKeeps(ranges: seq<Range>, max: int)
    requires Tiles(ranges, 0, max)
    ensures Sanitized(ranges, |ranges|, max) == ranges
  {
    assert ranges[0..] == ranges;
    SanitizeFromKeeps(ranges, max, 0, 0);
  }

  /** Every point of a tiled line is in exactly one range. */
  lemma {:induction false} TilesFind(rs: seq<Range>, lo: int, hi: int, x: int) returns (k: nat)
    requires Tiles(rs, lo, hi) && lo <= x < hi
    ensures k < |rs| && rs[k].lo <= x < rs[k].hi
    ensures forall j :: 0 <= j < |rs| && rs[j].lo <= x < rs[j].hi ==> j == k
  {
    if x < rs[0].hi {
      k := 0;
      forall j | 1 <= j < |rs| ensures !(rs[j].lo <= x < rs[j].hi) {
        TilesWithin(rs[1..], rs[0].hi, hi, j - 1);
      }
    } else {
      var j := TilesFind(rs[1..], rs[0].hi, hi, x);
      k := j + 1;
      assert forall i :: 1 <= i < |rs| ==> rs[i] == rs[1..][i - 1];
    }
  }

  lemma {:induction false} TilesWithin(rs: seq<Range>, lo: int, hi: int, k: nat)
    requires Tiles(rs, lo, hi) && k < |rs|
    ensures lo <= rs[k].lo < rs[k].hi <= hi
  {
    TilesNeedRoom(rs[1..], rs[0].hi, hi);
    if k > 0 {
      TilesWithin(rs[1..], rs[0].hi, hi, k - 1);
    }
  }

  // ---------------------------------------------------------------- balancing

  datatype Sweep = Sweep(start: nat, acc: int)

  /** Takes cells while the accumulated weight stays below num / parts and the cap is not reached. */
  function Advance(ws: seq<int>, cap: int, num: int, parts: int, at: Sweep): (r: Sweep)
    requires cap <= |ws|
    ensures r.start >= at.start
    decreases cap - at.start
  {
    if at.start < cap && (at.acc + ws[at.start]) * parts < num then
      Advance(ws, cap, num, parts, Sweep(at.start + 1, at.acc + ws[at.start]))
    else at
  }

  function Cap(ws: seq<int>, parts: int, p: int): int { |ws| - (parts - p) }

  /** The cut for part p; the cell at the cut is passed over without being accumulated. */
  function Swept(ws: seq<int>, parts: int, p: int, at: Sweep): Sweep
    requires p < parts
  {
    Advance(ws, Cap(ws, parts, p), Sum(ws) * p, parts, at)
  }

  function RawFrom(ws: seq<int>, parts: int, p: int, at: Sweep): (r: seq<Range>)
    ensures p <= parts ==> |r| == parts - p + 1
    decreases parts - p
  {
    if p >= parts then [Range(at.start, |ws|)]
    else
      var s := Swept(ws, parts, p, at);
      [Range(at.start, s.start + 1)] + RawFrom(ws, parts, p + 1, Sweep(s.start + 1, s.acc))
  }

  function Balanced(ws: seq<int>, parts: int): seq<Range> {
    Sanitized(RawFrom(ws, parts, 1, Sweep(0, 0)), parts, |ws|)
  }

  /** The ranges cut so far, followed by those still to come, are all of them. */
  ghost predicate Underway(ws: seq<int>, parts: int, ranges: seq<Range>, p: int, at: Sweep) {
    ranges + RawFrom(ws, parts, p, at) == RawFrom(ws, parts, 1, Sweep(0, 0))
  }

  lemma {:induction false} RawStep(ranges: seq<Range>, ws: seq<int>, parts: int, p: int, at: Sweep)
    requires p < parts && Underway(ws, parts, ranges, p, at)
    ensures
      var s := Swept(ws, parts, p, at);
      Underway(ws, parts, ranges + [Range(at.start, s.start + 1)], p + 1, Sweep(s.start + 1, s.acc))
  {
    hide Swept;
    var s := Swept(ws, parts, p, at);
    var tail := RawFrom(ws, parts, p + 1, Sweep(s.start + 1, s.acc));
    assert ranges + ([Range(at.start, s.start + 1)] + tail) == (ranges + [Range(at.start, s.start + 1)]) + tail;
  }

  lemma {:induction false} RawLast(ranges: seq<Range>, ws: seq<int>, parts: int, p: int, at: Sweep)
    requires p >= parts && Underway(ws, parts, ranges, p, at)
    ensures ranges + [Range(at.start, |ws|)] == RawFrom(ws, parts, 1, Sweep(0, 0))
  {}

  method SweepTo(weights: seq<int>, total: int, parts: int, p: int, from: Sweep) returns (r: Sweep)
    requires total == Sum(weights) && p < parts
    ensures r == Swept(weights, parts, p, from)
  {
    hide Sum;
    var start, acc := from.start, from.acc;
    var cap, num := |weights| - (parts - p), total * p;
    while start < cap && (acc + weights[start]) * parts < num
      invariant Advance(weights, cap, num, parts, Sweep(start, acc)) == Advance(weights, cap, num, parts, from)
    {
      acc := acc + weights[start];
      start := start + 1;
    }
    r := Sweep(start, acc);
  }

  method BalancedRanges(weights: seq<int>, parts: int) returns (out: seq<Range>)
    ensures out == Balanced(weights, parts)
  {
    var total := Total(weights);
    var ranges: seq<Range> := [];
    var at := Sweep(0, 0);
    assert Underway(weights, parts, [], 1, at);
    hide Underway, RawFrom, Swept, Sum, Sanitized;
    var p := 1;
    while p < parts
      invariant 1 <= p
      invariant at.start == if ranges == [] then 0 else ranges[|ranges| - 1].hi
      invariant Underway(weights, parts, ranges, p, at)
    {
      RawStep(ranges, weights, parts, p, at);
      var s := SweepTo(weights, total, parts, p, at);
      var lo := if |ranges| > 0 then ranges[|ranges| - 1].hi else 0;
      ranges := ranges + [Range(lo, s.start + 1)];
      at := Sweep(s.start + 1, s.acc);
      p := p + 1;
    }
    RawLast(ranges, weights, parts, p, at);
    var lo := if |ranges| > 0 then ranges[|ranges| - 1].hi else 0;
    ranges := ranges + [Range(lo, |weights|)];
    out := SanitizeRanges(ranges, parts, |weights|);
  }

  // ---------------------------------------------------------------- the balance bound

  /** Every cell weighs between l and m. */
  ghost predicate Weights(ws: seq<int>, l: int, m: int) {
    0 <= l && forall i :: 0 <= i < |ws| ==> l <= ws[i] <= m
  }

  /** The first p parts weigh at most p parts' share plus p times the heaviest cell; and, unless the cut
      is as far right as the remaining parts allow, at least that share plus p - 1 times the lightest. */
  ghost predicate FairCut(ws: seq<int>, parts: int, l: int, m: int, p: int, cut: int) {
    && 0 <= cut <= Cap(ws, parts, p) <= |ws|
    && Prefix(ws, cut) * parts <= Sum(ws) * p + p * m * parts
    && (cut == Cap(ws, parts, p) || Prefix(ws, cut) * parts >= Sum(ws) * p + (p - 1) * l * parts)
  }

  /** What holds of the sweep before part p. */
  ghost predicate SweepOk(ws: seq<int>, parts: int, l: int, m: int, p: int, at: Sweep) {
    && 1 <= p <= parts <= |ws|
    && at.start <= Cap(ws, parts, p)
    && at.acc * parts <= Sum(ws) * (p - 1)
    && at.acc + (p - 1) * l <= Prefix(ws, at.start) <= at.acc + (p - 1) * m
  }

  lemma {:induction false} PrefixMonotone(ws: seq<int>, l: int, m: int, i: nat, j: nat)
    requires Weights(ws, l, m) && i <= j <= |ws|
    ensures 0 <= Prefix(ws, i) <= Prefix(ws, j) <= Sum(ws)
    decreases j
  {
    if i < j {
      PrefixNext(ws, j - 1);
      PrefixMonotone(ws, l, m, i, j - 1);
    } else if i > 0 {
      PrefixNext(ws, i - 1);
      PrefixMonotone(ws, l, m, i - 1, i - 1);
    }
    PrefixBelowSum(ws, l, m, j);
  }

  lemma {:induction false} PrefixBelowSum(ws: seq<int>, l: int, m: int, j: nat)
    requires Weights(ws, l, m) && j <= |ws|
    ensures Prefix(ws, j) <= Sum(ws)
    decreases |ws| - j
  {
    if j < |ws| {
      PrefixNext(ws, j);
      PrefixBelowSum(ws, l, m, j + 1);
    } else {
      assert ws[..j] == ws;
    }
  }

  lemma {:induction false} AdvanceFacts(ws: seq<int>, cap: int, num: int, parts: int, at: Sweep)
    requires at.start <= cap <= |ws| && at.acc * parts <= num
    ensures
      var r := Advance(ws, cap, num, parts, at);
      && r.start <= cap && r.acc * parts <= num
      && Prefix(ws, r.start) - r.acc == Prefix(ws, at.start) - at.acc
      && (r.start == cap || (r.acc + ws[r.start]) * parts >= num)
    decreases cap - at.start
  {
    if at.start < cap && (at.acc + ws[at.start]) * parts < num {
      PrefixNext(ws, at.start);
      AdvanceFacts(ws, cap, num, parts, Sweep(at.start + 1, at.acc + ws[at.start]));
    }
  }

  lemma {:induction false} MulMono(a: int, b: int, k: int)
    requires a <= b && 0 <= k
    ensures a * k <= b * k
  {}

  lemma {:induction false} UpperBound(acc: int, w: int, p: int, m: int, parts: int, num: int)
    requires acc * parts <= num && w <= acc + p * m && 0 <= parts
    ensures w * parts <= num + p * m * parts
  {
    MulMono(w, acc + p * m, parts);
    assert (acc + p * m) * parts == acc * parts + p * m * parts;
  }

  lemma {:induction false} LowerBound(acc: int, w: int, skipped: int, parts: int, num: int)
    requires acc * parts >= num && w >= acc + skipped && 0 <= parts
    ensures w * parts >= num + skipped * parts
  {
    MulMono(acc + skipped, w, parts);
    assert (acc + skipped) * parts == acc * parts + skipped * parts;
  }

  lemma {:induction false} OneMore(p: int, x: int)
    ensures (p - 1) * x + x == p * x
  {}

  lemma {:induction false} AtCap(ws: seq<int>, parts: int, l: int, m: int, p: int, at: Sweep)
    requires Weights(ws, l, m) && SweepOk(ws, parts, l, m, p, at) && p < parts
    ensures
      var s := Swept(ws, parts, p, at);
      var num := Sum(ws) * p;
      && s.start <= Cap(ws, parts, p) < |ws| && s.acc * parts <= num
      && s.acc + (p - 1) * l <= Prefix(ws, s.start) <= s.acc + (p - 1) * m
      && (s.start < Cap(ws, parts, p) ==> (s.acc + ws[s.start]) * parts >= num)
  {
    PrefixMonotone(ws, l, m, 0, 0);
    MulMono(p - 1, p, Sum(ws));
    AdvanceFacts(ws, Cap(ws, parts, p), Sum(ws) * p, parts, at);
    hide Advance, Sum, Prefix, Weights;
  }

  /** One part: the sweep before the next, and the cut it contributes. */
  lemma {:induction false} SweptFacts(ws: seq<int>, parts: int, l: int, m: int, p: int, at: Sweep)
    requires Weights(ws, l, m) && SweepOk(ws, parts, l, m, p, at) && p < parts
    ensures
      var s := Swept(ws, parts, p, at);
      var cap := Cap(ws, parts, p);
      && s.start <= cap
      && SweepOk(ws, parts, l, m, p + 1, Sweep(s.start + 1, s.acc))
      && FairCut(ws, parts, l, m, p, if s.start + 1 < cap then s.start + 1 else cap)
  {
    var cap, num := Cap(ws, parts, p), Sum(ws) * p;
    AtCap(ws, parts, l, m, p, at);
    var s := Swept(ws, parts, p, at);
    PrefixNext(ws, s.start);
    assert l <= ws[s.start] <= m;
    OneMore(p, l);
    OneMore(p, m);
    var cut := if s.start + 1 < cap then s.start + 1 else cap;
    PrefixMonotone(ws, l, m, cut, s.start + 1);
    UpperBound(s.acc, Prefix(ws, cut), p, m, parts, num);
    if s.start < cap {
      LowerBound(s.acc + ws[s.start], Prefix(ws, s.start + 1), (p - 1) * l, parts, num);
    }
    hide Swept, Sum, Prefix, Weights;
  }

  lemma {:induction false} FairFrom(ws: seq<int>, parts: int, l: int, m: int, p: int, at: Sweep, ranges: seq<Range>,
                                    cursor: int)
    requires Weights(ws, l, m) && SweepOk(ws, parts, l, m, p, at)
    requires |ranges| == parts && ranges[p - 1..] == RawFrom(ws, parts, p, at)
    requires cursor <= at.start && cursor <= Cap(ws, parts, p - 1)
    ensures
      var out := SanitizeFrom(ranges, parts, |ws|, p - 1, cursor);
      |out| == parts - p + 1 && forall j :: 0 <= j < parts - p ==> FairCut(ws, parts, l, m, p + j, out[j].hi)
    decreases parts - p
  {
    if p < parts {
      SweptFacts(ws, parts, l, m, p, at);
      var s := Swept(ws, parts, p, at);
      var out := SanitizeFrom(ranges, parts, |ws|, p - 1, cursor);
      assert ranges[p - 1] == ranges[p - 1..][0];
      assert ranges[p..] == ranges[p - 1..][1..];
      var end := if s.start + 1 < Cap(ws, parts, p) then s.start + 1 else Cap(ws, parts, p);
      assert out[0].hi == end;
      FairFrom(ws, parts, l, m, p + 1, Sweep(s.start + 1, s.acc), ranges, end);
      forall j | 0 <= j < parts - p ensures FairCut(ws, parts, l, m, p + j, out[j].hi) {
        if j > 0 {
          assert out[j] == out[1..][j - 1];
          assert FairCut(ws, parts, l, m, p + 1 + (j - 1), out[1..][j - 1].hi);
        }
      }
    }
  }

  /** The balance the partitioner guarantees at every cut but the last. */
  lemma {:induction false} BalancedCutsAreFair(ws: seq<int>, parts: int, l: int, m: int, p: int)
    requires Weights(ws, l, m) && 1 <= p < parts <= |ws|
    ensures |Balanced(ws, parts)| == parts
    ensures FairCut(ws, parts, l, m, p, Balanced(ws, parts)[p - 1].hi)
  {
    var raw := RawFrom(ws, parts, 1, Sweep(0, 0));
    assert raw[0..] == raw;
    FairFrom(ws, parts, l, m, 1, Sweep(0, 0), raw, 0);
  }

  /** The slack does grow with p: on cells of equal weight m, with room behind the cut, the first p
      parts exceed their share by at least p - 1 cells. */
  lemma {:induction false} SlackGrows(ws: seq<int>, parts: int, m: int, p: int)
    requires Weights(ws, m, m) && m > 0 && 1 <= p < parts <= |ws| && |ws| * (parts - p) > parts * parts
    ensures |Balanced(ws, parts)| == parts && 0 <= Balanced(ws, parts)[p - 1].hi <= |ws|
    ensures Prefix(ws, Balanced(ws, parts)[p - 1].hi) * parts >= Sum(ws) * p + (p - 1) * m * parts
  {
    BalancedCutsAreFair(ws, parts, m, m, p);
    var cut := Balanced(ws, parts)[p - 1].hi;
    hide Balanced;
    if cut == Cap(ws, parts, p) {
      EqualPrefix(ws, m, cut);
      EqualPrefix(ws, m, |ws|);
      assert ws[..|ws|] == ws;
      hide Sum, Prefix, Weights;
      RoomBehind(|ws|, parts, p, m);
    }
  }

  lemma {:induction false} EqualPrefix(ws: seq<int>, m: int, k: nat)
    requires Weights(ws, m, m) && k <= |ws|
    ensures Prefix(ws, k) == k * m
  {
    if k > 0 {
      PrefixNext(ws, k - 1);
      EqualPrefix(ws, m, k - 1);
    }
  }

  /** A capped cut would leave too much in front of it. */
  lemma {:induction false} RoomBehind(n: int, parts: int, p: int, m: int)
    requires 1 <= p < parts <= n && m > 0 && n * (parts - p) > parts * parts
    ensures (n - (parts - p)) * m * parts > n * m * p + p * m * parts
  {
    var free := (n - (parts - p)) * parts - n * p - p * parts;
    assert free == n * (parts - p) - parts * parts;
    assert free * m == (n - (parts - p)) * m * parts - n * m * p - p * m * parts;
    assert free * m > 0;
  }
}
