/** When the shard monitor rebalances, and what its weights are, told from the entities of a frame
    (examples/agar_mit_clone/gw_shard_monitor.js). */
module ShardBalance {
  import opened ShardRanges
  import opened ShardGrid
  import opened ShardMonitor

  // ---------------------------------------------------------------- the heaviest block

  lemma {:induction false} MaxIff(s: seq<int>, bound: real)
    requires s != [] && forall k :: 0 <= k < |s| ==> s[k] >= 0
    ensures MaxOf(s) as real > bound <==> exists k :: 0 <= k < |s| && s[k] as real > bound
  {
    var init, last := s[..|s| - 1], s[|s| - 1];
    if init == [] {
      assert MaxOf(init) == 0;
    } else {
      MaxIff(init, bound);
      assert forall k :: 0 <= k < |init| ==> init[k] == s[k];
    }
  }

  lemma {:induction false} ShareIff(load: int, total: int, n: int, ratio: real)
    requires n >= 1
    ensures load as real > total as real / n as real * ratio <==> load as real * n as real > ratio * total as real
  {
    var mean := total as real / n as real;
    assert mean * n as real == total as real;
    assert mean * ratio * n as real == ratio * total as real;
  }

  /** One of n parts has more than the ratio times its share of the total. */
  predicate Exceeds(load: int, total: int, n: int, ratio: real) { load as real * n as real > ratio * total as real }

  function Bound(total: int, n: int, ratio: real): real
    requires n >= 1
  {
    total as real / n as real * ratio
  }

  lemma {:induction false} ExceedsIff(load: int, total: int, n: int, ratio: real)
    requires n >= 1
    ensures load as real > Bound(total, n, ratio) <==> Exceeds(load, total, n, ratio)
  {
    ShareIff(load, total, n, ratio);
  }

  lemma {:induction false} OverloadedIs(loads: seq<int>, ratio: real)
    requires loads != []
    ensures Overloaded(loads, ratio) <==> MaxOf(loads) as real > Bound(Sum(loads), |loads|, ratio)
  {
    hide MaxOf, Sum;
  }

  lemma {:induction false} OverloadedIff(loads: seq<int>, ratio: real)
    requires loads != [] && forall k :: 0 <= k < |loads| ==> loads[k] >= 0
    ensures Overloaded(loads, ratio) <==>
      exists k :: 0 <= k < |loads| && Exceeds(loads[k], Sum(loads), |loads|, ratio)
  {
    hide Overloaded, MaxOf, Sum, Exceeds, Bound;
    OverloadedIs(loads, ratio);
    MaxIff(loads, Bound(Sum(loads), |loads|, ratio));
    forall k | 0 <= k < |loads|
      ensures loads[k] as real > Bound(Sum(loads), |loads|, ratio) <==> Exceeds(loads[k], Sum(loads), |loads|, ratio)
    {
      ExceedsIff(loads[k], Sum(loads), |loads|, ratio);
    }
  }

  lemma {:induction false} WeightSign(ps: seq<Placed>, r: Rect)
    requires forall i :: 0 <= i < |ps| ==> ps[i].weight >= 0
    ensures WeightIn(ps, r) >= 0
  {
    if ps != [] {
      WeightSign(ps[..|ps| - 1], r);
    }
  }

  /** The blocks by number, and by band and row. */
  lemma {:induction false} BlockNumbers(ps: seq<Placed>, bands: seq<Band>, n: int, nx: int, ny: int, k: nat)
    requires Partitions(bands, n, nx, ny) && 1 <= ny && k < nx * ny
    ensures 0 <= k / ny < nx && 0 <= k % ny < ny && |bands[k / ny].rows| == ny
    ensures k < |BlockWeights(ps, bands)|
    ensures BlockWeights(ps, bands)[k] == WeightIn(ps, BlockRect(bands, k / ny, k % ny))
  {
    BlockIndex(k, nx, ny);
    BlockWeightsAt(ps, bands, 0, n, ny, k / ny, k % ny);
    hide BlockWeights;
  }

  lemma {:induction false} BlockIndex(k: nat, nx: int, ny: int)
    requires 1 <= ny && k < nx * ny
    ensures 0 <= k / ny < nx && 0 <= k % ny < ny && k / ny * ny + k % ny == k
  {
    if k / ny >= nx {
      MulMono(nx, k / ny, ny);
      assert false;
    }
  }

  lemma {:induction false} BlockCount(ps: seq<Placed>, bands: seq<Band>, c: int, n: int, ny: int)
    requires TiledBands(bands, c, n, ny)
    ensures |BlockWeights(ps, bands)| == |bands| * ny
  {
    if bands != [] {
      BlockCount(ps, bands[1..], bands[0].c1, n, ny);
      RowCount(ps, bands[0], bands[0].rows);
      assert |bands| * ny == ny + (|bands| - 1) * ny;
    }
  }

  lemma {:induction false} RowCount(ps: seq<Placed>, band: Band, rows: seq<Range>)
    ensures |RowWeights(ps, band, rows)| == |rows|
  {
    if rows != [] {
      RowCount(ps, band, rows[1..]);
    }
  }

  ghost predicate Heavy(cfg: Config, bands: seq<Band>, ps: seq<Placed>, bx: nat, br: nat)
    requires bx < |bands| && br < |bands[bx].rows|
  {
    Exceeds(WeightIn(ps, BlockRect(bands, bx, br)), TotalWeight(ps), cfg.cols * cfg.rows, cfg.ratio)
  }

  /** Some block holds more than its share: its weight times the number of blocks exceeds the ratio times
      the weight of everything. */
  ghost predicate SomeBlockHeavy(cfg: Config, bands: seq<Band>, ps: seq<Placed>) {
    exists bx, br :: 0 <= bx < |bands| && 0 <= br < |bands[bx].rows| && Heavy(cfg, bands, ps, bx, br)
  }

  /** The loads of a partition, all of them, and none negative. */
  ghost predicate LoadsOf(cfg: Config, bands: seq<Band>, ps: seq<Placed>, loads: seq<int>) {
    && Partitions(bands, cfg.cells, cfg.cols, cfg.rows) && loads == BlockWeights(ps, bands)
    && 1 <= |loads| == cfg.cols * cfg.rows && Sum(loads) == TotalWeight(ps)
    && forall k :: 0 <= k < |loads| ==> loads[k] >= 0
  }

  lemma {:induction false} LoadsAre(cfg: Config, bands: seq<Band>, ps: seq<Placed>)
    requires Fits(cfg) && Partitions(bands, cfg.cells, cfg.cols, cfg.rows)
    requires OnGrid(cfg.cells, ps) && forall i :: 0 <= i < |ps| ==> ps[i].weight >= 0
    ensures LoadsOf(cfg, bands, ps, BlockWeights(ps, bands))
  {
    var loads := BlockWeights(ps, bands);
    BlockCount(ps, bands, 0, cfg.cells, cfg.rows);
    Positive(cfg.cols, cfg.rows);
    BlocksSum(ps, bands, 0, cfg.cells, cfg.rows);
    GridHoldsAll(ps, cfg.cells);
    hide BlockWeights, TotalWeight, TiledBands, WeightIn, Sum, OnGrid;
    forall k | 0 <= k < |loads| ensures loads[k] >= 0 {
      BlockNumbers(ps, bands, cfg.cells, cfg.cols, cfg.rows, k);
      WeightSign(ps, BlockRect(bands, k / cfg.rows, k % cfg.rows));
    }
  }

  lemma {:induction false} HeavyNumber(cfg: Config, bands: seq<Band>, ps: seq<Placed>, loads: seq<int>, k: nat)
    requires Fits(cfg) && LoadsOf(cfg, bands, ps, loads) && k < |loads|
    requires Exceeds(loads[k], Sum(loads), |loads|, cfg.ratio)
    ensures SomeBlockHeavy(cfg, bands, ps)
  {
    hide BlockWeights, TotalWeight, TiledBands, WeightIn, Sum, Exceeds;
    BlockNumbers(ps, bands, cfg.cells, cfg.cols, cfg.rows, k);
    assert Heavy(cfg, bands, ps, k / cfg.rows, k % cfg.rows);
  }

  lemma {:induction false} HeavyBlock(cfg: Config, bands: seq<Band>, ps: seq<Placed>, loads: seq<int>) returns (k: nat)
    requires Fits(cfg) && LoadsOf(cfg, bands, ps, loads) && SomeBlockHeavy(cfg, bands, ps)
    ensures k < |loads| && Exceeds(loads[k], Sum(loads), |loads|, cfg.ratio)
  {
    hide BlockWeights, TotalWeight, TiledBands, WeightIn, Sum, Exceeds;
    var bx, br :| 0 <= bx < |bands| && 0 <= br < |bands[bx].rows| && Heavy(cfg, bands, ps, bx, br);
    BandRows(bands, 0, cfg.cells, cfg.rows, bx);
    BlockWeightsAt(ps, bands, 0, cfg.cells, cfg.rows, bx, br);
    k := bx * cfg.rows + br;
  }

  lemma {:induction false} HeavyIff(cfg: Config, bands: seq<Band>, ps: seq<Placed>)
    requires Fits(cfg) && Partitions(bands, cfg.cells, cfg.cols, cfg.rows)
    requires OnGrid(cfg.cells, ps) && forall i :: 0 <= i < |ps| ==> ps[i].weight >= 0
    ensures Overloaded(BlockWeights(ps, bands), cfg.ratio) <==> SomeBlockHeavy(cfg, bands, ps)
  {
    hide BlockWeights, Overloaded, Sum, Exceeds, SomeBlockHeavy, OnGrid, Partitions;
    var loads := BlockWeights(ps, bands);
    LoadsAre(cfg, bands, ps);
    OverloadedIff(loads, cfg.ratio);
    if Overloaded(loads, cfg.ratio) {
      var k :| 0 <= k < |loads| && Exceeds(loads[k], Sum(loads), |loads|, cfg.ratio);
      HeavyNumber(cfg, bands, ps, loads, k);
    }
    if SomeBlockHeavy(cfg, bands, ps) {
      var k := HeavyBlock(cfg, bands, ps, loads);
    }
  }

  lemma {:induction false} Positive(a: int, b: int)
    requires 1 <= a && 1 <= b
    ensures a * b >= 1
  {}

  lemma {:induction false} PlacedWeights(cells: int, f: Frame)
    requires Measured(f)
    ensures forall i :: 0 <= i < |Places(cells, f)| ==> Places(cells, f)[i].weight >= 0
  {}

  /** A frame makes a monitor that has a partition rebalance exactly when the interval has passed and some
      block of the bands in use holds more than the ratio allows; then the bands are the proposal of this
      frame and the rebalance is counted.  Otherwise the bands stay. */
  lemma {:induction false} RebalancesIff(cfg: Config, s: State, f: Frame, now: int)
    requires Fits(cfg) && Inv(cfg, s) && Measured(f) && s.partition.Some?
    ensures
      var ps := Places(cfg.cells, f);
      var t := Step(cfg, s, f, now);
      && t.partition.Some?
      && if now - s.lastRebalanceAt >= cfg.minMs && SomeBlockHeavy(cfg, s.partition.value.bands, ps) then
           && t.rebalanceCount == s.rebalanceCount + 1 && t.lastRebalanceAt == now
           && t.partition.value.bands == Partitioned(cfg.cells, cfg.cols, cfg.rows, ps)
         else
           && t.rebalanceCount == s.rebalanceCount && t.lastRebalanceAt == s.lastRebalanceAt
           && t.partition.value.bands == s.partition.value.bands
  {
    PlacesOnGrid(cfg.cells, f);
    PlacedWeights(cfg.cells, f);
    hide Places, OnGrid, Partitioned, BlockWeights, Overloaded, SomeBlockHeavy, Partitions;
    HeavyIff(cfg, s.partition.value.bands, Places(cfg.cells, f));
  }

  /** The first frame is partitioned without counting as a rebalance. */
  lemma {:induction false} FirstFrame(cfg: Config, s: State, f: Frame, now: int)
    requires Fits(cfg) && Measured(f) && s.partition.None?
    ensures
      var t := Step(cfg, s, f, now);
      && t.partition.Some? && t.rebalanceCount == s.rebalanceCount && t.lastRebalanceAt == s.lastRebalanceAt
      && t.partition.value.bands == Partitioned(cfg.cells, cfg.cols, cfg.rows, Places(cfg.cells, f))
  {
    hide Places, Partitioned, BlockWeights;
  }

  // ---------------------------------------------------------------- weights and cells

  function OfKind(entities: seq<Entity>, kind: string): nat {
    if entities == [] then 0
    else OfKind(entities[..|entities| - 1], kind) + (if entities[|entities| - 1].kind == kind then 1 else 0)
  }

  /** A player weighs as much as four pieces of food, a virus as much as two. */
  lemma {:induction false} WeightOfFrame(cells: int, f: Frame)
    requires Measured(f)
    ensures TotalWeight(Places(cells, f)) ==
      |f.entities| + 3 * OfKind(f.entities, "player") + OfKind(f.entities, "virus")
    decreases |f.entities|
  {
    if f.entities == [] {
      assert Places(cells, f) == [];
    } else {
      var n := |f.entities| - 1;
      var g := f.(entities := f.entities[..n]);
      WeightOfFrame(cells, g);
      assert Places(cells, f)[..n] == Places(cells, g);
      assert "player"[0] != "virus"[0];
      hide Place, OfKind;
      LastEntity(cells, f);
    }
  }

  lemma {:induction false} LastEntity(cells: int, f: Frame)
    requires Measured(f) && f.entities != []
    ensures
      var n := |f.entities| - 1;
      var e := f.entities[n];
      && Places(cells, f)[n].weight
        == 1 + (if e.kind == "player" then 3 else 0) + (if e.kind == "virus" then 1 else 0)
      && (forall kind :: OfKind(f.entities, kind) ==
            OfKind(f.entities[..n], kind) + (if e.kind == kind then 1 else 0))
  {
    assert "player"[0] != "virus"[0];
  }

  /** A position inside the frame is in the cell whose span holds it; outside, in the nearest one. */
  lemma {:induction false} CellHolds(cells: int, v: real, size: real)
    requires cells >= 1 && size > 0.0
    ensures
      var c := CellIndex(cells, v, size);
      && (0.0 <= v < size ==> c as real * size <= v * cells as real < c as real * size + size)
      && (v < 0.0 ==> c == 0) && (v >= size ==> c == cells - 1)
  {
    var x := v / size * cells as real;
    assert x * size == v * cells as real;
    Scaled(cells, v, size, x);
    if 0.0 <= v < size {
      var c := CellIndex(cells, v, size);
      FloorTimes(x, size, c, v * cells as real, c as real * size);
    }
  }

  /** An entity inside the frame is counted in the column that spans its x and the row that spans its y. */
  lemma {:induction false} EntityPlaced(cells: int, f: Frame, e: Entity)
    requires cells >= 1 && 0.0 <= e.x < f.width && 0.0 <= e.y < f.height
    ensures var p := Place(cells, f, e);
      && p.cx as real * f.width <= e.x * cells as real < p.cx as real * f.width + f.width
      && p.cy as real * f.height <= e.y * cells as real < p.cy as real * f.height + f.height
  {
    hide CellIndex;
    CellHolds(cells, e.x, f.width);
    CellHolds(cells, e.y, f.height);
  }

  lemma {:induction false} Scaled(cells: int, v: real, size: real, x: real)
    requires cells >= 1 && size > 0.0 && x == v / size * cells as real
    ensures v < 0.0 ==> x < 0.0
    ensures 0.0 <= v < size ==> 0.0 <= x < cells as real
    ensures v >= size ==> x >= cells as real
  {
    var y := v / size;
    assert y * size == v;
    assert v < 0.0 <==> y < 0.0;
    assert v < size <==> y < 1.0;
  }

  lemma {:induction false} Between(d: real, k: real, dk: real)
    requires 0.0 <= d < 1.0 && k > 0.0 && dk == d * k
    ensures 0.0 <= dk < k
  {
    assert (1.0 - d) * k > 0.0;
  }
  lemma {:induction false} Distributes(a: real, b: real, sum: real, k: real, ak: real, bk: real, sk: real)
    requires sum == a + b && ak == a * k && bk == b * k && sk == sum * k
    ensures sk == ak + bk
  {}
  lemma {:induction false} FloorTimes(x: real, size: real, c: int, scaled: real, cs: real)
    requires size > 0.0 && c == x.Floor && scaled == x * size && cs == c as real * size
    ensures cs <= scaled < cs + size
  {
    var cr := c as real;
    var d := x - cr;
    assert 0.0 <= d < 1.0;
    var ds := d * size;
    Between(d, size, ds);
    Distributes(cr, d, x, size, cs, ds, scaled);
  }
}
