/** The live shard monitor of examples/agar_mit_clone/gw_shard_monitor.js: the partition it keeps from
    frame to frame, when it rebalances, and why the loads it reports are those of the blocks it names. */
module ShardMonitor {
  import opened Wrappers
  import opened ShardRanges
  import opened ShardGrid

  // ---------------------------------------------------------------- block lookup

  datatype Block = Worker(bx: nat, br: nat) | Unknown

  /** The first row from j on that holds the cell. */
  function RowOf(rows: seq<Range>, cy: int, j: nat): Option<nat>
    decreases |rows| - j
  {
    if j >= |rows| then None
    else if rows[j].lo <= cy < rows[j].hi then Some(j)
    else RowOf(rows, cy, j + 1)
  }

  /** The first block from band i on that holds the cell. */
  function BlockFrom(bands: seq<Band>, cx: int, cy: int, i: nat): Block
    decreases |bands| - i
  {
    if i >= |bands| then Unknown
    else
      var row := RowOf(bands[i].rows, cy, 0);
      if bands[i].c0 <= cx < bands[i].c1 && row.Some? then Worker(i, row.value)
      else BlockFrom(bands, cx, cy, i + 1)
  }

  function BlockOf(bands: seq<Band>, cx: int, cy: int): Block { BlockFrom(bands, cx, cy, 0) }

  method BlockFor(e: Entity, bands: seq<Band>, f: Frame, cells: int) returns (b: Block)
    requires Measured(f)
    ensures var p := Place(cells, f, e); b == BlockOf(bands, p.cx, p.cy)
  {
    var cx, cy := CellIndex(cells, e.x, f.width), CellIndex(cells, e.y, f.height);
    for bx := 0 to |bands|
      invariant BlockFrom(bands, cx, cy, bx) == BlockOf(bands, cx, cy)
    {
      var band := bands[bx];
      if !(cx < band.c0 || cx >= band.c1) {
        for br := 0 to |band.rows|
          invariant RowOf(band.rows, cy, br) == RowOf(band.rows, cy, 0)
        {
          if band.rows[br].lo <= cy < band.rows[br].hi {
            return Worker(bx, br);
          }
        }
      }
    }
    return Unknown;
  }

  function BlockRect(bands: seq<Band>, bx: nat, br: nat): Rect
    requires bx < |bands| && br < |bands[bx].rows|
  {
    Rect(bands[bx].c0, bands[bx].c1, bands[bx].rows[br].lo, bands[bx].rows[br].hi)
  }

  lemma {:induction false} RowOfTiles(rows: seq<Range>, n: int, cy: int, j: nat, k: nat)
    requires j <= k < |rows| && rows[k].lo <= cy < rows[k].hi
    requires forall i :: 0 <= i < |rows| && rows[i].lo <= cy < rows[i].hi ==> i == k
    ensures RowOf(rows, cy, j) == Some(k)
    decreases k - j
  {
    if j < k {
      RowOfTiles(rows, n, cy, j + 1, k);
    }
  }

  /** On tiled bands every cell of the grid has a block, the only one whose rectangle holds it. */
  lemma {:induction false} BlockFromTiles(bands: seq<Band>, i: nat, n: int, ny: int, p: Placed) returns (b: Block)
    requires i <= |bands| && TiledBands(bands[i..], if i < |bands| then bands[i].c0 else n, n, ny)
    requires i < |bands| && bands[i].c0 <= p.cx < n && 0 <= p.cy < n
    ensures b == BlockFrom(bands, p.cx, p.cy, i) && b.Worker?
    ensures i <= b.bx < |bands| && b.br < |bands[b.bx].rows| && Inside(p, BlockRect(bands, b.bx, b.br))
    ensures forall bx, br :: i <= bx < |bands| && 0 <= br < |bands[bx].rows| && Inside(p, BlockRect(bands, bx, br)) ==>
      Worker(bx, br) == b
    decreases |bands| - i
  {
    var rest := bands[i..];
    assert rest[0] == bands[i] && rest[1..] == bands[i + 1..];
    var k := TilesFind(bands[i].rows, 0, n, p.cy);
    RowOfTiles(bands[i].rows, n, p.cy, 0, k);
    if p.cx < bands[i].c1 {
      b := Worker(i, k);
      forall bx | i < bx < |bands| ensures bands[bx].c0 >= bands[i].c1 {
        ColumnsAscend(rest[1..], bands[i].c1, n, ny, bx - i - 1);
        assert rest[1..][bx - i - 1] == bands[bx];
      }
    } else {
      if i + 1 < |bands| {
        assert rest[1..][0] == bands[i + 1];
      }
      b := BlockFromTiles(bands, i + 1, n, ny, p);
    }
  }

  lemma {:induction false} ColumnsAscend(bands: seq<Band>, c: int, n: int, ny: int, k: nat)
    requires TiledBands(bands, c, n, ny) && k < |bands|
    ensures bands[k].c0 >= c
  {
    if k > 0 {
      ColumnsAscend(bands[1..], bands[0].c1, n, ny, k - 1);
    }
  }

  // ---------------------------------------------------------------- loads and lookup agree

  /** The weight of the entities that the lookup sends to a block. */
  function WeightSent(ps: seq<Placed>, bands: seq<Band>, b: Block): int {
    if ps == [] then 0
    else
      var last := ps[|ps| - 1];
      WeightSent(ps[..|ps| - 1], bands, b) + (if BlockOf(bands, last.cx, last.cy) == b then last.weight else 0)
  }

  ghost predicate Partitions(bands: seq<Band>, n: int, nx: int, ny: int) {
    |bands| == nx && TiledBands(bands, 0, n, ny)
  }

  lemma {:induction false} BandRows(bands: seq<Band>, c: int, n: int, ny: int, bx: nat)
    requires TiledBands(bands, c, n, ny) && bx < |bands|
    ensures |bands[bx].rows| == ny
  {
    if bx > 0 {
      BandRows(bands[1..], bands[0].c1, n, ny, bx - 1);
    }
  }

  /** The lookup finds exactly the block whose rectangle holds the cell. */
  lemma {:induction false} BlockOfIff(bands: seq<Band>, n: int, nx: int, ny: int, p: Placed, bx: nat, br: nat)
    requires Partitions(bands, n, nx, ny) && nx >= 1 && 0 <= p.cx < n && 0 <= p.cy < n
    requires bx < |bands| && br < |bands[bx].rows|
    ensures BlockOf(bands, p.cx, p.cy) == Worker(bx, br) <==> Inside(p, BlockRect(bands, bx, br))
    ensures BlockOf(bands, p.cx, p.cy).Worker?
  {
    assert bands[0..] == bands;
    var b := BlockFromTiles(bands, 0, n, ny, p);
  }

  lemma {:induction false} SentIsInside(ps: seq<Placed>, bands: seq<Band>, n: int, nx: int, ny: int, bx: nat, br: nat)
    requires OnGrid(n, ps) && Partitions(bands, n, nx, ny) && nx >= 1
    requires bx < |bands| && br < |bands[bx].rows|
    ensures WeightSent(ps, bands, Worker(bx, br)) == WeightIn(ps, BlockRect(bands, bx, br))
  {
    hide Partitions, BlockOf;
    if ps != [] {
      SentIsInside(ps[..|ps| - 1], bands, n, nx, ny, bx, br);
      var last := ps[|ps| - 1];
      assert last in ps;
      BlockOfIff(bands, n, nx, ny, last, bx, br);
    }
  }

  lemma {:induction false} RowWeightsAt(ps: seq<Placed>, band: Band, rows: seq<Range>, br: nat)
    requires br < |rows|
    ensures |RowWeights(ps, band, rows)| == |rows|
    ensures RowWeights(ps, band, rows)[br] == WeightIn(ps, Rect(band.c0, band.c1, rows[br].lo, rows[br].hi))
    decreases |rows|
  {
    if br > 0 {
      RowWeightsAt(ps, band, rows[1..], br - 1);
    } else if |rows| > 1 {
      RowWeightsAt(ps, band, rows[1..], 0);
    }
  }

  /** Blocks are stored band by band. */
  lemma {:induction false} BlockWeightsAt(ps: seq<Placed>, bands: seq<Band>, c: int, n: int, ny: int, bx: nat, br: nat)
    requires TiledBands(bands, c, n, ny) && bx < |bands| && br < ny
    ensures |bands[bx].rows| == ny
    ensures bx * ny + br < |BlockWeights(ps, bands)|
    ensures BlockWeights(ps, bands)[bx * ny + br] == WeightIn(ps, BlockRect(bands, bx, br))
  {
    RowWeightsAt(ps, bands[0], bands[0].rows, if bx == 0 then br else 0);
    if bx > 0 {
      BlockWeightsAt(ps, bands[1..], bands[0].c1, n, ny, bx - 1, br);
      assert (bx - 1) * ny + ny == bx * ny;
      assert BlockWeights(ps, bands)[ny + ((bx - 1) * ny + br)] == BlockWeights(ps, bands[1..])[(bx - 1) * ny + br];
    }
  }

  // ---------------------------------------------------------------- conservation

  lemma {:induction false} SumConcat(a: seq<int>, b: seq<int>)
    ensures Sum(a + b) == Sum(a) + Sum(b)
  {
    if b == [] {
      assert a + b == a;
    } else {
      assert (a + b)[..|a + b| - 1] == a + b[..|b| - 1];
      SumConcat(a, b[..|b| - 1]);
    }
  }

  lemma {:induction false} RowsSum(ps: seq<Placed>, band: Band, rows: seq<Range>, lo: int, hi: int)
    requires Tiles(rows, lo, hi)
    ensures Sum(RowWeights(ps, band, rows)) == WeightIn(ps, Rect(band.c0, band.c1, lo, hi))
  {
    if rows == [] {
      WeightNowhere(ps, Rect(band.c0, band.c1, lo, hi));
    } else {
      RowsSum(ps, band, rows[1..], rows[0].hi, hi);
      TilesNeedRoom(rows[1..], rows[0].hi, hi);
      var first := WeightIn(ps, Rect(band.c0, band.c1, lo, rows[0].hi));
      SumConcat([first], RowWeights(ps, band, rows[1..]));
      assert [first][..0] == [];
      WeightSplitsRows(ps, Rect(band.c0, band.c1, lo, hi), rows[0].hi);
    }
  }

  lemma {:induction false} BlocksSum(ps: seq<Placed>, bands: seq<Band>, c: int, n: int, ny: int)
    requires TiledBands(bands, c, n, ny) && 0 <= c
    ensures Sum(BlockWeights(ps, bands)) == WeightIn(ps, Rect(c, n, 0, n))
  {
    if bands == [] {
      WeightNowhere(ps, Rect(c, n, 0, n));
    } else {
      BlocksSum(ps, bands[1..], bands[0].c1, n, ny);
      TiledInGrid(bands[1..], bands[0].c1, n, ny);
      RowsSum(ps, bands[0], bands[0].rows, 0, n);
      SumConcat(RowWeights(ps, bands[0], bands[0].rows), BlockWeights(ps, bands[1..]));
      WeightSplitsColumns(ps, Rect(c, n, 0, n), bands[0].c1);
    }
  }

  function TotalWeight(ps: seq<Placed>): int {
    if ps == [] then 0 else TotalWeight(ps[..|ps| - 1]) + ps[|ps| - 1].weight
  }

  lemma {:induction false} GridHoldsAll(ps: seq<Placed>, n: int)
    requires OnGrid(n, ps)
    ensures WeightIn(ps, Rect(0, n, 0, n)) == TotalWeight(ps)
  {
    if ps != [] {
      assert ps[|ps| - 1] in ps;
      GridHoldsAll(ps[..|ps| - 1], n);
    }
  }

  // ---------------------------------------------------------------- the monitor's state

  datatype Config = Config(cells: nat, cols: int, rows: int, ratio: real, minMs: int)

  /** Every part of the partition can have a cell. */
  predicate Fits(cfg: Config) { 1 <= cfg.cols <= cfg.cells && 1 <= cfg.rows <= cfg.cells }

  datatype Partition = Partition(bands: seq<Band>, loads: seq<int>)

  /** The last component records, for the theorems, when each rebalance happened. */
  datatype State = State(
    latest: Option<Frame>,
    partition: Option<Partition>,
    lastRebalanceAt: int,
    rebalanceCount: nat,
    rebalances: seq<int>)

  const INIT := State(None, None, 0, 0, [])

  function MaxOf(s: seq<int>): int {
    if s == [] then 0
    else
      var m := MaxOf(s[..|s| - 1]);
      if s[|s| - 1] > m then s[|s| - 1] else m
  }

  predicate Overloaded(loads: seq<int>, ratio: real) {
    var mean := Sum(loads) as real / (if |loads| > 1 then |loads| else 1) as real;
    MaxOf(loads) as real > mean * ratio
  }

  function Step(cfg: Config, s: State, f: Frame, now: int): State
    requires Measured(f)
  {
    var ps := Places(cfg.cells, f);
    var proposal := Partitioned(cfg.cells, cfg.cols, cfg.rows, ps);
    var proposed := Some(Partition(proposal, BlockWeights(ps, proposal)));
    var t := s.(latest := Some(f));
    if s.partition.None? then t.(partition := proposed)
    else
      var current := BlockWeights(ps, s.partition.value.bands);
      if now - s.lastRebalanceAt >= cfg.minMs && Overloaded(current, cfg.ratio) then
        t.(partition := proposed, lastRebalanceAt := now, rebalanceCount := s.rebalanceCount + 1,
           rebalances := s.rebalances + [now])
      else t.(partition := Some(s.partition.value.(loads := current)))
  }

  ghost predicate Inv(cfg: Config, s: State) {
    && (s.partition.Some? <==> s.latest.Some?)
    && (s.latest.Some? ==>
      && Measured(s.latest.value)
      && Partitions(s.partition.value.bands, cfg.cells, cfg.cols, cfg.rows)
      && s.partition.value.loads == BlockWeights(Places(cfg.cells, s.latest.value), s.partition.value.bands))
    && |s.rebalances| == s.rebalanceCount
    && s.lastRebalanceAt == (if s.rebalances == [] then 0 else s.rebalances[|s.rebalances| - 1])
    && Apart(s.rebalances, cfg.minMs)
  }

  ghost predicate Apart(times: seq<int>, gap: int) {
    forall i :: 0 < i < |times| ==> times[i] - times[i - 1] >= gap
  }

  lemma {:induction false} StepInv(cfg: Config, s: State, f: Frame, now: int)
    requires Fits(cfg) && Inv(cfg, s) && Measured(f)
    ensures Inv(cfg, Step(cfg, s, f, now))
  {
    PartitionTiles(cfg.cells, cfg.cols, cfg.rows, Places(cfg.cells, f));
    hide Places, Partitioned, BlockWeights, TiledBands, Overloaded;
  }

  datatype Arrival = Arrival(frame: Frame, now: int)

  ghost predicate AllMeasured(arrivals: seq<Arrival>) {
    forall a :: a in arrivals ==> Measured(a.frame)
  }

  /** The state after a whole history of frames. */
  function Run(cfg: Config, arrivals: seq<Arrival>): State
    requires AllMeasured(arrivals)
  {
    if arrivals == [] then INIT
    else
      var last := arrivals[|arrivals| - 1];
      Step(cfg, Run(cfg, arrivals[..|arrivals| - 1]), last.frame, last.now)
  }

  lemma {:induction false} RunInv(cfg: Config, arrivals: seq<Arrival>)
    requires Fits(cfg) && AllMeasured(arrivals)
    ensures Inv(cfg, Run(cfg, arrivals))
    ensures Run(cfg, arrivals).latest
      == if arrivals == [] then None else Some(arrivals[|arrivals| - 1].frame)
  {
    if arrivals != [] {
      RunInv(cfg, arrivals[..|arrivals| - 1]);
      var last := arrivals[|arrivals| - 1];
      StepInv(cfg, Run(cfg, arrivals[..|arrivals| - 1]), last.frame, last.now);
    }
  }

  /** After any history of frames and rebalances the stored load of every block is the weight of the
      latest frame's entities that the lookup sends there. */
  lemma {:induction false} LoadsMatchLookup(cfg: Config, arrivals: seq<Arrival>, bx: nat, br: nat)
    requires Fits(cfg) && AllMeasured(arrivals) && arrivals != [] && bx < cfg.cols && br < cfg.rows
    ensures
      var s := Run(cfg, arrivals);
      var ps := Places(cfg.cells, arrivals[|arrivals| - 1].frame);
      && s.partition.Some? && bx * cfg.rows + br < |s.partition.value.loads|
      && s.partition.value.loads[bx * cfg.rows + br] == WeightSent(ps, s.partition.value.bands, Worker(bx, br))
  {
    RunInv(cfg, arrivals);
    var s := Run(cfg, arrivals);
    var f := arrivals[|arrivals| - 1].frame;
    assert arrivals[|arrivals| - 1] in arrivals;
    PlacesOnGrid(cfg.cells, f);
    BlockWeightsAt(Places(cfg.cells, f), s.partition.value.bands, 0, cfg.cells, cfg.rows, bx, br);
    SentIsInside(Places(cfg.cells, f), s.partition.value.bands, cfg.cells, cfg.cols, cfg.rows, bx, br);
  }

  /** Every entity of the latest frame has a block, and the loads account for all of their weight. */
  lemma {:induction false} NothingUnknown(cfg: Config, arrivals: seq<Arrival>)
    requires Fits(cfg) && AllMeasured(arrivals) && arrivals != []
    ensures
      var s := Run(cfg, arrivals);
      var ps := Places(cfg.cells, arrivals[|arrivals| - 1].frame);
      && s.partition.Some?
      && (forall p :: p in ps ==> BlockOf(s.partition.value.bands, p.cx, p.cy).Worker?)
      && Sum(s.partition.value.loads) == TotalWeight(ps)
  {
    RunInv(cfg, arrivals);
    var s := Run(cfg, arrivals);
    var f := arrivals[|arrivals| - 1].frame;
    assert arrivals[|arrivals| - 1] in arrivals;
    var ps, bands := Places(cfg.cells, f), s.partition.value.bands;
    PlacesOnGrid(cfg.cells, f);
    BandRows(bands, 0, cfg.cells, cfg.rows, 0);
    forall p | p in ps ensures BlockOf(bands, p.cx, p.cy).Worker? {
      BlockOfIff(bands, cfg.cells, cfg.cols, cfg.rows, p, 0, 0);
    }
    BlocksSum(ps, bands, 0, cfg.cells, cfg.rows);
    GridHoldsAll(ps, cfg.cells);
  }

  /** Rebalances are counted, and any two consecutive ones are at least the minimum interval apart. */
  lemma {:induction false} RebalancesApart(cfg: Config, arrivals: seq<Arrival>, i: nat)
    requires Fits(cfg) && AllMeasured(arrivals) && 0 < i < Run(cfg, arrivals).rebalanceCount
    ensures
      var times := Run(cfg, arrivals).rebalances;
      |times| == Run(cfg, arrivals).rebalanceCount && times[i] - times[i - 1] >= cfg.minMs
  {
    RunInv(cfg, arrivals);
  }

  // ---------------------------------------------------------------- the monitor object

  class Monitor {
    const cfg: Config
    var latest: Option<Frame>
    var partition: Option<Partition>
    var lastRebalanceAt: int
    var rebalanceCount: nat
    ghost var rebalances: seq<int>

    ghost function View(): State
      reads this
    {
      State(latest, partition, lastRebalanceAt, rebalanceCount, rebalances)
    }

    ghost predicate Valid()
      reads this
    {
      Fits(cfg) && Inv(cfg, View())
    }

    constructor (cfg: Config)
      requires Fits(cfg)
      ensures Valid() && this.cfg == cfg && View() == INIT
    {
      this.cfg := cfg;
      latest, partition, lastRebalanceAt, rebalanceCount, rebalances := None, None, 0, 0, [];
    }

    method OnFrame(frame: Frame, now: int)
      requires Valid() && Measured(frame)
      modifies this
      ensures Valid() && View() == Step(cfg, old(View()), frame, now)
    {
      StepInv(cfg, View(), frame, now);
      latest := Some(frame);
      UpdatePartition(frame, now);
    }

    method UpdatePartition(frame: Frame, now: int)
      requires Fits(cfg) && Measured(frame)
      requires partition.Some? ==> Partitions(partition.value.bands, cfg.cells, cfg.cols, cfg.rows)
      requires latest == Some(frame)
      modifies this`partition, this`lastRebalanceAt, this`rebalanceCount, this`rebalances
      ensures View() == Step(cfg, old(View()), frame, now)
    {
      var load := MakeGridLoad(cfg.cells, frame);
      ghost var ps := Places(cfg.cells, frame);
      var proposal := MakePartition(cfg.cells, cfg.cols, cfg.rows, load, ps);
      PartitionTiles(cfg.cells, cfg.cols, cfg.rows, ps);
      TiledInGrid(proposal, 0, cfg.cells, cfg.rows);
      var proposedLoads := BlockLoads(cfg.cells, load, proposal, ps);
      if partition.None? {
        partition := Some(Partition(proposal, proposedLoads));
        return;
      }
      TiledInGrid(partition.value.bands, 0, cfg.cells, cfg.rows);
      var currentLoads := BlockLoads(cfg.cells, load, partition.value.bands, ps);
      var overloaded := IsOverloaded(currentLoads);
      if now - lastRebalanceAt >= cfg.minMs && overloaded {
        partition := Some(Partition(proposal, proposedLoads));
        lastRebalanceAt := now;
        rebalanceCount := rebalanceCount + 1;
        rebalances := rebalances + [now];
      } else {
        partition := Some(partition.value.(loads := currentLoads));
      }
    }

    method IsOverloaded(loads: seq<int>) returns (r: bool)
      ensures r == Overloaded(loads, cfg.ratio)
    {
      var sum := Total(loads);
      var mean := sum as real / (if |loads| > 1 then |loads| else 1) as real;
      var max := 0;
      for i := 0 to |loads|
        invariant max == MaxOf(loads[..i])
      {
        assert loads[..i + 1][..i] == loads[..i];
        if loads[i] > max {
          max := loads[i];
        }
      }
      assert loads[..|loads|] == loads;
      r := max as real > mean * cfg.ratio;
    }

    /** The view served to the browser: the loads and every entity's block. */
    method Snapshot() returns (loads: seq<int>, blocks: seq<Block>)
      requires Valid()
      ensures latest.None? ==> loads == [] && blocks == []
      ensures latest.Some? ==>
        var ps := Places(cfg.cells, latest.value);
        && loads == partition.value.loads && |blocks| == |ps|
        && forall i :: 0 <= i < |ps| ==> blocks[i] == BlockOf(partition.value.bands, ps[i].cx, ps[i].cy)
    {
      loads, blocks := [], [];
      if latest.Some? {
        loads := partition.value.loads;
        var f := latest.value;
        for i := 0 to |f.entities|
          invariant |blocks| == i
          invariant forall k :: 0 <= k < i ==>
            var p := Places(cfg.cells, f)[k]; blocks[k] == BlockOf(partition.value.bands, p.cx, p.cy)
        {
          var b := BlockFor(f.entities[i], partition.value.bands, f, cfg.cells);
          blocks := blocks + [b];
        }
      }
    }
  }
}
