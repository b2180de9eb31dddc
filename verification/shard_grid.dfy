/** The load grid, the partition into blocks and the lookup of an entity's block, from
    examples/agar_mit_clone/gw_shard_monitor.js. */
module ShardGrid {
  import opened ShardRanges

  datatype Entity = Entity(x: real, y: real, kind: string)

  datatype Frame = Frame(width: real, height: real, entities: seq<Entity>)

  /** A frame the positions can be scaled by. */
  predicate Measured(f: Frame) { f.width != 0.0 && f.height != 0.0 }

  function EntityWeight(e: Entity): int {
    if e.kind == "player" then 4 else if e.kind == "virus" then 2 else 1
  }

  function CellIndex(cells: int, v: real, size: real): (c: int)
    requires size != 0.0
    ensures cells >= 1 ==> 0 <= c < cells
  {
    Clamp((v / size * cells as real).Floor, 0, cells - 1)
  }

  // ---------------------------------------------------------------- placed entities

  datatype Placed = Placed(cx: int, cy: int, weight: int)

  function Place(cells: int, f: Frame, e: Entity): Placed
    requires Measured(f)
  {
    Placed(CellIndex(cells, e.x, f.width), CellIndex(cells, e.y, f.height), EntityWeight(e))
  }

  function Places(cells: int, f: Frame): seq<Placed>
    requires Measured(f)
  {
    seq(|f.entities|, i requires 0 <= i < |f.entities| => Place(cells, f, f.entities[i]))
  }

  ghost predicate OnGrid(n: int, ps: seq<Placed>) {
    forall p :: p in ps ==> 0 <= p.cx < n && 0 <= p.cy < n
  }

  lemma {:induction false} PlacesOnGrid(cells: int, f: Frame)
    requires Measured(f) && cells >= 1
    ensures OnGrid(cells, Places(cells, f))
  {}

  /** Columns c0 up to c1, rows r0 up to r1. */
  datatype Rect = Rect(c0: int, c1: int, r0: int, r1: int)

  predicate Inside(p: Placed, r: Rect) { r.c0 <= p.cx < r.c1 && r.r0 <= p.cy < r.r1 }

  /** The reference: the weight of the entities inside a rectangle. */
  function WeightIn(ps: seq<Placed>, r: Rect): int {
    if ps == [] then 0
    else
      var last := ps[|ps| - 1];
      WeightIn(ps[..|ps| - 1], r) + (if Inside(last, r) then last.weight else 0)
  }

  lemma {:induction false} WeightSplitsColumns(ps: seq<Placed>, r: Rect, c: int)
    requires r.c0 <= c <= r.c1
    ensures WeightIn(ps, r) == WeightIn(ps, r.(c1 := c)) + WeightIn(ps, r.(c0 := c))
  {
    if ps != [] {
      WeightSplitsColumns(ps[..|ps| - 1], r, c);
    }
  }

  lemma {:induction false} WeightSplitsRows(ps: seq<Placed>, r: Rect, y: int)
    requires r.r0 <= y <= r.r1
    ensures WeightIn(ps, r) == WeightIn(ps, r.(r1 := y)) + WeightIn(ps, r.(r0 := y))
  {
    if ps != [] {
      WeightSplitsRows(ps[..|ps| - 1], r, y);
    }
  }

  lemma {:induction false} WeightNowhere(ps: seq<Placed>, r: Rect)
    requires r.c0 >= r.c1 || r.r0 >= r.r1
    ensures WeightIn(ps, r) == 0
  {
    if ps != [] {
      WeightNowhere(ps[..|ps| - 1], r);
    }
  }

  // ---------------------------------------------------------------- the grid

  function CellWeight(ps: seq<Placed>, x: int, y: int): int { WeightIn(ps, Rect(x, x + 1, y, y + 1)) }

  type Grid = seq<seq<int>>

  ghost predicate IsLoad(n: int, ps: seq<Placed>, load: Grid) {
    && |load| == n
    && (forall x :: 0 <= x < n ==> |load[x]| == n)
    && (forall x, y :: 0 <= x < n && 0 <= y < n ==> load[x][y] == CellWeight(ps, x, y))
  }

  lemma {:induction false} AddEntity(n: int, ps: seq<Placed>, p: Placed, load: Grid, after: Grid)
    requires IsLoad(n, ps, load) && 0 <= p.cx < n && 0 <= p.cy < n
    requires after == load[p.cx := load[p.cx][p.cy := load[p.cx][p.cy] + p.weight]]
    ensures IsLoad(n, ps + [p], after)
  {
    assert (ps + [p])[..|ps|] == ps;
    forall x, y | 0 <= x < n && 0 <= y < n ensures after[x][y] == CellWeight(ps + [p], x, y) {
      assert CellWeight(ps + [p], x, y) == CellWeight(ps, x, y) + (if p.cx == x && p.cy == y then p.weight else 0);
    }
  }

  method MakeGridLoad(cells: int, f: Frame) returns (load: Grid)
    requires Measured(f) && cells >= 1
    ensures IsLoad(cells, Places(cells, f), load)
  {
    load := seq(cells, x => seq(cells, y => 0));
    ghost var ps := Places(cells, f);
    hide WeightIn;
    assert IsLoad(cells, ps[..0], load) by {
      forall x, y | 0 <= x < cells && 0 <= y < cells ensures load[x][y] == CellWeight(ps[..0], x, y) {
        EmptyWeight(Rect(x, x + 1, y, y + 1));
      }
    }
    for i := 0 to |f.entities|
      invariant IsLoad(cells, ps[..i], load)
    {
      var e := f.entities[i];
      var cx, cy := CellIndex(cells, e.x, f.width), CellIndex(cells, e.y, f.height);
      ghost var before := load;
      load := load[cx := load[cx][cy := load[cx][cy] + EntityWeight(e)]];
      AddEntity(cells, ps[..i], ps[i], before, load);
      assert ps[..i] + [ps[i]] == ps[..i + 1];
    }
    assert ps[..|f.entities|] == ps;
  }

  lemma {:induction false} EmptyWeight(r: Rect)
    ensures WeightIn([], r) == 0
  {}

  // ---------------------------------------------------------------- the partition

  datatype Band = Band(c0: int, c1: int, rows: seq<Range>)

  function ColumnLoad(n: nat, ps: seq<Placed>): seq<int> {
    seq(n, x => WeightIn(ps, Rect(x, x + 1, 0, n)))
  }

  function RowLoad(n: nat, ps: seq<Placed>, c0: int, c1: int): seq<int> {
    seq(n, y => WeightIn(ps, Rect(c0, c1, y, y + 1)))
  }

  function BandOf(n: nat, ny: int, ps: seq<Placed>, column: Range): Band {
    Band(column.lo, column.hi, Balanced(RowLoad(n, ps, column.lo, column.hi), ny))
  }

  function BandsOf(n: nat, ny: int, ps: seq<Placed>, columns: seq<Range>): seq<Band> {
    if columns == [] then [] else [BandOf(n, ny, ps, columns[0])] + BandsOf(n, ny, ps, columns[1..])
  }

  function Partitioned(n: nat, nx: int, ny: int, ps: seq<Placed>): seq<Band> {
    BandsOf(n, ny, ps, Balanced(ColumnLoad(n, ps), nx))
  }

  /** The bands tile the columns and the rows of each tile the rows. */
  ghost predicate TiledBands(bands: seq<Band>, c: int, n: int, ny: int) {
    if bands == [] then c == n
    else
      && bands[0].c0 == c < bands[0].c1
      && |bands[0].rows| == ny && Tiles(bands[0].rows, 0, n)
      && TiledBands(bands[1..], bands[0].c1, n, ny)
  }

  lemma {:induction false} BandsOfTile(n: nat, ny: int, ps: seq<Placed>, columns: seq<Range>, c: int)
    requires Tiles(columns, c, n) && 1 <= ny <= n
    ensures |BandsOf(n, ny, ps, columns)| == |columns|
    ensures TiledBands(BandsOf(n, ny, ps, columns), c, n, ny)
  {
    if columns != [] {
      var rows := RowLoad(n, ps, columns[0].lo, columns[0].hi);
      SanitizedTilesIff(RawFrom(rows, ny, 1, Sweep(0, 0)), ny, n);
      BandsOfTile(n, ny, ps, columns[1..], columns[0].hi);
    }
  }

  /** With a cell for every part, every frame's proposal is nx bands of ny rows that tile the grid. */
  lemma {:induction false} PartitionTiles(n: nat, nx: int, ny: int, ps: seq<Placed>)
    requires 1 <= nx <= n && 1 <= ny <= n
    ensures |Partitioned(n, nx, ny, ps)| == nx && TiledBands(Partitioned(n, nx, ny, ps), 0, n, ny)
  {
    var columns := ColumnLoad(n, ps);
    SanitizedTilesIff(RawFrom(columns, nx, 1, Sweep(0, 0)), nx, n);
    BandsOfTile(n, ny, ps, Balanced(columns, nx), 0);
  }

  lemma {:induction false} PrefixIsWeight(n: nat, ps: seq<Placed>, k: nat)
    requires k <= n
    ensures Prefix(ColumnLoad(n, ps), k) == WeightIn(ps, Rect(0, k, 0, n))
  {
    if k == 0 {
      WeightNowhere(ps, Rect(0, 0, 0, n));
    } else {
      PrefixNext(ColumnLoad(n, ps), k - 1);
      PrefixIsWeight(n, ps, k - 1);
      WeightSplitsColumns(ps, Rect(0, k, 0, n), k - 1);
    }
  }

  lemma {:induction false} BandsOfAt(n: nat, ny: int, ps: seq<Placed>, columns: seq<Range>, i: nat)
    requires i < |columns|
    ensures |BandsOf(n, ny, ps, columns)| == |columns|
    ensures BandsOf(n, ny, ps, columns)[i] == BandOf(n, ny, ps, columns[i])
    decreases i
  {
    BandsOfLength(n, ny, ps, columns);
    if i > 0 {
      BandsOfAt(n, ny, ps, columns[1..], i - 1);
    }
  }

  lemma {:induction false} BandsOfLength(n: nat, ny: int, ps: seq<Placed>, columns: seq<Range>)
    ensures |BandsOf(n, ny, ps, columns)| == |columns|
  {
    if columns != [] {
      BandsOfLength(n, ny, ps, columns[1..]);
    }
  }

  lemma {:induction false} RowPrefixIsWeight(n: nat, ps: seq<Placed>, c0: int, c1: int, k: nat)
    requires k <= n
    ensures Prefix(RowLoad(n, ps, c0, c1), k) == WeightIn(ps, Rect(c0, c1, 0, k))
  {
    if k == 0 {
      WeightNowhere(ps, Rect(c0, c1, 0, 0));
    } else {
      PrefixNext(RowLoad(n, ps, c0, c1), k - 1);
      RowPrefixIsWeight(n, ps, c0, c1, k - 1);
      WeightSplitsRows(ps, Rect(c0, c1, 0, k), k - 1);
    }
  }

  /** The entities in the first p bands of a proposal weigh at most p bands' share plus p times the
      heaviest column, and at least that share plus p - 1 times the lightest unless the cut was capped. */
  lemma {:induction false} ProposalIsFair(n: nat, nx: int, ny: int, ps: seq<Placed>, l: int, m: int, p: int)
    requires 1 <= p < nx <= n && Weights(ColumnLoad(n, ps), l, m)
    ensures
      var bands := Partitioned(n, nx, ny, ps);
      |bands| == nx &&
      var cut := bands[p - 1].c1;
      var share, total := WeightIn(ps, Rect(0, cut, 0, n)), WeightIn(ps, Rect(0, n, 0, n));
      && share * nx <= total * p + p * m * nx
      && (cut == n - (nx - p) || share * nx >= total * p + (p - 1) * l * nx)
  {
    var columns := ColumnLoad(n, ps);
    BalancedCutsAreFair(columns, nx, l, m, p);
    BandsOfAt(n, ny, ps, Balanced(columns, nx), p - 1);
    PrefixIsWeight(n, ps, Balanced(columns, nx)[p - 1].hi);
    PrefixIsWeight(n, ps, n);
    assert columns[..n] == columns;
    hide Balanced, WeightIn, Sum;
  }

  /** The same inside every band: the entities above its p-th row cut weigh between these bounds, in
      terms of the heaviest and the lightest row of the band. */
  lemma {:induction false} RowsAreFair(n: nat, nx: int, ny: int, ps: seq<Placed>, i: nat, l: int, m: int, p: int)
    requires 1 <= nx <= n && i < nx && 1 <= p < ny <= n && i < |Partitioned(n, nx, ny, ps)|
    requires var band := Partitioned(n, nx, ny, ps)[i]; Weights(RowLoad(n, ps, band.c0, band.c1), l, m)
    ensures
      var band := Partitioned(n, nx, ny, ps)[i];
      |band.rows| == ny &&
      var cut := band.rows[p - 1].hi;
      var share, total := WeightIn(ps, Rect(band.c0, band.c1, 0, cut)), WeightIn(ps, Rect(band.c0, band.c1, 0, n));
      && share * ny <= total * p + p * m * ny
      && (cut == n - (ny - p) || share * ny >= total * p + (p - 1) * l * ny)
  {
    var columns := Balanced(ColumnLoad(n, ps), nx);
    BandsOfLength(n, ny, ps, columns);
    BandsOfAt(n, ny, ps, columns, i);
    var c0, c1 := columns[i].lo, columns[i].hi;
    var rows := RowLoad(n, ps, c0, c1);
    BalancedCutsAreFair(rows, ny, l, m, p);
    RowPrefixIsWeight(n, ps, c0, c1, Balanced(rows, ny)[p - 1].hi);
    RowPrefixIsWeight(n, ps, c0, c1, n);
    assert rows[..n] == rows;
    hide Balanced, WeightIn, Sum;
  }

  method MakePartition(n: nat, nx: int, ny: int, load: Grid, ghost ps: seq<Placed>) returns (bands: seq<Band>)
    requires IsLoad(n, ps, load) && 1 <= nx <= n && 1 <= ny <= n
    ensures bands == Partitioned(n, nx, ny, ps)
  {
    hide WeightIn, Balanced, Partitioned, BandsOf, Tiles;
    var colLoad: seq<int> := [];
    for x := 0 to n
      invariant |colLoad| == x
      invariant forall i :: 0 <= i < x ==> colLoad[i] == WeightIn(ps, Rect(i, i + 1, 0, n))
    {
      var sum := ColumnTotal(n, load, x, ps);
      colLoad := colLoad + [sum];
    }
    assert colLoad == ColumnLoad(n, ps);
    var columns := BalancedRanges(colLoad, nx);
    ColumnsInGrid(n, nx, ps);
    bands := [];
    assert columns[0..] == columns;
    EmptyBands(n, ny, ps, columns);
    for i := 0 to |columns|
      invariant bands + BandsOf(n, ny, ps, columns[i..]) == BandsOf(n, ny, ps, columns)
    {
      var rowLoad := SumRows(n, load, columns[i].lo, columns[i].hi, ps);
      var rows := BalancedRanges(rowLoad, ny);
      NextBand(n, ny, ps, columns, i, bands);
      bands := bands + [Band(columns[i].lo, columns[i].hi, rows)];
    }
    LastBand(n, ny, ps, columns, bands);
    PartitionedIs(n, nx, ny, ps);
  }

  lemma {:induction false} PartitionedIs(n: nat, nx: int, ny: int, ps: seq<Placed>)
    ensures Partitioned(n, nx, ny, ps) == BandsOf(n, ny, ps, Balanced(ColumnLoad(n, ps), nx))
  {}

  lemma {:induction false} EmptyBands(n: nat, ny: int, ps: seq<Placed>, columns: seq<Range>)
    ensures [] + BandsOf(n, ny, ps, columns) == BandsOf(n, ny, ps, columns)
  {}

  lemma {:induction false} NextBand(n: nat, ny: int, ps: seq<Placed>, columns: seq<Range>, i: nat, bands: seq<Band>)
    requires i < |columns|
    ensures bands + BandsOf(n, ny, ps, columns[i..])
      == (bands + [BandOf(n, ny, ps, columns[i])]) + BandsOf(n, ny, ps, columns[i + 1..])
  {
    assert columns[i..][1..] == columns[i + 1..];
    hide BandOf;
  }

  lemma {:induction false} LastBand(n: nat, ny: int, ps: seq<Placed>, columns: seq<Range>, bands: seq<Band>)
    ensures bands + BandsOf(n, ny, ps, columns[|columns|..]) == bands
  {}

  /** Every column range of a proposal lies in the grid. */
  lemma {:induction false} ColumnsInGrid(n: nat, nx: int, ps: seq<Placed>)
    requires 1 <= nx <= n
    ensures
      var columns := Balanced(ColumnLoad(n, ps), nx);
      forall i :: 0 <= i < |columns| ==> 0 <= columns[i].lo <= columns[i].hi <= n
  {
    var weights := ColumnLoad(n, ps);
    var columns := Balanced(weights, nx);
    SanitizedTilesIff(RawFrom(weights, nx, 1, Sweep(0, 0)), nx, n);
    forall i | 0 <= i < |columns| ensures 0 <= columns[i].lo <= columns[i].hi <= n {
      TilesWithin(columns, 0, n, i);
    }
  }

  method ColumnTotal(n: nat, load: Grid, x: nat, ghost ps: seq<Placed>) returns (sum: int)
    requires IsLoad(n, ps, load) && x < n
    ensures sum == WeightIn(ps, Rect(x, x + 1, 0, n))
  {
    hide WeightIn;
    sum := 0;
    WeightNowhere(ps, Rect(x, x + 1, 0, 0));
    for y := 0 to n
      invariant sum == WeightIn(ps, Rect(x, x + 1, 0, y))
    {
      assert load[x][y] == CellWeight(ps, x, y);
      WeightSplitsRows(ps, Rect(x, x + 1, 0, y + 1), y);
      sum := sum + load[x][y];
    }
  }

  method SumRows(n: nat, load: Grid, c0: int, c1: int, ghost ps: seq<Placed>) returns (rowLoad: seq<int>)
    requires IsLoad(n, ps, load) && 0 <= c0 <= c1 <= n
    ensures rowLoad == RowLoad(n, ps, c0, c1)
  {
    hide WeightIn;
    rowLoad := seq(n, y => 0);
    forall y | 0 <= y < n ensures RowLoad(n, ps, c0, c0)[y] == 0 {
      WeightNowhere(ps, Rect(c0, c0, y, y + 1));
    }
    for x := c0 to c1
      invariant |rowLoad| == n
      invariant forall y :: 0 <= y < n ==> rowLoad[y] == RowLoad(n, ps, c0, x)[y]
    {
      for y := 0 to n
        invariant |rowLoad| == n
        invariant forall j :: 0 <= j < n ==> rowLoad[j] == RowLoad(n, ps, c0, if j < y then x + 1 else x)[j]
      {
        assert load[x][y] == CellWeight(ps, x, y);
        WeightSplitsColumns(ps, Rect(c0, x + 1, y, y + 1), x);
        rowLoad := rowLoad[y := rowLoad[y] + load[x][y]];
      }
    }
  }

  // ---------------------------------------------------------------- block loads

  function RowWeights(ps: seq<Placed>, band: Band, rows: seq<Range>): seq<int> {
    if rows == [] then []
    else [WeightIn(ps, Rect(band.c0, band.c1, rows[0].lo, rows[0].hi))] + RowWeights(ps, band, rows[1..])
  }

  function BlockWeights(ps: seq<Placed>, bands: seq<Band>): seq<int> {
    if bands == [] then [] else RowWeights(ps, bands[0], bands[0].rows) + BlockWeights(ps, bands[1..])
  }

  ghost predicate InGrid(n: int, bands: seq<Band>) {
    forall i :: 0 <= i < |bands| ==>
      && 0 <= bands[i].c0 <= bands[i].c1 <= n
      && (forall j :: 0 <= j < |bands[i].rows| ==> 0 <= bands[i].rows[j].lo <= bands[i].rows[j].hi <= n)
  }

  lemma {:induction false} TiledInGrid(bands: seq<Band>, c: int, n: int, ny: int)
    requires TiledBands(bands, c, n, ny) && 0 <= c
    ensures c <= n && InGrid(n, bands)
  {
    if bands != [] {
      TiledInGrid(bands[1..], bands[0].c1, n, ny);
      forall j | 0 <= j < |bands[0].rows|
        ensures 0 <= bands[0].rows[j].lo <= bands[0].rows[j].hi <= n
      {
        TilesWithin(bands[0].rows, 0, n, j);
      }
      assert forall i :: 1 <= i < |bands| ==> bands[i] == bands[1..][i - 1];
    }
  }

  method BlockSum(n: nat, load: Grid, r: Rect, ghost ps: seq<Placed>) returns (sum: int)
    requires IsLoad(n, ps, load) && 0 <= r.c0 <= r.c1 <= n && 0 <= r.r0 <= r.r1 <= n
    ensures sum == WeightIn(ps, r)
  {
    hide WeightIn;
    sum := 0;
    WeightNowhere(ps, r.(c1 := r.c0));
    for x := r.c0 to r.c1
      invariant sum == WeightIn(ps, r.(c1 := x))
    {
      WeightNowhere(ps, Rect(x, x + 1, r.r0, r.r0));
      ghost var before := sum;
      for y := r.r0 to r.r1
        invariant sum == before + WeightIn(ps, Rect(x, x + 1, r.r0, y))
      {
        assert load[x][y] == CellWeight(ps, x, y);
        WeightSplitsRows(ps, Rect(x, x + 1, r.r0, y + 1), y);
        sum := sum + load[x][y];
      }
      WeightSplitsColumns(ps, r.(c1 := x + 1), x);
    }
    assert r.(c1 := r.c1) == r;
  }

  method BlockLoads(n: nat, load: Grid, bands: seq<Band>, ghost ps: seq<Placed>) returns (loads: seq<int>)
    requires IsLoad(n, ps, load) && InGrid(n, bands)
    ensures loads == BlockWeights(ps, bands)
  {
    hide WeightIn, IsLoad;
    loads := [];
    assert bands[0..] == bands;
    for i := 0 to |bands|
      invariant loads + BlockWeights(ps, bands[i..]) == BlockWeights(ps, bands)
    {
      var band := bands[i];
      assert bands[i..][1..] == bands[i + 1..];
      ghost var before := loads;
      assert band.rows[0..] == band.rows;
      for j := 0 to |band.rows|
        invariant loads + RowWeights(ps, band, band.rows[j..]) == before + RowWeights(ps, band, band.rows)
      {
        var row := band.rows[j];
        assert band.rows[j..][1..] == band.rows[j + 1..];
        var sum := BlockSum(n, load, Rect(band.c0, band.c1, row.lo, row.hi), ps);
        loads := loads + [sum];
      }
      assert band.rows[|band.rows|..] == [];
      assert loads == before + RowWeights(ps, band, band.rows);
      AppendBlocks(before, RowWeights(ps, band, band.rows), BlockWeights(ps, bands[i + 1..]));
    }
    assert bands[|bands|..] == [];
  }

  lemma {:induction false} AppendBlocks(a: seq<int>, b: seq<int>, c: seq<int>)
    ensures a + b + c == a + (b + c)
  {}
}
