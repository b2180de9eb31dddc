/** The partition-map contract: the constructors of crates/godworks-core/src/lib.rs and the parser and
    printer of crates/godworks-protocol/src/lib.rs. */
module PartitionMap {
  import opened Wrappers
  import opened Json
  import opened Protocol
  import opened WireNames

  /** A 64-bit float as far as the contract looks at it. */
  datatype F64 = Finite(r: real) | Infinite(negative: bool) | NaN

  datatype SpecError =
    NonFiniteBoundary | UnsortedBoundary | NonFiniteGridCell | NonFiniteGridOrigin | NonPositiveGridCell

  datatype RegionSplit = RegionSplit(region: string, boundaries: seq<F64>)

  datatype Spec =
    | Strip1D(boundaries: seq<F64>, splits: seq<RegionSplit>)
    | Grid2D(cols: u64, rows: u64, cellW: F64, cellH: F64, originX: F64, originY: F64)
    | Grid3D(cols: u64, rows: u64, layers: u64, cellW: F64, cellH: F64, cellD: F64,
             originX: F64, originY: F64, originZ: F64)

  datatype Versioned = Versioned(version: u64, spec: Spec)

  // ---------------------------------------------------------------- boundaries

  ghost predicate AllFinite(s: seq<F64>) { forall i :: 0 <= i < |s| ==> s[i].Finite? }

  ghost predicate Ascending(s: seq<F64>) {
    AllFinite(s) && forall i :: 0 < i < |s| ==> s[i - 1].r < s[i].r
  }

  /** The check from the given previous value on, stopping at the first offence. */
  function ValidateFrom(prev: Option<real>, s: seq<F64>): Result<(), SpecError>
    decreases |s|
  {
    if s == [] then Ok(())
    else if !s[0].Finite? then Err(NonFiniteBoundary)
    else if prev.Some? && s[0].r <= prev.value then Err(UnsortedBoundary)
    else ValidateFrom(Some(s[0].r), s[1..])
  }

  function Validate(s: seq<F64>): Result<(), SpecError> { ValidateFrom(None, s) }

  method ValidateSortedFinite(values: seq<F64>) returns (r: Result<(), SpecError>)
    ensures r == Validate(values)
  {
    var prev: Option<real> := None;
    assert values[0..] == values;
    for i := 0 to |values|
      invariant ValidateFrom(prev, values[i..]) == Validate(values)
    {
      assert values[i..][1..] == values[i + 1..];
      var value := values[i];
      if !value.Finite? {
        return Err(NonFiniteBoundary);
      }
      if prev.Some? && value.r <= prev.value {
        return Err(UnsortedBoundary);
      }
      prev := Some(value.r);
    }
    return Ok(());
  }

  lemma {:induction false} ValidateFromIff(prev: Option<real>, s: seq<F64>)
    ensures ValidateFrom(prev, s).Ok? <==> Ascending(s) && (prev.Some? && s != [] ==> prev.value < s[0].r)
    decreases |s|
  {
    if s != [] && s[0].Finite? {
      ValidateFromIff(Some(s[0].r), s[1..]);
      if Ascending(s) && |s| > 1 {
        assert s[0].r < s[1].r;
        assert forall i :: 0 < i < |s[1..]| ==> s[1..][i - 1] == s[i] && s[1..][i] == s[i + 1];
      }
      if Ascending(s[1..]) && (|s| > 1 ==> s[0].r < s[1].r) {
        forall i | 0 < i < |s| ensures s[i - 1].r < s[i].r {
          assert s[i] == s[1..][i - 1];
          if i > 1 {
            assert s[i - 1] == s[1..][i - 2];
          }
        }
      }
    }
  }

  /** Boundaries pass exactly when all are finite and each exceeds the one before. */
  lemma {:induction false} ValidateIff(s: seq<F64>)
    ensures Validate(s).Ok? <==> Ascending(s)
  {
    ValidateFromIff(None, s);
  }

  // ---------------------------------------------------------------- sorting the splits

  /** Names compare character by character, a proper prefix first. */
  predicate Leq(a: string, b: string) {
    a == "" || (b != "" && (a[0] < b[0] || (a[0] == b[0] && Leq(a[1..], b[1..]))))
  }

  lemma {:induction false} LeqTotal(a: string, b: string)
    ensures Leq(a, b) || Leq(b, a)
  {
    if a != "" && b != "" && a[0] == b[0] {
      LeqTotal(a[1..], b[1..]);
    }
  }

  lemma {:induction false} LeqTransitive(a: string, b: string, c: string)
    requires Leq(a, b) && Leq(b, c)
    ensures Leq(a, c)
  {
    if a != "" && a[0] == b[0] && b[0] == c[0] {
      LeqTransitive(a[1..], b[1..], c[1..]);
    }
  }

  ghost predicate Sorted(s: seq<RegionSplit>) {
    forall i, j :: 0 <= i < j < |s| ==> Leq(s[i].region, s[j].region)
  }

  /** A stable sort by region: a split goes in front of the first one it does not exceed. */
  function InsertSplit(x: RegionSplit, s: seq<RegionSplit>): seq<RegionSplit> {
    if s == [] || Leq(x.region, s[0].region) then [x] + s
    else [s[0]] + InsertSplit(x, s[1..])
  }

  function SortSplits(s: seq<RegionSplit>): seq<RegionSplit> {
    if s == [] then [] else InsertSplit(s[0], SortSplits(s[1..]))
  }

  lemma {:induction false} InsertSplitSorted(x: RegionSplit, s: seq<RegionSplit>)
    requires Sorted(s)
    ensures Sorted(InsertSplit(x, s))
    ensures multiset(InsertSplit(x, s)) == multiset(s) + multiset{x}
  {
    if s == [] {
    } else if Leq(x.region, s[0].region) {
      forall j | 0 <= j < |s| ensures Leq(x.region, s[j].region) {
        if j > 0 {
          LeqTransitive(x.region, s[0].region, s[j].region);
        }
      }
    } else {
      LeqTotal(x.region, s[0].region);
      InsertSplitSorted(x, s[1..]);
      var rest := InsertSplit(x, s[1..]);
      assert s == [s[0]] + s[1..];
      assert multiset(rest) == multiset(s[1..]) + multiset{x};
      forall j | 0 <= j < |rest| ensures Leq(s[0].region, rest[j].region) {
        assert rest[j] in multiset(rest);
        assert rest[j] == x || rest[j] in s[1..];
        if rest[j] != x {
          var k :| 0 <= k < |s[1..]| && s[1..][k] == rest[j];
          assert s[k + 1] == rest[j];
        }
      }
    }
  }

  /** The sort orders the splits by region and keeps each of them as often as it was there. */
  lemma {:induction false} SortSplitsSorted(s: seq<RegionSplit>)
    ensures Sorted(SortSplits(s)) && multiset(SortSplits(s)) == multiset(s)
  {
    if s != [] {
      SortSplitsSorted(s[1..]);
      InsertSplitSorted(s[0], SortSplits(s[1..]));
      assert s == [s[0]] + s[1..];
    }
  }

  function ForRegion(s: seq<RegionSplit>, region: string): seq<RegionSplit> {
    if s == [] then []
    else if s[0].region == region then [s[0]] + ForRegion(s[1..], region)
    else ForRegion(s[1..], region)
  }

  lemma {:induction false} LeqReflexive(a: string)
    ensures Leq(a, a)
  {
    if a != "" {
      LeqReflexive(a[1..]);
    }
  }

  lemma {:induction false} InsertSplitStable(x: RegionSplit, s: seq<RegionSplit>, region: string)
    ensures ForRegion(InsertSplit(x, s), region)
      == (if x.region == region then [x] else []) + ForRegion(s, region)
  {
    var r := InsertSplit(x, s);
    if s == [] || Leq(x.region, s[0].region) {
      assert r[1..] == s;
    } else {
      InsertSplitStable(x, s[1..], region);
      LeqReflexive(x.region);
      assert r[1..] == InsertSplit(x, s[1..]);
    }
  }

  /** Splits of one region keep their order. */
  lemma {:induction false} SortSplitsStable(s: seq<RegionSplit>, region: string)
    ensures ForRegion(SortSplits(s), region) == ForRegion(s, region)
  {
    if s != [] {
      SortSplitsStable(s[1..], region);
      InsertSplitStable(s[0], SortSplits(s[1..]), region);
    }
  }

  lemma {:induction false} SortOfSorted(s: seq<RegionSplit>)
    requires Sorted(s)
    ensures SortSplits(s) == s
  {
    if s != [] {
      SortOfSorted(s[1..]);
      if |s| > 1 {
        assert Leq(s[0].region, s[1].region);
      }
    }
  }

  // ---------------------------------------------------------------- constructors

  function NewSplit(region: string, boundaries: seq<F64>): Result<RegionSplit, SpecError> {
    var v := Validate(boundaries);
    if v.Err? then Err(v.error) else Ok(RegionSplit(region, boundaries))
  }

  function NewStrip1D(boundaries: seq<F64>, splits: seq<RegionSplit>): Result<Spec, SpecError> {
    var v := Validate(boundaries);
    if v.Err? then Err(v.error) else Ok(Strip1D(boundaries, SortSplits(splits)))
  }

  predicate Positive(x: F64) { x.Finite? && x.r > 0.0 }

  function NewGrid2D(cols: u64, rows: u64, cellW: F64, cellH: F64, x: F64, y: F64): Result<Spec, SpecError> {
    if cols == 0 || rows == 0 then Err(NonPositiveGridCell)
    else if !cellW.Finite? || !cellH.Finite? then Err(NonFiniteGridCell)
    else if cellW.r <= 0.0 || cellH.r <= 0.0 then Err(NonPositiveGridCell)
    else if !x.Finite? || !y.Finite? then Err(NonFiniteGridOrigin)
    else Ok(Grid2D(cols, rows, cellW, cellH, x, y))
  }

  function NewGrid3D(cols: u64, rows: u64, layers: u64, cellW: F64, cellH: F64, cellD: F64, x: F64, y: F64, z: F64)
    : Result<Spec, SpecError>
  {
    if cols == 0 || rows == 0 || layers == 0 then Err(NonPositiveGridCell)
    else if !cellW.Finite? || !cellH.Finite? || !cellD.Finite? then Err(NonFiniteGridCell)
    else if cellW.r <= 0.0 || cellH.r <= 0.0 || cellD.r <= 0.0 then Err(NonPositiveGridCell)
    else if !x.Finite? || !y.Finite? || !z.Finite? then Err(NonFiniteGridOrigin)
    else Ok(Grid3D(cols, rows, layers, cellW, cellH, cellD, x, y, z))
  }

  // ---------------------------------------------------------------- parsing

  function AllF64(items: seq<Value>): Option<seq<F64>> {
    if items == [] then Some([])
    else
      var first, rest := AsF64(Some(items[0])), AllF64(items[1..]);
      if first.Some? && rest.Some? then Some([Finite(first.value)] + rest.value) else None
  }

  function F64Array(v: Option<Value>): Option<seq<F64>> {
    var items := AsArray(v);
    if items.Some? then AllF64(items.value) else None
  }

  /** An array of exactly n numbers. */
  function F64Tuple(v: Option<Value>, n: nat): (r: Option<seq<F64>>)
    ensures r.Some? ==> |r.value| == n
  {
    var xs := F64Array(v);
    if xs.Some? && |xs.value| == n then xs else None
  }

  function ParseSplit(v: Value): Option<RegionSplit> {
    var region, boundaries := AsStr(Look(v, KRegion)), F64Array(Look(v, KBoundaries));
    if region.Some? && boundaries.Some? && NewSplit(region.value, boundaries.value).Ok? then
      Some(NewSplit(region.value, boundaries.value).value)
    else None
  }

  function ParseSplits(items: seq<Value>): Option<seq<RegionSplit>> {
    if items == [] then Some([])
    else
      var first, rest := ParseSplit(items[0]), ParseSplits(items[1..]);
      if first.Some? && rest.Some? then Some([first.value] + rest.value) else None
  }

  /** A missing list of splits is an empty one; anything but an array is refused. */
  function ParseRegionSplits(v: Option<Value>): Option<seq<RegionSplit>> {
    match v
    case None => Some([])
    case Some(Arr(items)) => ParseSplits(items)
    case Some(_) => None
  }

  function Accept(r: Result<Spec, SpecError>): Option<Spec> { if r.Ok? then Some(r.value) else None }

  function CellOf(v: Value, key: Key): Option<F64> {
    var x := AsF64(Look(v, key));
    if x.Some? then Some(Finite(x.value)) else None
  }

  function ParseGrid2D(v: Value): Option<Spec> {
    var cols, rows := AsU64(Look(v, KCols)), AsU64(Look(v, KRows));
    var w, h, origin := CellOf(v, KCellW), CellOf(v, KCellH), F64Tuple(Look(v, KOrigin), 2);
    if cols.Some? && rows.Some? && w.Some? && h.Some? && origin.Some? then
      Accept(NewGrid2D(cols.value, rows.value, w.value, h.value, origin.value[0], origin.value[1]))
    else None
  }

  function ParseGrid3D(v: Value): Option<Spec> {
    var cols, rows, layers := AsU64(Look(v, KCols)), AsU64(Look(v, KRows)), AsU64(Look(v, KLayers));
    var w, h, d, origin := CellOf(v, KCellW), CellOf(v, KCellH), CellOf(v, KCellD), F64Tuple(Look(v, KOrigin), 3);
    if cols.Some? && rows.Some? && layers.Some? && w.Some? && h.Some? && d.Some? && origin.Some? then
      Accept(NewGrid3D(cols.value, rows.value, layers.value, w.value, h.value, d.value,
                       origin.value[0], origin.value[1], origin.value[2]))
    else None
  }

  function ParseStrip1D(v: Value): Option<Spec> {
    var boundaries, splits := F64Array(Look(v, KBoundaries)), ParseRegionSplits(Look(v, KSplits));
    if boundaries.Some? && splits.Some? then Accept(NewStrip1D(boundaries.value, splits.value)) else None
  }

  function ParseSpec(v: Value): Option<Spec> {
    match AsStr(Look(v, KKind))
    case None => None
    case Some(kind) =>
      if kind == "grid2d" then ParseGrid2D(v)
      else if kind == "grid3d" then ParseGrid3D(v)
      else if kind == "strip1d" then ParseStrip1D(v)
      else None
  }

  function Parse(v: Value): Option<Versioned> {
    var version, spec := AsU64(Look(v, KVersion)), ParseSpec(v);
    if version.Some? && spec.Some? then Some(Versioned(version.value, spec.value)) else None
  }

  // ---------------------------------------------------------------- printing

  /** A float that is not finite prints as null. */
  function F64Value(x: F64): Value { if x.Finite? then Num(Float(x.r)) else Null }

  function F64Values(s: seq<F64>): seq<Value> { seq(|s|, i requires 0 <= i < |s| => F64Value(s[i])) }

  function PrintSplit(s: RegionSplit): Value {
    Obj(Put(KRegion, S(s.region), Put(KBoundaries, Some(Arr(F64Values(s.boundaries))), [])))
  }

  function PrintSplits(s: seq<RegionSplit>): seq<Value> { seq(|s|, i requires 0 <= i < |s| => PrintSplit(s[i])) }

  function PrintStrip1D(boundaries: seq<F64>, splits: seq<RegionSplit>): seq<Field> {
    Put(KBoundaries, Some(Arr(F64Values(boundaries))), Put(KSplits, Some(Arr(PrintSplits(splits))), []))
  }

  function PrintGrid2D(cols: u64, rows: u64, cellW: F64, cellH: F64, x: F64, y: F64): seq<Field> {
    Put(KCols, U(cols), Put(KRows, U(rows), Put(KCellW, Some(F64Value(cellW)), Put(KCellH, Some(F64Value(cellH)),
      Put(KOrigin, Some(Arr(F64Values([x, y]))), [])))))
  }

  function PrintGrid3D(cols: u64, rows: u64, layers: u64, cellW: F64, cellH: F64, cellD: F64, x: F64, y: F64, z: F64)
    : seq<Field>
  {
    Put(KCols, U(cols), Put(KRows, U(rows), Put(KLayers, U(layers), Put(KCellW, Some(F64Value(cellW)),
      Put(KCellH, Some(F64Value(cellH)), Put(KCellD, Some(F64Value(cellD)),
        Put(KOrigin, Some(Arr(F64Values([x, y, z]))), [])))))))
  }

  function KindText(s: Spec): string {
    match s
    case Strip1D(_, _) => "strip1d"
    case Grid2D(_, _, _, _, _, _) => "grid2d"
    case Grid3D(_, _, _, _, _, _, _, _, _) => "grid3d"
  }

  function PrintShape(s: Spec): seq<Field> {
    match s
    case Strip1D(boundaries, splits) => PrintStrip1D(boundaries, splits)
    case Grid2D(cols, rows, w, h, x, y) => PrintGrid2D(cols, rows, w, h, x, y)
    case Grid3D(cols, rows, layers, w, h, d, x, y, z) => PrintGrid3D(cols, rows, layers, w, h, d, x, y, z)
  }

  function Print(m: Versioned): Value {
    Obj(Put(KVersion, U(m.version), Put(KKind, S(KindText(m.spec)), PrintShape(m.spec))))
  }

  // ---------------------------------------------------------------- what a valid map is

  ghost predicate ValidSplits(splits: seq<RegionSplit>) {
    forall i :: 0 <= i < |splits| ==> Ascending(splits[i].boundaries)
  }

  ghost predicate Valid(s: Spec) {
    match s
    case Strip1D(boundaries, splits) => Ascending(boundaries) && ValidSplits(splits) && Sorted(splits)
    case Grid2D(cols, rows, w, h, x, y) =>
      cols > 0 && rows > 0 && Positive(w) && Positive(h) && x.Finite? && y.Finite?
    case Grid3D(cols, rows, layers, w, h, d, x, y, z) =>
      cols > 0 && rows > 0 && layers > 0 && Positive(w) && Positive(h) && Positive(d) && x.Finite? && y.Finite?
        && z.Finite?
  }

  lemma {:induction false} MembersKept(s: seq<RegionSplit>, i: nat)
    requires i < |SortSplits(s)|
    ensures SortSplits(s)[i] in s
  {
    SortSplitsSorted(s);
    assert SortSplits(s)[i] in multiset(SortSplits(s));
  }

  lemma {:induction false} MembersThere(s: seq<RegionSplit>, i: nat)
    requires i < |s|
    ensures s[i] in SortSplits(s)
  {
    SortSplitsSorted(s);
    assert s[i] in multiset(s);
  }

  lemma {:induction false} SortKeepsValid(s: seq<RegionSplit>)
    ensures ValidSplits(SortSplits(s)) <==> ValidSplits(s)
  {
    if ValidSplits(s) {
      forall i | 0 <= i < |SortSplits(s)| ensures Ascending(SortSplits(s)[i].boundaries) {
        MembersKept(s, i);
      }
    }
    if ValidSplits(SortSplits(s)) {
      forall i | 0 <= i < |s| ensures Ascending(s[i].boundaries) {
        MembersThere(s, i);
      }
    }
  }

  /** What each constructor accepts is valid, except that the strip takes splits on trust. */
  lemma {:induction false} ConstructedIsValid(boundaries: seq<F64>, splits: seq<RegionSplit>)
    ensures NewStrip1D(boundaries, splits).Ok? <==> Ascending(boundaries)
    ensures NewStrip1D(boundaries, splits).Ok? ==>
      (Valid(NewStrip1D(boundaries, splits).value) <==> ValidSplits(splits))
  {
    ValidateIff(boundaries);
    SortSplitsSorted(splits);
    SortKeepsValid(splits);
  }

  // ---------------------------------------------------------------- what parses is valid

  lemma {:induction false} ParsedSplitsValid(items: seq<Value>)
    requires ParseSplits(items).Some?
    ensures ValidSplits(ParseSplits(items).value)
  {
    if items != [] {
      ParsedSplitsValid(items[1..]);
      ValidateIff(ParseSplit(items[0]).value.boundaries);
    }
  }

  lemma {:induction false} ParsedStripValid(v: Value)
    requires ParseStrip1D(v).Some?
    ensures ParseStrip1D(v).value.Strip1D? && Valid(ParseStrip1D(v).value)
  {
    var boundaries, splits := F64Array(Look(v, KBoundaries)).value, ParseRegionSplits(Look(v, KSplits)).value;
    if Look(v, KSplits).Some? {
      ParsedSplitsValid(Look(v, KSplits).value.items);
    }
    ConstructedIsValid(boundaries, splits);
  }

  /** Every map that parses is valid. */
  lemma {:induction false} ParsedIsValid(v: Value)
    requires Parse(v).Some?
    ensures Valid(Parse(v).value.spec)
  {
    hide Look, ParseStrip1D, Sorted, ValidSplits, Ascending, F64Tuple, CellOf, ParseGrid2D, ParseGrid3D, Valid,
      Positive;
    if ParseStrip1D(v).Some? {
      ParsedStripValid(v);
    }
    ParsedGridsValid(v);
  }

  lemma {:induction false} ParsedGridsValid(v: Value)
    ensures ParseGrid2D(v).Some? ==> Valid(ParseGrid2D(v).value)
    ensures ParseGrid3D(v).Some? ==> Valid(ParseGrid3D(v).value)
  {
    hide Look, F64Tuple, CellOf, Sorted, ValidSplits, Ascending;
  }

  // ---------------------------------------------------------------- the round trip

  lemma {:induction false} ValuesBack(s: seq<F64>)
    requires AllFinite(s)
    ensures AllF64(F64Values(s)) == Some(s)
  {
    if s != [] {
      assert F64Values(s)[1..] == F64Values(s[1..]);
      ValuesBack(s[1..]);
      assert s == [s[0]] + s[1..];
    }
  }

  lemma {:induction false} SplitBack(s: RegionSplit)
    requires Ascending(s.boundaries)
    ensures ParseSplit(PrintSplit(s)) == Some(s)
  {
    hide Look, Put, Validate, AllF64, F64Values;
    ValidateIff(s.boundaries);
    ValuesBack(s.boundaries);
    var w := PrintSplit(s);
    assert Look(w, KRegion) == S(s.region) && Look(w, KBoundaries) == Some(Arr(F64Values(s.boundaries)));
  }

  lemma {:induction false} SplitsBack(s: seq<RegionSplit>)
    requires ValidSplits(s)
    ensures ParseSplits(PrintSplits(s)) == Some(s)
  {
    hide ParseSplit, PrintSplit, Ascending;
    if s != [] {
      assert PrintSplits(s)[1..] == PrintSplits(s[1..]);
      SplitsBack(s[1..]);
      SplitBack(s[0]);
      assert s == [s[0]] + s[1..];
    }
  }

  lemma {:induction false} StripBack(v: Value, boundaries: seq<F64>, splits: seq<RegionSplit>)
    requires Valid(Strip1D(boundaries, splits))
    requires Look(v, KBoundaries) == Some(Arr(F64Values(boundaries)))
    requires Look(v, KSplits) == Some(Arr(PrintSplits(splits)))
    ensures ParseStrip1D(v) == Some(Strip1D(boundaries, splits))
  {
    hide Look, F64Values, PrintSplits, SortSplits, Validate, Sorted, ValidSplits, AllF64, ParseSplits;
    ValuesBack(boundaries);
    SplitsBack(splits);
    ValidateIff(boundaries);
    SortOfSorted(splits);
  }

  lemma {:induction false} Grid2Back(v: Value, s: Spec)
    requires s.Grid2D? && Valid(s)
    requires Look(v, KCols) == U(s.cols) && Look(v, KRows) == U(s.rows)
    requires Look(v, KCellW) == Some(F64Value(s.cellW)) && Look(v, KCellH) == Some(F64Value(s.cellH))
    requires Look(v, KOrigin) == Some(Arr(F64Values([s.originX, s.originY])))
    ensures ParseGrid2D(v) == Some(s)
  {
    hide Look, F64Values, AllF64;
    ValuesBack([s.originX, s.originY]);
  }

  lemma {:induction false} Grid3Back(v: Value, s: Spec)
    requires s.Grid3D? && Valid(s)
    requires Look(v, KCols) == U(s.cols) && Look(v, KRows) == U(s.rows) && Look(v, KLayers) == U(s.layers)
    requires Look(v, KCellW) == Some(F64Value(s.cellW)) && Look(v, KCellH) == Some(F64Value(s.cellH))
    requires Look(v, KCellD) == Some(F64Value(s.cellD))
    requires Look(v, KOrigin) == Some(Arr(F64Values([s.originX, s.originY, s.originZ])))
    ensures ParseGrid3D(v) == Some(s)
  {
    hide Look, F64Values, AllF64;
    ValuesBack([s.originX, s.originY, s.originZ]);
  }

  lemma {:induction false} PrintedHead(m: Versioned, k: Key)
    ensures Look(Print(m), k) ==
      if k == KVersion then U(m.version)
      else if k == KKind then S(KindText(m.spec))
      else Look(Obj(PrintShape(m.spec)), k)
  {
    hide Look, Put, PrintShape, KindText;
  }

  lemma {:induction false} PrintedStrip(m: Versioned)
    requires m.spec.Strip1D?
    ensures Look(Print(m), KBoundaries) == Some(Arr(F64Values(m.spec.boundaries)))
    ensures Look(Print(m), KSplits) == Some(Arr(PrintSplits(m.spec.splits)))
  {
    PrintedHead(m, KBoundaries);
    PrintedHead(m, KSplits);
    hide Look, Put, F64Values, PrintSplits, KindText, Print;
  }

  lemma {:induction false} PrintedGrid2(m: Versioned)
    requires m.spec.Grid2D?
    ensures var v, s := Print(m), m.spec;
      && Look(v, KCols) == U(s.cols) && Look(v, KRows) == U(s.rows)
      && Look(v, KCellW) == Some(F64Value(s.cellW)) && Look(v, KCellH) == Some(F64Value(s.cellH))
      && Look(v, KOrigin) == Some(Arr(F64Values([s.originX, s.originY])))
  {
    PrintedHead(m, KCols);
    PrintedHead(m, KRows);
    PrintedHead(m, KCellW);
    PrintedHead(m, KCellH);
    PrintedHead(m, KOrigin);
    hide Look, Put, F64Values, F64Value, KindText, Print;
  }

  /** Fields put in front are found under their keys; any other key is looked up behind them. */
  lemma {:induction false} CountFields(a: Value, b: Value, c: Value, rest: seq<Field>, k: Key)
    ensures Look(Obj(Put(KCols, Some(a), Put(KRows, Some(b), Put(KLayers, Some(c), rest)))), k) ==
      if k == KCols then Some(a) else if k == KRows then Some(b) else if k == KLayers then Some(c)
      else Look(Obj(rest), k)
  {
    hide Look, Put;
  }

  lemma {:induction false} CellFields(d: Value, e: Value, f: Value, g: Value, rest: seq<Field>, k: Key)
    ensures
      Look(Obj(Put(KCellW, Some(d), Put(KCellH, Some(e), Put(KCellD, Some(f), Put(KOrigin, Some(g), rest))))), k) ==
      if k == KCellW then Some(d) else if k == KCellH then Some(e) else if k == KCellD then Some(f)
      else if k == KOrigin then Some(g) else Look(Obj(rest), k)
  {
    hide Look, Put;
  }

  lemma {:induction false} SevenFields(a: Value, b: Value, c: Value, d: Value, e: Value, f: Value, g: Value, k: Key)
    ensures
      var v := Obj(Put(KCols, Some(a), Put(KRows, Some(b), Put(KLayers, Some(c), Put(KCellW, Some(d),
        Put(KCellH, Some(e), Put(KCellD, Some(f), Put(KOrigin, Some(g), []))))))));
      && (k == KCols ==> Look(v, k) == Some(a)) && (k == KRows ==> Look(v, k) == Some(b))
      && (k == KLayers ==> Look(v, k) == Some(c)) && (k == KCellW ==> Look(v, k) == Some(d))
      && (k == KCellH ==> Look(v, k) == Some(e)) && (k == KCellD ==> Look(v, k) == Some(f))
      && (k == KOrigin ==> Look(v, k) == Some(g))
  {
    hide *;
    var cells := Put(KCellW, Some(d), Put(KCellH, Some(e), Put(KCellD, Some(f), Put(KOrigin, Some(g), []))));
    CountFields(a, b, c, cells, k);
    CellFields(d, e, f, g, [], k);
  }

  lemma {:induction false} Grid3Fields(s: Spec)
    requires s.Grid3D?
    ensures var v := Obj(PrintShape(s));
      && Look(v, KCols) == U(s.cols) && Look(v, KRows) == U(s.rows) && Look(v, KLayers) == U(s.layers)
      && Look(v, KCellW) == Some(F64Value(s.cellW)) && Look(v, KCellH) == Some(F64Value(s.cellH))
      && Look(v, KCellD) == Some(F64Value(s.cellD))
      && Look(v, KOrigin) == Some(Arr(F64Values([s.originX, s.originY, s.originZ])))
  {
    hide Look, Put, F64Values, F64Value;
    var a, b, c := U(s.cols).value, U(s.rows).value, U(s.layers).value;
    var origin := Arr(F64Values([s.originX, s.originY, s.originZ]));
    var d, e, f := F64Value(s.cellW), F64Value(s.cellH), F64Value(s.cellD);
    SevenFields(a, b, c, d, e, f, origin, KCols);
    SevenFields(a, b, c, d, e, f, origin, KRows);
    SevenFields(a, b, c, d, e, f, origin, KLayers);
    SevenFields(a, b, c, d, e, f, origin, KCellW);
    SevenFields(a, b, c, d, e, f, origin, KCellH);
    SevenFields(a, b, c, d, e, f, origin, KCellD);
    SevenFields(a, b, c, d, e, f, origin, KOrigin);
  }

  lemma {:induction false} PrintedGrid3(m: Versioned)
    requires m.spec.Grid3D?
    ensures var v, s := Print(m), m.spec;
      && Look(v, KCols) == U(s.cols) && Look(v, KRows) == U(s.rows) && Look(v, KLayers) == U(s.layers)
      && Look(v, KCellW) == Some(F64Value(s.cellW)) && Look(v, KCellH) == Some(F64Value(s.cellH))
      && Look(v, KCellD) == Some(F64Value(s.cellD))
      && Look(v, KOrigin) == Some(Arr(F64Values([s.originX, s.originY, s.originZ])))
  {
    hide *;
    PrintedHead(m, KCols);
    PrintedHead(m, KRows);
    PrintedHead(m, KLayers);
    PrintedHead(m, KCellW);
    PrintedHead(m, KCellH);
    PrintedHead(m, KCellD);
    PrintedHead(m, KOrigin);
    Grid3Fields(m.spec);
  }

  lemma {:induction false} ShapeBack(m: Versioned)
    requires Valid(m.spec)
    ensures
      match m.spec
      case Strip1D(_, _) => ParseStrip1D(Print(m)) == Some(m.spec)
      case Grid2D(_, _, _, _, _, _) => ParseGrid2D(Print(m)) == Some(m.spec)
      case Grid3D(_, _, _, _, _, _, _, _, _) => ParseGrid3D(Print(m)) == Some(m.spec)
  {
    hide Print, Look, ParseStrip1D, ParseGrid2D, ParseGrid3D, F64Values, PrintSplits, F64Value;
    match m.spec
    case Strip1D(boundaries, splits) =>
      PrintedStrip(m);
      StripBack(Print(m), boundaries, splits);
    case Grid2D(_, _, _, _, _, _) =>
      PrintedGrid2(m);
      Grid2Back(Print(m), m.spec);
    case Grid3D(_, _, _, _, _, _, _, _, _) =>
      PrintedGrid3(m);
      Grid3Back(Print(m), m.spec);
  }

  lemma {:induction false} KindsDiffer()
    ensures "grid2d" != "grid3d" && "grid2d" != "strip1d" && "grid3d" != "strip1d"
  {
    assert "grid2d"[4] != "grid3d"[4];
  }

  lemma {:induction false} SpecBack(v: Value, s: Spec)
    requires Look(v, KKind) == S(KindText(s))
    requires
      match s
      case Strip1D(_, _) => ParseStrip1D(v) == Some(s)
      case Grid2D(_, _, _, _, _, _) => ParseGrid2D(v) == Some(s)
      case Grid3D(_, _, _, _, _, _, _, _, _) => ParseGrid3D(v) == Some(s)
    ensures ParseSpec(v) == Some(s)
  {
    KindsDiffer();
    hide Look, ParseStrip1D, ParseGrid2D, ParseGrid3D;
  }

  lemma {:induction false} ValidComesBack(m: Versioned)
    requires Valid(m.spec)
    ensures Parse(Print(m)) == Some(m)
  {
    hide Print, Look, ParseSpec, Valid, KindText, ParseStrip1D, ParseGrid2D, ParseGrid3D;
    ShapeBack(m);
    PrintedHead(m, KVersion);
    PrintedHead(m, KKind);
    SpecBack(Print(m), m.spec);
  }

  /** A versioned map comes back from its printed form if and only if it is valid. */
  lemma {:induction false} RoundTripIff(m: Versioned)
    ensures Parse(Print(m)) == Some(m) <==> Valid(m.spec)
  {
    hide Parse, Print, Valid;
    if Valid(m.spec) {
      ValidComesBack(m);
    } else if Parse(Print(m)) == Some(m) {
      ParsedIsValid(Print(m));
    }
  }

  /** A strip built from splits that passed their own constructor comes back, and from no others. */
  lemma {:induction false} StripRoundTripIff(version: u64, boundaries: seq<F64>, splits: seq<RegionSplit>)
    requires NewStrip1D(boundaries, splits).Ok?
    ensures
      var m := Versioned(version, NewStrip1D(boundaries, splits).value);
      Parse(Print(m)) == Some(m) <==>
      forall i :: 0 <= i < |splits| ==> NewSplit(splits[i].region, splits[i].boundaries) == Ok(splits[i])
  {
    var m := Versioned(version, NewStrip1D(boundaries, splits).value);
    RoundTripIff(m);
    ConstructedIsValid(boundaries, splits);
    hide Parse, Print, NewStrip1D, Valid;
    forall i | 0 <= i < |splits|
      ensures NewSplit(splits[i].region, splits[i].boundaries) == Ok(splits[i]) <==> Ascending(splits[i].boundaries)
    {
      ValidateIff(splits[i].boundaries);
    }
  }

  /** The strip constructor does not look at the boundaries of its splits: one whose split holds two
      boundaries in falling order is accepted, printed, and does not come back. */
  lemma {:induction false} StripWithBadSplitExample(version: u64, region: string)
    ensures
      var spec := NewStrip1D([], [RegionSplit(region, [Finite(1.0), Finite(0.0)])]);
      spec.Ok? && Parse(Print(Versioned(version, spec.value))) != Some(Versioned(version, spec.value))
  {
    hide Parse, Print;
    var splits := [RegionSplit(region, [Finite(1.0), Finite(0.0)])];
    assert ValidateFrom(Some(1.0), [Finite(1.0), Finite(0.0)][1..]) == Err(UnsortedBoundary);
    StripRoundTripIff(version, [], splits);
    assert NewSplit(splits[0].region, splits[0].boundaries) != Ok(splits[0]);
  }

  /** What parses re-prints to a value that parses to the same map. */
  lemma {:induction false} ParsedComesBack(v: Value)
    requires Parse(v).Some?
    ensures Parse(Print(Parse(v).value)) == Parse(v)
  {
    ParsedIsValid(v);
    RoundTripIff(Parse(v).value);
    hide Parse, Print;
  }

  /** Every grid a constructor builds comes back. */
  lemma {:induction false} GridsComeBack(version: u64, cols: u64, rows: u64, layers: u64, w: F64, h: F64,
                                         d: F64, x: F64, y: F64, z: F64)
    ensures NewGrid2D(cols, rows, w, h, x, y).Ok? ==>
      var m := Versioned(version, NewGrid2D(cols, rows, w, h, x, y).value); Parse(Print(m)) == Some(m)
    ensures NewGrid3D(cols, rows, layers, w, h, d, x, y, z).Ok? ==>
      var m := Versioned(version, NewGrid3D(cols, rows, layers, w, h, d, x, y, z).value); Parse(Print(m)) == Some(m)
  {
    hide Parse, Print;
    if NewGrid2D(cols, rows, w, h, x, y).Ok? {
      RoundTripIff(Versioned(version, NewGrid2D(cols, rows, w, h, x, y).value));
    }
    if NewGrid3D(cols, rows, layers, w, h, d, x, y, z).Ok? {
      RoundTripIff(Versioned(version, NewGrid3D(cols, rows, layers, w, h, d, x, y, z).value));
    }
  }
}
