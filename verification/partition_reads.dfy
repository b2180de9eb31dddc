/** Which partition maps the parser accepts, read off the object alone, and which error the constructors
    report for what they refuse. */
module PartitionReads {
  import opened Wrappers
  import opened Json
  import opened WireNames
  import opened Protocol
  import opened PartitionMap

  // ---------------------------------------------------------------- which boundary is reported

  /** Boundary i is not finite, or does not exceed the finite one before it. */
  predicate Offends(s: seq<F64>, i: nat)
    requires i < |s|
  {
    !s[i].Finite? || (i > 0 && s[i - 1].Finite? && s[i].r <= s[i - 1].r)
  }

  /** Boundary i is the first to offend. */
  ghost predicate FirstOffence(s: seq<F64>, i: nat) {
    i < |s| && Offends(s, i) && forall j :: 0 <= j < i ==> !Offends(s, j)
  }

  /** What one offending boundary is reported as. */
  function OffenceOf(b: F64): SpecError { if b.Finite? then UnsortedBoundary else NonFiniteBoundary }

  lemma {:induction false} OffenceFrom(prev: Option<real>, s: seq<F64>, k: nat, i: nat)
    requires k <= i && FirstOffence(s, i)
    requires if k == 0 then prev.None? else s[k - 1].Finite? && prev == Some(s[k - 1].r)
    ensures ValidateFrom(prev, s[k..]) == Err(OffenceOf(s[i]))
    decreases i - k
  {
    assert s[k..][0] == s[k] && s[k..][1..] == s[k + 1..];
    if k < i {
      assert !Offends(s, k);
      OffenceFrom(Some(s[k].r), s, k + 1, i);
    }
  }

  /** Boundaries are refused for the first one that offends, and only if one does: as not finite if it is
      not, as unsorted if it is finite but does not exceed the one before. */
  lemma {:induction false} FirstOffenceReported(s: seq<F64>)
    ensures forall i: nat :: FirstOffence(s, i) ==> Validate(s) == Err(OffenceOf(s[i]))
    ensures Validate(s).Err? <==> exists i: nat :: FirstOffence(s, i)
  {
    forall i: nat | FirstOffence(s, i) ensures Validate(s) == Err(OffenceOf(s[i])) {
      assert s[0..] == s;
      OffenceFrom(None, s, 0, i);
    }
    ValidateIff(s);
    if Validate(s).Err? {
      var i := SomeOffence(s);
      assert FirstOffence(s, i);
    }
  }

  lemma {:induction false} SomeOffence(s: seq<F64>) returns (i: nat)
    requires !Ascending(s)
    ensures FirstOffence(s, i)
  {
    i := 0;
    while i < |s| && !Offends(s, i)
      invariant i <= |s| && forall j :: 0 <= j < i ==> !Offends(s, j)
    {
      i := i + 1;
    }
    if i == |s| {
      forall j | 0 <= j < |s| ensures s[j].Finite? {
        assert !Offends(s, j);
      }
      forall j | 0 < j < |s| ensures s[j - 1].r < s[j].r {
        assert !Offends(s, j);
      }
      assert Ascending(s);
    }
  }

  // ---------------------------------------------------------------- which grid error is reported

  /** A grid is refused for a count of zero first, then for a cell size that is not finite, then for one
      that is not positive, then for an origin that is not finite. */
  function GridError(counts: seq<u64>, cells: seq<F64>, origin: seq<F64>): Option<SpecError> {
    if 0 in counts then Some(NonPositiveGridCell)
    else if exists i :: 0 <= i < |cells| && !cells[i].Finite? then Some(NonFiniteGridCell)
    else if exists i :: 0 <= i < |cells| && !Positive(cells[i]) then Some(NonPositiveGridCell)
    else if exists i :: 0 <= i < |origin| && !origin[i].Finite? then Some(NonFiniteGridOrigin)
    else None
  }

  /** Both grid constructors refuse by the same rule, and otherwise keep what they are given. */
  lemma {:induction false} GridErrors(cols: u64, rows: u64, layers: u64, w: F64, h: F64, d: F64, x: F64, y: F64, z: F64)
    ensures NewGrid2D(cols, rows, w, h, x, y) ==
      var e := GridError([cols, rows], [w, h], [x, y]);
      if e.Some? then Err(e.value) else Ok(Grid2D(cols, rows, w, h, x, y))
    ensures NewGrid3D(cols, rows, layers, w, h, d, x, y, z) ==
      var e := GridError([cols, rows, layers], [w, h, d], [x, y, z]);
      if e.Some? then Err(e.value) else Ok(Grid3D(cols, rows, layers, w, h, d, x, y, z))
  {
    Among2(w, h);
    Among2(x, y);
    Among3(w, h, d);
    Among3(x, y, z);
  }

  lemma {:induction false} Among2(a: F64, b: F64)
    ensures (exists i :: 0 <= i < |[a, b]| && ![a, b][i].Finite?) <==> !a.Finite? || !b.Finite?
    ensures (exists i :: 0 <= i < |[a, b]| && !Positive([a, b][i])) <==> !Positive(a) || !Positive(b)
  {
    assert [a, b][0] == a && [a, b][1] == b;
  }

  lemma {:induction false} Among3(a: F64, b: F64, c: F64)
    ensures (exists i :: 0 <= i < |[a, b, c]| && ![a, b, c][i].Finite?) <==> !a.Finite? || !b.Finite? || !c.Finite?
    ensures (exists i :: 0 <= i < |[a, b, c]| && !Positive([a, b, c][i])) <==>
            !Positive(a) || !Positive(b) || !Positive(c)
  {
    assert [a, b, c][0] == a && [a, b, c][1] == b && [a, b, c][2] == c;
  }

  // ---------------------------------------------------------------- the order of regions

  /** The names agree up to some character, which is smaller in the first. */
  ghost predicate SmallerAt(a: string, b: string, k: nat) {
    k < |a| && k < |b| && a[..k] == b[..k] && a[k] < b[k]
  }

  lemma {:induction false} SmallerFirst(a: string, b: string, k: nat)
    requires SmallerAt(a, b, k)
    ensures a[0] <= b[0]
  {
    if k > 0 {
      assert a[..k][0] == a[0] && b[..k][0] == b[0];
    }
  }

  /** Splits are ordered by region as names are: a prefix first, else by the first character that differs. */
  lemma {:induction false} RegionOrder(a: string, b: string)
    ensures Leq(a, b) <==> a <= b || exists k: nat :: SmallerAt(a, b, k)
  {
    if a != "" && b != "" {
      if a[0] < b[0] {
        assert SmallerAt(a, b, 0);
      }
      if a[0] == b[0] {
        RegionOrder(a[1..], b[1..]);
        assert a[1..] <= b[1..] ==> a <= b;
        forall k: nat | SmallerAt(a[1..], b[1..], k) ensures SmallerAt(a, b, k + 1) {
          assert a[..k + 1] == [a[0]] + a[1..][..k] && b[..k + 1] == [b[0]] + b[1..][..k];
        }
        forall k: nat | SmallerAt(a, b, k) ensures k > 0 && SmallerAt(a[1..], b[1..], k - 1) {
          assert a[1..][..k - 1] == a[..k][1..] && b[1..][..k - 1] == b[..k][1..];
        }
      }
      forall k: nat | SmallerAt(a, b, k) ensures a[0] <= b[0] {
        SmallerFirst(a, b, k);
      }
    }
  }

  // ---------------------------------------------------------------- what an object denotes

  /** The JSON numbers, in any of their forms, are these floats. */
  ghost predicate AreNumbers(items: seq<Value>, s: seq<F64>) {
    |items| == |s| && forall i :: 0 <= i < |s| ==> items[i].Num? && s[i] == Finite(Worth(items[i].num))
  }

  lemma {:induction false} AllF64Iff(items: seq<Value>, s: seq<F64>)
    ensures AllF64(items) == Some(s) <==> AreNumbers(items, s)
  {
    if items != [] {
      if s != [] {
        AllF64Iff(items[1..], s[1..]);
        assert s == [s[0]] + s[1..];
        assert forall i :: 1 <= i < |s| ==> s[i] == s[1..][i - 1];
        assert forall i :: 1 <= i < |items| ==> items[i] == items[1..][i - 1];
      }
      if AllF64(items).Some? && s != [] && AllF64(items) == Some(s) {
        assert s[1..] == AllF64(items[1..]).value;
      }
    }
  }

  /** The field is a list of exactly these numbers. */
  ghost predicate Lists(v: Value, k: Key, s: seq<F64>) {
    Look(v, k).Some? && Look(v, k).value.Arr? && AreNumbers(Look(v, k).value.items, s)
  }

  lemma {:induction false} ListsIff(v: Value, k: Key, s: seq<F64>)
    ensures F64Array(Look(v, k)) == Some(s) <==> Lists(v, k, s)
  {
    hide Look, AreNumbers;
    if Look(v, k).Some? && Look(v, k).value.Arr? {
      AllF64Iff(Look(v, k).value.items, s);
    }
  }

  /** An object that names a region and lists its ascending boundaries. */
  ghost predicate IsSplit(v: Value, s: RegionSplit) {
    Look(v, KRegion) == Some(Str(s.region)) && Lists(v, KBoundaries, s.boundaries) && Ascending(s.boundaries)
  }

  lemma {:induction false} SplitIff(v: Value, s: RegionSplit)
    ensures ParseSplit(v) == Some(s) <==> IsSplit(v, s)
  {
    hide Look, Lists, Ascending, F64Array, Validate;
    ListsIff(v, KBoundaries, s.boundaries);
    ValidateIff(s.boundaries);
  }

  ghost predicate AreSplits(items: seq<Value>, s: seq<RegionSplit>) {
    |items| == |s| && forall i :: 0 <= i < |s| ==> IsSplit(items[i], s[i])
  }

  lemma {:induction false} SplitsIff(items: seq<Value>, s: seq<RegionSplit>)
    ensures ParseSplits(items) == Some(s) <==> AreSplits(items, s)
  {
    hide ParseSplit, IsSplit;
    if items != [] && s != [] {
      SplitsIff(items[1..], s[1..]);
      SplitIff(items[0], s[0]);
      assert s == [s[0]] + s[1..];
      assert forall i :: 1 <= i < |s| ==> s[i] == s[1..][i - 1];
      assert forall i :: 1 <= i < |items| ==> items[i] == items[1..][i - 1];
      if ParseSplits(items) == Some(s) {
        assert s[1..] == ParseSplits(items[1..]).value;
      }
    }
  }

  /** A list of splits, or no such field for no splits. */
  ghost predicate ListsSplits(v: Value, s: seq<RegionSplit>) {
    if Look(v, KSplits) == None then s == []
    else Look(v, KSplits).value.Arr? && AreSplits(Look(v, KSplits).value.items, s)
  }

  lemma {:induction false} ListsSplitsIff(v: Value, s: seq<RegionSplit>)
    ensures ParseRegionSplits(Look(v, KSplits)) == Some(s) <==> ListsSplits(v, s)
  {
    hide Look, AreSplits, ParseSplits;
    if Look(v, KSplits).Some? && Look(v, KSplits).value.Arr? {
      SplitsIff(Look(v, KSplits).value.items, s);
    }
  }

  predicate Counts(v: Value, k: Key, n: u64) { Look(v, k) == Some(Num(Unsigned(n))) && n > 0 }

  ghost predicate Measures(v: Value, k: Key, x: F64) {
    Look(v, k).Some? && Look(v, k).value.Num? && x == Finite(Worth(Look(v, k).value.num))
  }

  lemma {:induction false} MeasuresIff(v: Value, k: Key, x: F64)
    ensures CellOf(v, k) == Some(x) <==> Measures(v, k, x)
  {
    hide Look;
  }

  /** What an object must hold to be this map: counts and cells above zero, boundaries ascending, an origin
      of exactly as many numbers as the grid has axes. */
  ghost predicate Denotes(v: Value, s: Spec) {
    match s
    case Strip1D(boundaries, splits) =>
      && Look(v, KKind) == Some(Str("strip1d")) && Lists(v, KBoundaries, boundaries) && Ascending(boundaries)
      && exists listed :: ListsSplits(v, listed) && splits == SortSplits(listed)
    case Grid2D(cols, rows, w, h, x, y) =>
      && Look(v, KKind) == Some(Str("grid2d")) && Counts(v, KCols, cols) && Counts(v, KRows, rows)
      && Measures(v, KCellW, w) && Measures(v, KCellH, h) && Positive(w) && Positive(h)
      && Lists(v, KOrigin, [x, y])
    case Grid3D(cols, rows, layers, w, h, d, x, y, z) =>
      && Look(v, KKind) == Some(Str("grid3d"))
      && Counts(v, KCols, cols) && Counts(v, KRows, rows) && Counts(v, KLayers, layers)
      && Measures(v, KCellW, w) && Measures(v, KCellH, h) && Measures(v, KCellD, d)
      && Positive(w) && Positive(h) && Positive(d) && Lists(v, KOrigin, [x, y, z])
  }

  lemma {:induction false} StripIff(v: Value, s: Spec)
    requires Look(v, KKind) == Some(Str("strip1d"))
    ensures ParseStrip1D(v) == Some(s) <==> s.Strip1D? && Denotes(v, s)
  {
    hide Look, Lists, ListsSplits, Ascending, SortSplits, F64Array, ParseRegionSplits, Validate;
    if ParseStrip1D(v) == Some(s) {
      var boundaries, listed := F64Array(Look(v, KBoundaries)).value, ParseRegionSplits(Look(v, KSplits)).value;
      ListsIff(v, KBoundaries, boundaries);
      ListsSplitsIff(v, listed);
      ValidateIff(boundaries);
    }
    if s.Strip1D? && Denotes(v, s) {
      var listed :| ListsSplits(v, listed) && s.splits == SortSplits(listed);
      ListsIff(v, KBoundaries, s.boundaries);
      ListsSplitsIff(v, listed);
      ValidateIff(s.boundaries);
    }
  }

  lemma {:induction false} Grid2Iff(v: Value, s: Spec)
    requires Look(v, KKind) == Some(Str("grid2d"))
    ensures ParseGrid2D(v) == Some(s) <==> s.Grid2D? && Denotes(v, s)
  {
    hide Look, Lists, ListsSplits, Ascending, SortSplits, F64Array, Measures, CellOf;
    if ParseGrid2D(v) == Some(s) {
      var origin := F64Tuple(Look(v, KOrigin), 2).value;
      assert origin == [origin[0], origin[1]];
      ListsIff(v, KOrigin, origin);
      MeasuresIff(v, KCellW, s.cellW);
      MeasuresIff(v, KCellH, s.cellH);
    }
    if s.Grid2D? && Denotes(v, s) {
      ListsIff(v, KOrigin, [s.originX, s.originY]);
      FiniteListed(v, KOrigin, [s.originX, s.originY]);
      MeasuresIff(v, KCellW, s.cellW);
      MeasuresIff(v, KCellH, s.cellH);
    }
  }

  lemma {:induction false} FiniteListed(v: Value, k: Key, s: seq<F64>)
    requires Lists(v, k, s)
    ensures forall i :: 0 <= i < |s| ==> s[i].Finite?
  {
    hide Look;
  }

  lemma {:induction false} Grid3Iff(v: Value, s: Spec)
    requires Look(v, KKind) == Some(Str("grid3d"))
    ensures ParseGrid3D(v) == Some(s) <==> s.Grid3D? && Denotes(v, s)
  {
    hide Look, Lists, ListsSplits, Ascending, SortSplits, F64Array, Measures, CellOf;
    if ParseGrid3D(v) == Some(s) {
      var origin := F64Tuple(Look(v, KOrigin), 3).value;
      assert origin == [origin[0], origin[1], origin[2]];
      ListsIff(v, KOrigin, origin);
      MeasuresIff(v, KCellW, s.cellW);
      MeasuresIff(v, KCellH, s.cellH);
      MeasuresIff(v, KCellD, s.cellD);
    }
    if s.Grid3D? && Denotes(v, s) {
      ListsIff(v, KOrigin, [s.originX, s.originY, s.originZ]);
      FiniteListed(v, KOrigin, [s.originX, s.originY, s.originZ]);
      MeasuresIff(v, KCellW, s.cellW);
      MeasuresIff(v, KCellH, s.cellH);
      MeasuresIff(v, KCellD, s.cellD);
    }
  }

  /** An object parses to a map if and only if it holds its version and denotes its partition. */
  lemma {:induction false} ParsesIff(v: Value, m: Versioned)
    ensures Parse(v) == Some(m) <==> Look(v, KVersion) == Some(Num(Unsigned(m.version))) && Denotes(v, m.spec)
  {
    KindsDiffer();
    hide Look, Lists, ListsSplits, Ascending, SortSplits, Measures, Counts, Positive, ParseGrid2D, ParseGrid3D,
      ParseStrip1D;
    var kind := AsStr(Look(v, KKind));
    if kind == Some("strip1d") {
      StripIff(v, m.spec);
    } else if kind == Some("grid2d") {
      Grid2Iff(v, m.spec);
    } else if kind == Some("grid3d") {
      Grid3Iff(v, m.spec);
    }
  }
}
