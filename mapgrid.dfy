/** The map grid of the scene and the greedy merger of `#` cells into rectangular
    building footprints, as `generateGeometryFromMap` performs it in both
    visualization/visualization.js and visualization/visualizationp.js (the two
    copies find the same footprints; they differ only in what they emit). This
    module states which footprints the scan finds; module Scene runs it over a
    `processed` array. */
module MapGrid {
  import opened Common

  /** One string per map row, one character per cell; row `z`, column `x`. */
  type Grid = seq<string>

  /** `text.split("\n").map((line) => line.split(""))`: the rows of the map file. */
  function ParseMap(text: string): (g: Grid)
    ensures |g| >= 1
  {
    Split(text, "\n")
  }

  /** A map text has one row more than it has line breaks (a trailing line break
      gives an empty last row), no row holds a line break, and joining the rows
      with line breaks gives the text back. */
  lemma ParseMapRows(text: string)
    ensures |ParseMap(text)| == Count(text, '\n') + 1
    ensures forall k, i :: 0 <= k < |ParseMap(text)| && 0 <= i < |ParseMap(text)[k]| ==>
      ParseMap(text)[k][i] != '\n'
    ensures Join(ParseMap(text), "\n") == text
  {
    SplitPieceCount(text, '\n');
    SplitPiecesFree(text, '\n');
    JoinSplit(text, "\n");
  }

  /** A building footprint: origin row `z` and column `x`, extent `width` columns
      by `height` rows. */
  datatype Footprint = Footprint(z: nat, x: nat, width: nat, height: nat)

  predicate Contains(f: Footprint, r: int, c: int)
  {
    f.z <= r < f.z + f.height && f.x <= c < f.x + f.width
  }

  /** Cell `(r, c)` is marked in `processed` once the footprints `fs` are marked. */
  predicate Covered(fs: seq<Footprint>, r: int, c: int)
  {
    exists i :: 0 <= i < |fs| && Contains(fs[i], r, c)
  }

  lemma CoveredSnoc(fs: seq<Footprint>, n: Footprint, r: int, c: int)
    ensures Covered(fs + [n], r, c) <==> Covered(fs, r, c) || Contains(n, r, c)
  {
    if Covered(fs, r, c) {
      var i :| 0 <= i < |fs| && Contains(fs[i], r, c);
      assert (fs + [n])[i] == fs[i];
    }
    if Contains(n, r, c) {
      assert (fs + [n])[|fs|] == n;
    }
    if Covered(fs + [n], r, c) {
      var i :| 0 <= i < |fs| + 1 && Contains((fs + [n])[i], r, c);
      if i < |fs| {
        assert (fs + [n])[i] == fs[i];
      }
    }
  }

  /** The first `while` of the merger: the number of consecutive unprocessed `#`
      cells of row `z` from column `x` on. */
  function RunWidth(g: Grid, fs: seq<Footprint>, z: nat, x: nat): (w: nat)
    requires z < |g| && x <= |g[z]|
    ensures x + w <= |g[z]|
    ensures forall c :: x <= c < x + w ==> g[z][c] == '#' && !Covered(fs, z, c)
    ensures x + w < |g[z]| ==> !(g[z][x + w] == '#' && !Covered(fs, z, x + w))
    decreases |g[z]| - x
  {
    if x < |g[z]| && g[z][x] == '#' && !Covered(fs, z, x) then 1 + RunWidth(g, fs, z, x + 1)
    else 0
  }

  /** The test of the second `while`: every cell of `slice(x, x + w)` of row `r` is
      an unprocessed `#`. Columns past the end of a short row take no part, so the
      test holds on a row that ends before `x + w`. */
  predicate SliceFree(g: Grid, fs: seq<Footprint>, r: nat, x: nat, w: nat)
    requires r < |g|
  {
    forall c :: x <= c < x + w && c < |g[r]| ==> g[r][c] == '#' && !Covered(fs, r, c)
  }

  /** The second `while` of the merger: the number of consecutive rows from `r` on
      whose slice is free. */
  function RunHeight(g: Grid, fs: seq<Footprint>, r: nat, x: nat, w: nat): (h: nat)
    requires r <= |g|
    ensures r + h <= |g|
    ensures forall k :: r <= k < r + h ==> SliceFree(g, fs, k, x, w)
    ensures r + h < |g| ==> !SliceFree(g, fs, r + h, x, w)
    decreases |g| - r
  {
    if r < |g| && SliceFree(g, fs, r, x, w) then 1 + RunHeight(g, fs, r + 1, x, w) else 0
  }

  /** The footprint grown from origin `(z, x)` when the footprints `fs` are marked. */
  function NewFootprint(g: Grid, fs: seq<Footprint>, z: nat, x: nat): Footprint
    requires z < |g| && x <= |g[z]|
  {
    var w := RunWidth(g, fs, z, x);
    Footprint(z, x, w, RunHeight(g, fs, z, x, w))
  }

  /** The cell starts a footprint: an unprocessed `#`. */
  predicate Starts(g: Grid, fs: seq<Footprint>, z: nat, x: nat)
    requires z < |g| && x < |g[z]|
  {
    g[z][x] == '#' && !Covered(fs, z, x)
  }

  /** The row-major scan from cell `(z, x)` on, with `fs` already found: the
      footprints found by the end. */
  function Scan(g: Grid, z: nat, x: nat, fs: seq<Footprint>): seq<Footprint>
    requires z < |g| ==> x <= |g[z]|
    decreases |g| - z, if z < |g| then |g[z]| - x else 0
  {
    if z >= |g| then fs
    else if x == |g[z]| then Scan(g, z + 1, 0, fs)
    else if Starts(g, fs, z, x) then Scan(g, z, x + 1, fs + [NewFootprint(g, fs, z, x)])
    else Scan(g, z, x + 1, fs)
  }

  /** The footprints of a map, in the order the merger finds them. */
  function Footprints(g: Grid): seq<Footprint>
  {
    Scan(g, 0, 0, [])
  }

  /** A footprint as the merger builds it: at least one cell each way, inside the
      map's rows and its origin row, and every cell of it that exists is a `#`. */
  ghost predicate Good(g: Grid, f: Footprint)
  {
    f.width >= 1 && f.height >= 1 && f.z + f.height <= |g| && f.x + f.width <= |g[f.z]|
    && forall r, c :: Contains(f, r, c) && 0 <= c < |g[r]| ==> g[r][c] == '#'
  }

  /** No cell lies in two footprints. */
  ghost predicate Disjoint(fs: seq<Footprint>)
  {
    forall i, j, r, c :: 0 <= i < j < |fs| && Contains(fs[i], r, c) ==> !Contains(fs[j], r, c)
  }

  predicate Before(f: Footprint, z: nat, x: nat)
  {
    f.z < z || (f.z == z && f.x < x)
  }

  /** Every `#` cell before `(z, x)` in row-major order is processed. */
  ghost predicate CoveredBefore(g: Grid, fs: seq<Footprint>, z: nat, x: nat)
  {
    forall r, c :: 0 <= r < |g| && 0 <= c < |g[r]| && (r < z || (r == z && c < x)) && g[r][c] == '#' ==>
      Covered(fs, r, c)
  }

  /** A position of the scan: a cell of the map, the end of a row, or the end. */
  predicate At(g: Grid, z: nat, x: nat)
  {
    z <= |g| && (z < |g| ==> x <= |g[z]|) && (z == |g| ==> x == 0)
  }

  ghost predicate AllGood(g: Grid, fs: seq<Footprint>)
  {
    forall i :: 0 <= i < |fs| ==> Good(g, fs[i])
  }

  predicate AllBefore(fs: seq<Footprint>, z: nat, x: nat)
  {
    forall i :: 0 <= i < |fs| ==> Before(fs[i], z, x)
  }

  /** A new footprint is good and covers its origin. */
  lemma NewFootprintGood(g: Grid, fs: seq<Footprint>, z: nat, x: nat)
    requires z < |g| && x < |g[z]| && Starts(g, fs, z, x)
    ensures Good(g, NewFootprint(g, fs, z, x))
    ensures Contains(NewFootprint(g, fs, z, x), z, x)
  {
    var n := NewFootprint(g, fs, z, x);
    NewFootprintNonEmpty(g, fs, z, x);
    forall r, c | Contains(n, r, c) && 0 <= c < |g[r]|
      ensures g[r][c] == '#'
    {
      assert SliceFree(g, fs, r, x, n.width);
    }
  }

  /** A footprint grown from a starting cell has at least that cell. */
  lemma NewFootprintNonEmpty(g: Grid, fs: seq<Footprint>, z: nat, x: nat)
    requires z < |g| && x < |g[z]| && Starts(g, fs, z, x)
    ensures NewFootprint(g, fs, z, x).width >= 1 && NewFootprint(g, fs, z, x).height >= 1
  {
    var n := NewFootprint(g, fs, z, x);
    assert n.width >= 1;
    assert SliceFree(g, fs, z, x, n.width);
  }

  /** A new footprint overlaps none found before it: an earlier footprint that
      reached a row of it would also reach its origin row, whose cells in the new
      footprint's columns are unprocessed. */
  lemma NewFootprintDisjoint(g: Grid, fs: seq<Footprint>, z: nat, x: nat)
    requires z < |g| && x < |g[z]| && Starts(g, fs, z, x)
    requires AllBefore(fs, z, x) && Disjoint(fs)
    ensures Disjoint(fs + [NewFootprint(g, fs, z, x)])
  {
    var n := NewFootprint(g, fs, z, x);
    var fs' := fs + [n];
    forall i, j, r, c | 0 <= i < j < |fs'| && Contains(fs'[i], r, c)
      ensures !Contains(fs'[j], r, c)
    {
      assert fs'[i] == fs[i];
      if j < |fs| {
        assert fs'[j] == fs[j];
      } else if Contains(n, r, c) {
        assert Contains(fs[i], z, c);
        assert Covered(fs, z, c);
        assert false;
      }
    }
  }

  /** Every footprint the scan finds is good. */
  lemma {:induction false} ScanGood(g: Grid, z: nat, x: nat, fs: seq<Footprint>)
    requires At(g, z, x) && AllGood(g, fs)
    ensures AllGood(g, Scan(g, z, x, fs))
    decreases |g| - z, if z < |g| then |g[z]| - x else 0
  {
    if z < |g| {
      if x == |g[z]| {
        ScanGood(g, z + 1, 0, fs);
      } else if Starts(g, fs, z, x) {
        ScanGoodStart(g, z, x, fs);
      } else {
        assert Scan(g, z, x, fs) == Scan(g, z, x + 1, fs);
        ScanGood(g, z, x + 1, fs);
      }
    }
  }

  lemma {:induction false} ScanGoodStart(g: Grid, z: nat, x: nat, fs: seq<Footprint>)
    requires z < |g| && x < |g[z]| && Starts(g, fs, z, x) && AllGood(g, fs)
    ensures AllGood(g, Scan(g, z, x, fs))
    decreases |g| - z, |g[z]| - x, 0
  {
    var n := NewFootprint(g, fs, z, x);
    assert Scan(g, z, x, fs) == Scan(g, z, x + 1, fs + [n]);
    NewFootprintGood(g, fs, z, x);
    AllGoodSnoc(g, fs, n);
    ScanGood(g, z, x + 1, fs + [n]);
  }

  lemma AllGoodSnoc(g: Grid, fs: seq<Footprint>, n: Footprint)
    requires AllGood(g, fs) && Good(g, n)
    ensures AllGood(g, fs + [n])
  {
    assert forall i :: 0 <= i < |fs| ==> (fs + [n])[i] == fs[i];
  }

  /** No two footprints the scan finds share a cell. */
  lemma {:induction false} ScanDisjoint(g: Grid, z: nat, x: nat, fs: seq<Footprint>)
    requires At(g, z, x) && AllBefore(fs, z, x) && Disjoint(fs)
    ensures Disjoint(Scan(g, z, x, fs))
    decreases |g| - z, if z < |g| then |g[z]| - x else 0
  {
    if z < |g| {
      if x == |g[z]| {
        ScanDisjoint(g, z + 1, 0, fs);
      } else if Starts(g, fs, z, x) {
        var n := NewFootprint(g, fs, z, x);
        NewFootprintDisjoint(g, fs, z, x);
        assert forall i :: 0 <= i < |fs| ==> (fs + [n])[i] == fs[i];
        ScanDisjoint(g, z, x + 1, fs + [n]);
      } else {
        ScanDisjoint(g, z, x + 1, fs);
      }
    }
  }

  /** The scan processes every `#` cell from its position on. */
  lemma {:induction false} ScanCovers(g: Grid, z: nat, x: nat, fs: seq<Footprint>)
    requires At(g, z, x) && CoveredBefore(g, fs, z, x)
    ensures CoveredBefore(g, Scan(g, z, x, fs), |g|, 0)
    decreases |g| - z, if z < |g| then |g[z]| - x else 0
  {
    if z < |g| {
      if x == |g[z]| {
        ScanCovers(g, z + 1, 0, fs);
      } else if Starts(g, fs, z, x) {
        var n := NewFootprint(g, fs, z, x);
        NewFootprintGood(g, fs, z, x);
        forall r, c | 0 <= r < |g| && 0 <= c < |g[r]| && (r < z || (r == z && c < x + 1)) && g[r][c] == '#'
          ensures Covered(fs + [n], r, c)
        {
          CoveredSnoc(fs, n, r, c);
        }
        ScanCovers(g, z, x + 1, fs + [n]);
      } else {
        ScanCovers(g, z, x + 1, fs);
      }
    }
  }

  /** Every footprint of a map has width and height at least one, lies inside the
      map's rows and its origin row, and covers only `#` cells; no two footprints
      share a cell; every `#` cell lies in a footprint. This holds for ragged maps
      too. */
  lemma FootprintsSound(g: Grid)
    ensures forall i :: 0 <= i < |Footprints(g)| ==> Good(g, Footprints(g)[i])
    ensures Disjoint(Footprints(g))
    ensures forall r, c :: 0 <= r < |g| && 0 <= c < |g[r]| && g[r][c] == '#' ==>
      Covered(Footprints(g), r, c)
  {
    ScanGood(g, 0, 0, []);
    ScanDisjoint(g, 0, 0, []);
    ScanCovers(g, 0, 0, []);
  }

  /** A cell other than `#` is never processed, so the `!processed[z][x]` tests of
      the other symbols always pass. */
  lemma OtherCellsUnprocessed(g: Grid, r: nat, c: nat)
    requires r < |g| && c < |g[r]| && g[r][c] != '#'
    ensures !Covered(Footprints(g), r, c)
  {
    var fs := Footprints(g);
    FootprintsSound(g);
    forall i | 0 <= i < |fs| ensures !Contains(fs[i], r, c) {
      assert Good(g, fs[i]);
    }
  }

  predicate Rectangular(g: Grid)
  {
    forall r :: 0 <= r < |g| ==> |g[r]| == |g[0]|
  }

  /** On a rectangular map the footprints partition the `#` cells exactly: every cell
      of a footprint exists and is a `#`, and every `#` cell lies in exactly one
      footprint. */
  lemma RectangularPartition(g: Grid)
    requires Rectangular(g)
    ensures forall i, r, c :: 0 <= i < |Footprints(g)| && Contains(Footprints(g)[i], r, c) ==>
      0 <= r < |g| && 0 <= c < |g[r]| && g[r][c] == '#'
    ensures forall r, c :: 0 <= r < |g| && 0 <= c < |g[r]| && g[r][c] == '#' ==>
      exists i :: 0 <= i < |Footprints(g)| && Contains(Footprints(g)[i], r, c)
    ensures forall i, j, r, c ::
      (0 <= i < |Footprints(g)| && 0 <= j < |Footprints(g)| &&
       Contains(Footprints(g)[i], r, c) && Contains(Footprints(g)[j], r, c)) ==> i == j
  {
    var fs := Footprints(g);
    FootprintsSound(g);
    forall i, r, c | 0 <= i < |fs| && Contains(fs[i], r, c)
      ensures 0 <= r < |g| && 0 <= c < |g[r]| && g[r][c] == '#'
    {
      assert Good(g, fs[i]);
      assert |g[r]| == |g[0]| == |g[fs[i].z]|;
    }
    forall i, j, r, c | 0 <= i < |fs| && 0 <= j < |fs| && Contains(fs[i], r, c) && Contains(fs[j], r, c)
      ensures i == j
    {
      if i < j || j < i {
        assert false;
      }
    }
  }

  /** `["##", "##"]` merges into the single footprint at the origin, two by two. */
  lemma SquareExample()
    ensures Footprints(["##", "##"]) == [Footprint(0, 0, 2, 2)]
  {
    var g: Grid := ["##", "##"];
    var f := Footprint(0, 0, 2, 2);
    assert !Covered([], 0, 0);
    assert RunWidth(g, [], 0, 1) == 1 by {
      assert !Covered([], 0, 1);
      assert RunWidth(g, [], 0, 2) == 0;
    }
    assert RunHeight(g, [], 1, 0, 2) == 1 by {
      assert SliceFree(g, [], 1, 0, 2) by {
        assert !Covered([], 1, 0) && !Covered([], 1, 1);
      }
    }
    assert NewFootprint(g, [], 0, 0) == f;
    assert Covered([f], 0, 1) && Covered([f], 1, 0) && Covered([f], 1, 1) by {
      assert Contains([f][0], 0, 1) && Contains([f][0], 1, 0) && Contains([f][0], 1, 1);
    }
    assert [] + [f] == [f];
    calc {
      Footprints(g);
      Scan(g, 0, 0, []);
      Scan(g, 0, 1, [] + [f]);
      Scan(g, 0, 1, [f]);
      Scan(g, 0, 2, [f]);
      Scan(g, 1, 0, [f]);
      Scan(g, 1, 1, [f]);
      Scan(g, 1, 2, [f]);
      Scan(g, 2, 0, [f]);
    }
  }

  /** The short-row quirk: the empty last row of `"#\n"` passes the slice test, so
      the single `#` gets a footprint two rows high. */
  lemma TrailingRowExample()
    ensures ParseMap("#\n") == ["#", ""]
    ensures Footprints(["#", ""]) == [Footprint(0, 0, 1, 2)]
  {
    assert ParseMap("#\n") == ["#", ""] by {
      assert Split("", "\n") == [""];
      assert "\n"[..1] == "\n" && "\n"[1..] == "";
      assert Split("\n", "\n") == ["", ""];
      assert "#\n"[..1] == "#" && "#\n"[1..] == "\n";
      assert ['#'] + "" == "#";
      assert Split("#\n", "\n") == [['#'] + ""] + [""];
    }
    var g: Grid := ["#", ""];
    var f := Footprint(0, 0, 1, 2);
    assert !Covered([], 0, 0);
    assert RunWidth(g, [], 0, 1) == 0;
    assert SliceFree(g, [], 0, 0, 1);
    assert SliceFree(g, [], 1, 0, 1);
    assert RunHeight(g, [], 2, 0, 1) == 0;
    assert NewFootprint(g, [], 0, 0) == f;
    assert [] + [f] == [f];
    calc {
      Footprints(g);
      Scan(g, 0, 0, []);
      Scan(g, 0, 1, [] + [f]);
      Scan(g, 0, 1, [f]);
      Scan(g, 1, 0, [f]);
      Scan(g, 2, 0, [f]);
    }
  }
}
