/** The scene geometry of visualization/visualization.js (`generateGeometryFromMap`):
    the map is scanned in row-major order with a `processed` array, `#` cells are
    merged into footprints, and every footprint and every other symbol places meshes
    in the scene. Meshes are named by their file path; a placement records how the
    mesh's vertices are moved into the scene instead of the moved numbers. The
    pieces shared with the variant in visualization/visualizationp.js (placements,
    fillers, the `processed` array and its two `while` loops) live here too. */
module Scene {
  import opened Common
  import opened MapGrid

  /** How the vertices `(px, py, pz)` of a placed mesh are moved:
      `Translate` adds `(x, y, z)`; `Stretch` maps them to
      `(px * scaleX + x, py * s + s / 2, pz * scaleZ + z)` where
      `s = max(1, sqrt(area))`, the square root being left symbolic. */
  datatype Transform =
    | Translate(x: real, y: real, z: real)
    | Stretch(scaleX: real, scaleZ: real, area: nat, x: real, z: real)

  /** A mesh placed in the scene: its path, the colour every vertex is painted with
      (`None`: the mesh keeps the colours of its own material), its transform. */
  datatype Placement = Placement(path: string, colour: Option<seq<real>>, transform: Transform)

  const CubePath: string := "/obj/cubo.obj"
  const GreenCubePath: string := "/obj/cubov.obj"
  const TurnCubePath: string := "/obj/cuboi.obj"
  const PlainLightPath: string := "/obj/semaforochafa.obj"
  const ObjectPath: string := "/obj/objeto.obj"
  const TreePath: string := "/obj/arbol.obj"
  const BenchPath: string := "/obj/banco.obj"

  /** The five houses `getRandomBuilding` draws from. */
  const Houses: seq<string> := [
    "/obj/greenHouse.obj",
    "/obj/pinkHouse.obj",
    "/obj/orangeHouse.obj",
    "/obj/purpleHouse.obj",
    "/obj/yellowHouse.obj"
  ]

  /** `Math.floor(Math.random() * buildings.length)`: the index `pick(k)` is the
      draw made for the `k`-th footprint. */
  type HouseIndex = i: int | 0 <= i < 5

  function Min(a: int, b: int): int
  {
    if a <= b then a else b
  }

  function Placed(path: string, colour: Option<seq<real>>, x: int, y: real, z: int): Placement
  {
    Placement(path, colour, Translate(x as real, y, z as real))
  }

  /** One row of a footprint's filler cubes, left to right. */
  function FillerRow(path: string, colour: Option<seq<real>>, x: nat, z: nat, w: nat): (row: seq<Placement>)
    ensures |row| == w
  {
    seq(w, dx requires 0 <= dx < w => Placed(path, colour, x + dx, 0.0, z))
  }

  /** The filler cubes of the first `h` rows of a footprint, row after row. */
  function Fillers(path: string, colour: Option<seq<real>>, x: nat, z: nat, w: nat, h: nat): seq<Placement>
  {
    if h == 0 then [] else Fillers(path, colour, x, z, w, h - 1) + FillerRow(path, colour, x, z + h - 1, w)
  }

  /** A footprint of `w` by `h` cells gets exactly `w * h` fillers, one per cell: the
      one for cell `(z + dz, x + dx)` comes `dz * w + dx`-th and stands on that cell. */
  lemma {:induction false} FillersCells(path: string, colour: Option<seq<real>>, x: nat, z: nat, w: nat, h: nat)
    ensures |Fillers(path, colour, x, z, w, h)| == w * h
    ensures forall dz, dx :: 0 <= dz < h && 0 <= dx < w ==>
      Offset(w, dz, dx) < w * h &&
      Fillers(path, colour, x, z, w, h)[Offset(w, dz, dx)] == Placed(path, colour, x + dx, 0.0, z + dz)
  {
    if h > 0 {
      FillersCells(path, colour, x, z, w, h - 1);
      var front := Fillers(path, colour, x, z, w, h - 1);
      var row := FillerRow(path, colour, x, z + h - 1, w);
      assert |front| == w * (h - 1);
      assert w * (h - 1) + w == w * h;
      forall dz, dx | 0 <= dz < h && 0 <= dx < w
        ensures Offset(w, dz, dx) < w * h && (front + row)[Offset(w, dz, dx)] == Placed(path, colour, x + dx, 0.0, z + dz)
      {
        OffsetBound(w, dz, dx, h);
      }
    }
  }

  /** The footprint branch of visualization/visualization.js: the
      `width * height` green filler cubes, then the house drawn for this footprint,
      stretched over at most 8 by 8 cells and moved by `-0.4` and `-0.5`. */
  function Block(f: Footprint, house: HouseIndex): seq<Placement>
  {
    var bw := Min(f.width, 8);
    var bh := Min(f.height, 8);
    Fillers(GreenCubePath, None, f.x, f.z, f.width, f.height)
      + [Placement(Houses[house], None,
           Stretch(bw as real, bh as real, bw * bh,
                   f.x as real + bw as real / 2.0 - 0.4, f.z as real + bh as real / 2.0 - 0.5))]
  }

  /** The other branches of the cell loop of visualization/visualization.js for a
      cell that does not start a footprint; `processed` is the cell's mark. The
      generic `objects[cell]` branch is reached only by `N`, `O` and `B`: an
      unprocessed `#` always takes the footprint branch. */
  function Tile(c: char, processed: bool, x: nat, z: nat): seq<Placement>
  {
    if (c == 'v' || c == '^') && !processed then [Placed(CubePath, None, x, 0.0, z)]
    else if (c == '<' || c == '>') && !processed then [Placed(TurnCubePath, None, x, 0.0, z)]
    else if c == 'S' && !processed then [Placed(PlainLightPath, None, x, 1.0, z), Placed(ObjectPath, None, x, 0.0, z)]
    else if c == 'A' && !processed then [Placed(TreePath, None, x, 1.0, z), Placed(GreenCubePath, None, x, 0.0, z)]
    else if c == 'N' && !processed then [Placed(GreenCubePath, None, x, 0.0, z)]
    else if c == 'O' && !processed then [Placed(ObjectPath, None, x, 0.0, z)]
    else if c == 'B' && !processed then [Placed(BenchPath, None, x, 0.0, z)]
    else []
  }

  /** The placements of the scan from cell `(z, x)` on, with footprints `fs` found. */
  function ScanPlacements(g: Grid, z: nat, x: nat, fs: seq<Footprint>, pick: nat -> HouseIndex): seq<Placement>
    requires z < |g| ==> x <= |g[z]|
    decreases |g| - z, if z < |g| then |g[z]| - x else 0
  {
    if z >= |g| then []
    else if x == |g[z]| then ScanPlacements(g, z + 1, 0, fs, pick)
    else if Starts(g, fs, z, x) then
      var f := NewFootprint(g, fs, z, x);
      Block(f, pick(|fs|)) + ScanPlacements(g, z, x + 1, fs + [f], pick)
    else Tile(g[z][x], Covered(fs, z, x), x, z) + ScanPlacements(g, z, x + 1, fs, pick)
  }

  /** Everything `generateGeometryFromMap` places for a map. */
  function SceneOf(g: Grid, pick: nat -> HouseIndex): seq<Placement>
  {
    ScanPlacements(g, 0, 0, [], pick)
  }

  /** The stretched placements, in order: the buildings of a scene. */
  function Buildings(ps: seq<Placement>): seq<Placement>
  {
    if |ps| == 0 then []
    else Buildings(ps[..|ps| - 1]) + (if ps[|ps| - 1].transform.Stretch? then [ps[|ps| - 1]] else [])
  }

  lemma {:induction false} BuildingsConcat(a: seq<Placement>, b: seq<Placement>)
    ensures Buildings(a + b) == Buildings(a) + Buildings(b)
    decreases |b|
  {
    if |b| == 0 {
      assert a + b == a;
    } else {
      BuildingsConcat(a, b[..|b| - 1]);
      assert (a + b)[..|a + b| - 1] == a + b[..|b| - 1];
    }
  }

  lemma {:induction false} FillersFlat(path: string, colour: Option<seq<real>>, x: nat, z: nat, w: nat, h: nat)
    ensures Buildings(Fillers(path, colour, x, z, w, h)) == []
  {
    if h > 0 {
      FillersFlat(path, colour, x, z, w, h - 1);
      var row := FillerRow(path, colour, x, z + h - 1, w);
      BuildingsConcat(Fillers(path, colour, x, z, w, h - 1), row);
      assert forall i :: 0 <= i < |row| ==> row[i] == Placed(path, colour, x + i, 0.0, z + h - 1);
      RowFlat(row);
    }
  }

  lemma {:induction false} RowFlat(ps: seq<Placement>)
    requires forall i :: 0 <= i < |ps| ==> ps[i].transform.Translate?
    ensures Buildings(ps) == []
  {
    if |ps| > 0 {
      RowFlat(ps[..|ps| - 1]);
    }
  }

  /** The building of a footprint in visualization/visualization.js: the house drawn
      for it, scaled by the footprint's extent capped at 8 each way. */
  function HouseOf(f: Footprint, house: HouseIndex): Placement
  {
    var bw := Min(f.width, 8);
    var bh := Min(f.height, 8);
    Placement(Houses[house], None,
      Stretch(bw as real, bh as real, bw * bh,
              f.x as real + bw as real / 2.0 - 0.4, f.z as real + bh as real / 2.0 - 0.5))
  }

  /** Each footprint places exactly its `width * height` filler cubes and one
      building, which is its house. */
  lemma BlockShape(f: Footprint, house: HouseIndex)
    ensures |Block(f, house)| == f.width * f.height + 1
    ensures Block(f, house)[f.width * f.height] == HouseOf(f, house)
    ensures Buildings(Block(f, house)) == [HouseOf(f, house)]
  {
    var fill := Fillers(GreenCubePath, None, f.x, f.z, f.width, f.height);
    FillersCells(GreenCubePath, None, f.x, f.z, f.width, f.height);
    FillersFlat(GreenCubePath, None, f.x, f.z, f.width, f.height);
    BuildingsConcat(fill, [HouseOf(f, house)]);
    assert Buildings([HouseOf(f, house)]) == [HouseOf(f, house)] by {
      assert [HouseOf(f, house)][..0] == [];
    }
  }

  lemma TileFlat(c: char, processed: bool, x: nat, z: nat)
    ensures Buildings(Tile(c, processed, x, z)) == []
  {
    RowFlat(Tile(c, processed, x, z));
  }

  /** The houses of the footprints `all[lo..]`, the `k`-th drawn by `pick(k)`. */
  function HouseList(all: seq<Footprint>, lo: nat, pick: nat -> HouseIndex): (hs: seq<Placement>)
    ensures |hs| == if lo <= |all| then |all| - lo else 0
    ensures forall k :: lo <= k < |all| ==> hs[k - lo] == HouseOf(all[k], pick(k))
    decreases |all| - lo
  {
    if lo >= |all| then [] else [HouseOf(all[lo], pick(lo))] + HouseList(all, lo + 1, pick)
  }

  /** The scan only ever adds footprints after those it started with. */
  lemma {:induction false} ScanExtends(g: Grid, z: nat, x: nat, fs: seq<Footprint>)
    requires z < |g| ==> x <= |g[z]|
    ensures |fs| <= |Scan(g, z, x, fs)| && Scan(g, z, x, fs)[..|fs|] == fs
    decreases |g| - z, if z < |g| then |g[z]| - x else 0
  {
    if z < |g| {
      if x == |g[z]| {
        ScanExtends(g, z + 1, 0, fs);
      } else if Starts(g, fs, z, x) {
        var fs' := fs + [NewFootprint(g, fs, z, x)];
        ScanExtends(g, z, x + 1, fs');
        assert Scan(g, z, x, fs)[..|fs|] == Scan(g, z, x, fs)[..|fs'|][..|fs|];
      } else {
        ScanExtends(g, z, x + 1, fs);
      }
    }
  }

  /** The buildings the scan places from a position on are the houses of the
      footprints it finds from there. */
  lemma {:induction false} ScanBuildings(g: Grid, z: nat, x: nat, fs: seq<Footprint>, pick: nat -> HouseIndex)
    requires z < |g| ==> x <= |g[z]|
    ensures Buildings(ScanPlacements(g, z, x, fs, pick)) == HouseList(Scan(g, z, x, fs), |fs|, pick)
    decreases |g| - z, if z < |g| then |g[z]| - x else 0
  {
    if z < |g| {
      if x == |g[z]| {
        ScanRowEndBuildings(g, z, fs, pick);
      } else if Starts(g, fs, z, x) {
        ScanStartBuildings(g, z, x, fs, pick);
      } else {
        ScanTileBuildings(g, z, x, fs, pick);
      }
    }
  }

  /** `ScanBuildings` at the end of a row. */
  lemma {:induction false} ScanRowEndBuildings(g: Grid, z: nat, fs: seq<Footprint>, pick: nat -> HouseIndex)
    requires z < |g|
    ensures Buildings(ScanPlacements(g, z, |g[z]|, fs, pick)) == HouseList(Scan(g, z, |g[z]|, fs), |fs|, pick)
    decreases |g| - z, 0, 0
  {
    assert ScanPlacements(g, z, |g[z]|, fs, pick) == ScanPlacements(g, z + 1, 0, fs, pick);
    assert Scan(g, z, |g[z]|, fs) == Scan(g, z + 1, 0, fs);
    ScanBuildings(g, z + 1, 0, fs, pick);
  }

  /** `ScanBuildings` at a cell that starts no footprint. */
  lemma {:induction false} ScanTileBuildings(g: Grid, z: nat, x: nat, fs: seq<Footprint>, pick: nat -> HouseIndex)
    requires z < |g| && x < |g[z]| && !Starts(g, fs, z, x)
    ensures Buildings(ScanPlacements(g, z, x, fs, pick)) == HouseList(Scan(g, z, x, fs), |fs|, pick)
    decreases |g| - z, |g[z]| - x, 0
  {
    var tile := Tile(g[z][x], Covered(fs, z, x), x, z);
    var rest := ScanPlacements(g, z, x + 1, fs, pick);
    assert ScanPlacements(g, z, x, fs, pick) == tile + rest;
    assert Scan(g, z, x, fs) == Scan(g, z, x + 1, fs);
    ScanBuildings(g, z, x + 1, fs, pick);
    TileFlat(g[z][x], Covered(fs, z, x), x, z);
    BuildingsConcat(tile, rest);
  }

  /** `ScanBuildings` at a cell that starts a footprint. */
  lemma {:induction false} ScanStartBuildings(g: Grid, z: nat, x: nat, fs: seq<Footprint>, pick: nat -> HouseIndex)
    requires z < |g| && x < |g[z]| && Starts(g, fs, z, x)
    ensures Buildings(ScanPlacements(g, z, x, fs, pick)) == HouseList(Scan(g, z, x, fs), |fs|, pick)
    decreases |g| - z, |g[z]| - x, 0
  {
    var f := NewFootprint(g, fs, z, x);
    var fs' := fs + [f];
    var all := Scan(g, z, x + 1, fs');
    var rest := ScanPlacements(g, z, x + 1, fs', pick);
    assert Scan(g, z, x, fs) == all;
    assert ScanPlacements(g, z, x, fs, pick) == Block(f, pick(|fs|)) + rest;
    ScanBuildings(g, z, x + 1, fs', pick);
    ScanExtends(g, z, x + 1, fs');
    assert all[|fs|] == all[..|fs'|][|fs|] == f;
    BlockShape(f, pick(|fs|));
    BuildingsConcat(Block(f, pick(|fs|)), rest);
    assert HouseList(all, |fs|, pick) == [HouseOf(f, pick(|fs|))] + HouseList(all, |fs'|, pick);
  }

  /** The buildings of a whole scene: one per footprint of the map and in the order
      the footprints are found; the `k`-th is the house drawn by `pick(k)`, with X
      and Z scale `min(width, 8)` and `min(height, 8)`. */
  lemma SceneBuildings(g: Grid, pick: nat -> HouseIndex)
    ensures |Buildings(SceneOf(g, pick))| == |Footprints(g)|
    ensures forall k :: 0 <= k < |Footprints(g)| ==>
      Buildings(SceneOf(g, pick))[k] == HouseOf(Footprints(g)[k], pick(k)) &&
      Buildings(SceneOf(g, pick))[k].path == Houses[pick(k)] &&
      Buildings(SceneOf(g, pick))[k].transform.scaleX == Min(Footprints(g)[k].width, 8) as real &&
      Buildings(SceneOf(g, pick))[k].transform.scaleZ == Min(Footprints(g)[k].height, 8) as real
  {
    ScanBuildings(g, 0, 0, [], pick);
  }

  /** The widest row: the `processed` array has this many columns. The source
      allocates `mapData[0].length` columns and lets a JavaScript array grow when a
      longer row writes past its end; an unwritten place reads as unprocessed. */
  function MaxWidth(g: Grid): (m: nat)
    ensures forall r :: 0 <= r < |g| ==> |g[r]| <= m
  {
    if |g| == 0 then 0
    else
      var m := MaxWidth(g[..|g| - 1]);
      assert forall r :: 0 <= r < |g| - 1 ==> g[..|g| - 1][r] == g[r];
      if |g[|g| - 1]| > m then |g[|g| - 1]| else m
  }

  /** `processed` is marked exactly on the cells of the footprints `fs`. */
  ghost predicate Marks(g: Grid, processed: array2<bool>, fs: seq<Footprint>)
    reads processed
  {
    processed.Length0 == |g| && (forall r :: 0 <= r < |g| ==> |g[r]| <= processed.Length1)
    && forall r, c :: 0 <= r < processed.Length0 && 0 <= c < processed.Length1 ==>
      (processed[r, c] <==> Covered(fs, r, c))
  }

  /** The test of the second `while`, on the `processed` array: the `every` over
      `slice(x, x + width)`. */
  predicate SliceUnprocessed(g: Grid, processed: array2<bool>, r: nat, x: nat, w: nat)
    requires r < |g| && r < processed.Length0 && |g[r]| <= processed.Length1
    reads processed
  {
    forall c :: x <= c < x + w && c < |g[r]| ==> g[r][c] == '#' && !processed[r, c]
  }

  /** The first `while`: grow `width` over the unprocessed `#` cells to the right. */
  method GrowWidth(g: Grid, processed: array2<bool>, ghost fs: seq<Footprint>, z: nat, x: nat) returns (width: nat)
    requires z < |g| && x < |g[z]| && Marks(g, processed, fs)
    ensures width == RunWidth(g, fs, z, x)
  {
    width := 0;
    while x + width < |g[z]| && g[z][x + width] == '#' && !processed[z, x + width]
      invariant x + width <= |g[z]|
      invariant RunWidth(g, fs, z, x) == width + RunWidth(g, fs, z, x + width)
      decreases |g[z]| - x - width
    {
      width := width + 1;
    }
  }

  /** The second `while`: grow `height` over the rows whose slice is unprocessed `#`
      cells (or that end before the slice does). */
  method GrowHeight(g: Grid, processed: array2<bool>, ghost fs: seq<Footprint>, z: nat, x: nat, width: nat)
    returns (height: nat)
    requires z < |g| && Marks(g, processed, fs)
    ensures height == RunHeight(g, fs, z, x, width)
  {
    height := 0;
    while z + height < |g| && SliceUnprocessed(g, processed, z + height, x, width)
      invariant z + height <= |g|
      invariant RunHeight(g, fs, z, x, width) == height + RunHeight(g, fs, z + height, x, width)
      decreases |g| - z - height
    {
      assert SliceFree(g, fs, z + height, x, width);
      height := height + 1;
    }
    if z + height < |g| {
      assert !SliceFree(g, fs, z + height, x, width);
    }
  }

  /** The marking loops: `processed[z + dz][x + dx] = true` over the footprint. */
  method Mark(g: Grid, processed: array2<bool>, ghost fs: seq<Footprint>, f: Footprint)
    requires Marks(g, processed, fs)
    requires f.z + f.height <= |g| && (f.height > 0 ==> f.width > 0 ==> f.x + f.width <= |g[f.z]|)
    modifies processed
    ensures Marks(g, processed, fs + [f])
  {
    var dz := 0;
    while dz < f.height
      invariant 0 <= dz <= f.height
      invariant forall r, c :: 0 <= r < processed.Length0 && 0 <= c < processed.Length1 ==>
        (processed[r, c] <==> (Covered(fs, r, c) || (f.z <= r < f.z + dz && f.x <= c < f.x + f.width)))
    {
      var dx := 0;
      while dx < f.width
        invariant 0 <= dx <= f.width
        invariant forall r, c :: 0 <= r < processed.Length0 && 0 <= c < processed.Length1 ==>
          (processed[r, c] <==> (Covered(fs, r, c) || (f.z <= r < f.z + dz && f.x <= c < f.x + f.width)
             || (r == f.z + dz && f.x <= c < f.x + dx)))
      {
        processed[f.z + dz, f.x + dx] := true;
        dx := dx + 1;
      }
      dz := dz + 1;
    }
    forall r, c | 0 <= r < processed.Length0 && 0 <= c < processed.Length1
      ensures processed[r, c] <==> Covered(fs + [f], r, c)
    {
      CoveredSnoc(fs, f, r, c);
    }
  }

  /** The filler loops: one cube per cell of the footprint, row after row. */
  method EmitFillers(path: string, colour: Option<seq<real>>, f: Footprint) returns (out: seq<Placement>)
    ensures out == Fillers(path, colour, f.x, f.z, f.width, f.height)
  {
    out := [];
    var dz := 0;
    while dz < f.height
      invariant 0 <= dz <= f.height
      invariant out == Fillers(path, colour, f.x, f.z, f.width, dz)
    {
      var dx := 0;
      while dx < f.width
        invariant 0 <= dx <= f.width
        invariant out == Fillers(path, colour, f.x, f.z, f.width, dz) + FillerRow(path, colour, f.x, f.z + dz, f.width)[..dx]
      {
        out := out + [Placed(path, colour, f.x + dx, 0.0, f.z + dz)];
        dx := dx + 1;
      }
      assert FillerRow(path, colour, f.x, f.z + dz, f.width)[..dx] == FillerRow(path, colour, f.x, f.z + dz, f.width);
      dz := dz + 1;
    }
  }

  lemma MarksRead(g: Grid, processed: array2<bool>, fs: seq<Footprint>, r: nat, c: nat)
    requires Marks(g, processed, fs) && r < |g| && c < |g[r]|
    ensures r < processed.Length0 && c < processed.Length1
    ensures processed[r, c] == Covered(fs, r, c)
  {
  }

  /** The footprint branch of the cell loop: grow the footprint, place its fillers
      and its house (the `width >= 1 && height >= 1` test always passes), then mark
      it processed. */
  method VisitFootprint(g: Grid, processed: array2<bool>, ghost fs: seq<Footprint>, z: nat, x: nat, house: HouseIndex)
    returns (f: Footprint, block: seq<Placement>)
    requires z < |g| && x < |g[z]| && Marks(g, processed, fs) && Starts(g, fs, z, x)
    modifies processed
    ensures f == NewFootprint(g, fs, z, x)
    ensures block == Block(f, house)
    ensures Marks(g, processed, fs + [f])
  {
    var width := GrowWidth(g, processed, fs, z, x);
    var height := GrowHeight(g, processed, fs, z, x, width);
    f := Footprint(z, x, width, height);
    NewFootprintNonEmpty(g, fs, z, x);
    block := [];
    if width >= 1 && height >= 1 {
      block := EmitBlock(f, house);
    }
    Mark(g, processed, fs, f);
  }

  /** The fillers of a footprint and its house, stretched over at most eight by
      eight cells. */
  method EmitBlock(f: Footprint, house: HouseIndex) returns (block: seq<Placement>)
    ensures block == Block(f, house)
  {
    var bw := Min(f.width, 8);
    var bh := Min(f.height, 8);
    block := EmitFillers(GreenCubePath, None, f);
    block := block + [Placement(Houses[house], None,
      Stretch(bw as real, bh as real, bw * bh, f.x as real + bw as real / 2.0 - 0.4, f.z as real + bh as real / 2.0 - 0.5))];
  }

  /** The other branches of the cell loop, for a cell with mark `marked`. */
  method TileAt(cell: char, marked: bool, x: nat, z: nat) returns (tile: seq<Placement>)
    ensures tile == Tile(cell, marked, x, z)
  {
    if (cell == 'v' || cell == '^') && !marked {
      tile := [Placed(CubePath, None, x, 0.0, z)];
    } else if (cell == '<' || cell == '>') && !marked {
      tile := [Placed(TurnCubePath, None, x, 0.0, z)];
    } else if cell == 'S' && !marked {
      tile := [Placed(PlainLightPath, None, x, 1.0, z), Placed(ObjectPath, None, x, 0.0, z)];
    } else if cell == 'A' && !marked {
      tile := [Placed(TreePath, None, x, 1.0, z), Placed(GreenCubePath, None, x, 0.0, z)];
    } else if cell == 'N' && !marked {
      tile := [Placed(GreenCubePath, None, x, 0.0, z)];
    } else if cell == 'O' && !marked {
      tile := [Placed(ObjectPath, None, x, 0.0, z)];
    } else if cell == 'B' && !marked {
      tile := [Placed(BenchPath, None, x, 0.0, z)];
    } else {
      tile := [];
    }
  }

  /** One pass of the outer `for` of visualization/visualization.js: the cells of
      row `z`, left to right. */
  method ScanRow(g: Grid, processed: array2<bool>, pick: nat -> HouseIndex, z: nat,
                 fs0: seq<Footprint>, ps0: seq<Placement>)
    returns (fs: seq<Footprint>, ps: seq<Placement>)
    requires z < |g| && Marks(g, processed, fs0)
    modifies processed
    ensures Marks(g, processed, fs)
    ensures Scan(g, z + 1, 0, fs) == Scan(g, z, 0, fs0)
    ensures ps + ScanPlacements(g, z + 1, 0, fs, pick) == ps0 + ScanPlacements(g, z, 0, fs0, pick)
  {
    fs, ps := fs0, ps0;
    var row := g[z];
    var x := 0;
    while x < |row|
      invariant 0 <= x <= |row|
      invariant Marks(g, processed, fs)
      invariant Scan(g, z, x, fs) == Scan(g, z, 0, fs0)
      invariant ps + ScanPlacements(g, z, x, fs, pick) == ps0 + ScanPlacements(g, z, 0, fs0, pick)
    {
      fs, ps := VisitCell(g, processed, pick, z, x, fs, ps);
      x := x + 1;
    }
    assert Scan(g, z, x, fs) == Scan(g, z + 1, 0, fs);
    assert ScanPlacements(g, z, x, fs, pick) == ScanPlacements(g, z + 1, 0, fs, pick);
  }

  /** One pass of the inner `for`: the cell `(z, x)`. */
  method VisitCell(g: Grid, processed: array2<bool>, pick: nat -> HouseIndex, z: nat, x: nat,
                   fs0: seq<Footprint>, ps0: seq<Placement>)
    returns (fs: seq<Footprint>, ps: seq<Placement>)
    requires z < |g| && x < |g[z]| && Marks(g, processed, fs0)
    modifies processed
    ensures Marks(g, processed, fs)
    ensures Scan(g, z, x + 1, fs) == Scan(g, z, x, fs0)
    ensures ps + ScanPlacements(g, z, x + 1, fs, pick) == ps0 + ScanPlacements(g, z, x, fs0, pick)
  {
    MarksRead(g, processed, fs0, z, x);
    var cell := g[z][x];
    if cell == '#' && !processed[z, x] {
      var f, block := VisitFootprint(g, processed, fs0, z, x, pick(|fs0|));
      assert ScanPlacements(g, z, x, fs0, pick) == block + ScanPlacements(g, z, x + 1, fs0 + [f], pick);
      ps := ps0 + block;
      fs := fs0 + [f];
    } else {
      var tile := TileAt(cell, processed[z, x], x, z);
      assert ScanPlacements(g, z, x, fs0, pick) == tile + ScanPlacements(g, z, x + 1, fs0, pick);
      ps := ps0 + tile;
      fs := fs0;
    }
  }

  /** `generateGeometryFromMap(mapData)` of visualization/visualization.js: the
      footprints it merges and the placements it makes, in order. `pick(k)` is the
      house drawn for the `k`-th footprint. */
  method GenerateGeometry(g: Grid, pick: nat -> HouseIndex) returns (footprints: seq<Footprint>, placements: seq<Placement>)
    ensures footprints == Footprints(g)
    ensures placements == SceneOf(g, pick)
  {
    var processed := new bool[|g|, MaxWidth(g)]((r, c) => false);
    footprints := [];
    placements := [];
    var z := 0;
    while z < |g|
      invariant 0 <= z <= |g|
      invariant Marks(g, processed, footprints)
      invariant Scan(g, z, 0, footprints) == Footprints(g)
      invariant placements + ScanPlacements(g, z, 0, footprints, pick) == SceneOf(g, pick)
    {
      footprints, placements := ScanRow(g, processed, pick, z, footprints, placements);
      z := z + 1;
    }
  }
}
