/** The scene geometry of visualization/visualizationp.js (`generateGeometryFromMap`
    and `generateUniformColors`). It scans the map with the same `processed` array
    and finds the same footprints as visualization/visualization.js, but marks a
    footprint before placing anything, stretches the building over the whole
    footprint (no cap of 8), paints every mesh in one colour per symbol, and places
    a car over a blue base on `N` cells. */
module SceneAlt {
  import opened Common
  import opened MapGrid
  import opened Scene

  const BuildingPath: string := "/obj/edificio2.obj"
  const LightPath: string := "/obj/semaforo.obj"
  const CarPath: string := "/obj/coche.obj"

  const DarkGrey: seq<real> := [0.2, 0.2, 0.2, 1.0]
  const Green: seq<real> := [0.0, 1.0, 0.0, 1.0]
  const Grey: seq<real> := [0.5, 0.5, 0.5, 1.0]
  const Blue: seq<real> := [0.0, 0.0, 1.0, 1.0]
  const White: seq<real> := [1.0, 1.0, 1.0, 1.0]

  /** The building of a footprint: the dark grey building stretched over all of
      it and centred on it. */
  function TowerOf(f: Footprint): Placement
  {
    Placement(BuildingPath, Some(DarkGrey),
      Stretch(f.width as real, f.height as real, f.width * f.height,
              f.x as real + f.width as real / 2.0, f.z as real + f.height as real / 2.0))
  }

  /** The footprint branch: the blue filler cubes, then the building. */
  function BlockAlt(f: Footprint): seq<Placement>
  {
    Fillers(CubePath, Some(Blue), f.x, f.z, f.width, f.height) + [TowerOf(f)]
  }

  /** The other branches of the cell loop for a cell that does not start a
      footprint. `N` and `S` are placed whatever the mark says; a processed `#`
      places nothing. */
  function TileAlt(c: char, processed: bool, x: nat, z: nat): seq<Placement>
  {
    if c == '#' then []
    else if c == 'N' then [Placed(CarPath, Some(White), x, 0.7, z), Placed(CubePath, Some(Blue), x, -1.0, z)]
    else if c == 'S' then [Placed(LightPath, Some(Green), x, 1.0, z), Placed(CubePath, Some(Blue), x, -1.0, z)]
    else if (c == 'v' || c == '<' || c == '>' || c == '^') && !processed then [Placed(CubePath, Some(Grey), x, 0.0, z)]
    else []
  }

  function ScanPlacementsAlt(g: Grid, z: nat, x: nat, fs: seq<Footprint>): seq<Placement>
    requires z < |g| ==> x <= |g[z]|
    decreases |g| - z, if z < |g| then |g[z]| - x else 0
  {
    if z >= |g| then []
    else if x == |g[z]| then ScanPlacementsAlt(g, z + 1, 0, fs)
    else if Starts(g, fs, z, x) then
      var f := NewFootprint(g, fs, z, x);
      BlockAlt(f) + ScanPlacementsAlt(g, z, x + 1, fs + [f])
    else TileAlt(g[z][x], Covered(fs, z, x), x, z) + ScanPlacementsAlt(g, z, x + 1, fs)
  }

  /** Everything the variant `generateGeometryFromMap` places for a map. */
  function SceneAltOf(g: Grid): seq<Placement>
  {
    ScanPlacementsAlt(g, 0, 0, [])
  }

  /** Each footprint places its `width * height` blue fillers and one building. */
  lemma BlockAltShape(f: Footprint)
    ensures |BlockAlt(f)| == f.width * f.height + 1
    ensures BlockAlt(f)[f.width * f.height] == TowerOf(f)
    ensures Buildings(BlockAlt(f)) == [TowerOf(f)]
  {
    var fill := Fillers(CubePath, Some(Blue), f.x, f.z, f.width, f.height);
    FillersCells(CubePath, Some(Blue), f.x, f.z, f.width, f.height);
    FillersFlat(CubePath, Some(Blue), f.x, f.z, f.width, f.height);
    BuildingsConcat(fill, [TowerOf(f)]);
    assert Buildings([TowerOf(f)]) == [TowerOf(f)] by {
      assert [TowerOf(f)][..0] == [];
    }
  }

  function TowerList(all: seq<Footprint>, lo: nat): (ts: seq<Placement>)
    ensures |ts| == if lo <= |all| then |all| - lo else 0
    ensures forall k :: lo <= k < |all| ==> ts[k - lo] == TowerOf(all[k])
    decreases |all| - lo
  {
    if lo >= |all| then [] else [TowerOf(all[lo])] + TowerList(all, lo + 1)
  }

  lemma {:induction false} ScanBuildingsAlt(g: Grid, z: nat, x: nat, fs: seq<Footprint>)
    requires z < |g| ==> x <= |g[z]|
    ensures Buildings(ScanPlacementsAlt(g, z, x, fs)) == TowerList(Scan(g, z, x, fs), |fs|)
    decreases |g| - z, if z < |g| then |g[z]| - x else 0
  {
    if z < |g| {
      if x == |g[z]| {
        ScanRowEndBuildingsAlt(g, z, fs);
      } else if Starts(g, fs, z, x) {
        ScanStartBuildingsAlt(g, z, x, fs);
      } else {
        ScanTileBuildingsAlt(g, z, x, fs);
      }
    }
  }

  /** `ScanBuildingsAlt` at the end of a row. */
  lemma {:induction false} ScanRowEndBuildingsAlt(g: Grid, z: nat, fs: seq<Footprint>)
    requires z < |g|
    ensures Buildings(ScanPlacementsAlt(g, z, |g[z]|, fs)) == TowerList(Scan(g, z, |g[z]|, fs), |fs|)
    decreases |g| - z, 0, 0
  {
    assert ScanPlacementsAlt(g, z, |g[z]|, fs) == ScanPlacementsAlt(g, z + 1, 0, fs);
    assert Scan(g, z, |g[z]|, fs) == Scan(g, z + 1, 0, fs);
    ScanBuildingsAlt(g, z + 1, 0, fs);
  }

  /** `ScanBuildingsAlt` at a cell that starts no footprint. */
  lemma {:induction false} ScanTileBuildingsAlt(g: Grid, z: nat, x: nat, fs: seq<Footprint>)
    requires z < |g| && x < |g[z]| && !Starts(g, fs, z, x)
    ensures Buildings(ScanPlacementsAlt(g, z, x, fs)) == TowerList(Scan(g, z, x, fs), |fs|)
    decreases |g| - z, |g[z]| - x, 0
  {
    var tile := TileAlt(g[z][x], Covered(fs, z, x), x, z);
    var rest := ScanPlacementsAlt(g, z, x + 1, fs);
    assert ScanPlacementsAlt(g, z, x, fs) == tile + rest;
    assert Scan(g, z, x, fs) == Scan(g, z, x + 1, fs);
    ScanBuildingsAlt(g, z, x + 1, fs);
    RowFlat(tile);
    BuildingsConcat(tile, rest);
  }

  /** `ScanBuildingsAlt` at a cell that starts a footprint. */
  lemma {:induction false} ScanStartBuildingsAlt(g: Grid, z: nat, x: nat, fs: seq<Footprint>)
    requires z < |g| && x < |g[z]| && Starts(g, fs, z, x)
    ensures Buildings(ScanPlacementsAlt(g, z, x, fs)) == TowerList(Scan(g, z, x, fs), |fs|)
    decreases |g| - z, |g[z]| - x, 0
  {
    var f := NewFootprint(g, fs, z, x);
    var fs' := fs + [f];
    var all := Scan(g, z, x + 1, fs');
    var rest := ScanPlacementsAlt(g, z, x + 1, fs');
    assert Scan(g, z, x, fs) == all;
    assert ScanPlacementsAlt(g, z, x, fs) == BlockAlt(f) + rest;
    ScanBuildingsAlt(g, z, x + 1, fs');
    ScanExtends(g, z, x + 1, fs');
    assert all[|fs|] == all[..|fs'|][|fs|] == f;
    BlockAltShape(f);
    BuildingsConcat(BlockAlt(f), rest);
    assert TowerList(all, |fs|) == [TowerOf(f)] + TowerList(all, |fs'|);
  }

  /** The variant's buildings: one per footprint, in order, each stretched over the
      full `width` by `height` of its footprint. */
  lemma SceneAltBuildings(g: Grid)
    ensures |Buildings(SceneAltOf(g))| == |Footprints(g)|
    ensures forall k :: 0 <= k < |Footprints(g)| ==>
      Buildings(SceneAltOf(g))[k] == TowerOf(Footprints(g)[k]) &&
      Buildings(SceneAltOf(g))[k].transform.scaleX == Footprints(g)[k].width as real &&
      Buildings(SceneAltOf(g))[k].transform.scaleZ == Footprints(g)[k].height as real &&
      Buildings(SceneAltOf(g))[k].transform.area == Footprints(g)[k].width * Footprints(g)[k].height
  {
    ScanBuildingsAlt(g, 0, 0, []);
  }

  /** The two copies agree on the buildings of a map up to the cap: same number,
      and the `k`-th of visualization/visualization.js is stretched over
      `min(width, 8)` where the variant's is stretched over `width`. */
  lemma BuildingsAgreeUpToCap(g: Grid, pick: nat -> HouseIndex)
    ensures |Buildings(SceneOf(g, pick))| == |Buildings(SceneAltOf(g))| == |Footprints(g)|
    ensures forall k :: 0 <= k < |Footprints(g)| ==>
      Buildings(SceneOf(g, pick))[k].transform.Stretch? && Buildings(SceneAltOf(g))[k].transform.Stretch? &&
      Buildings(SceneOf(g, pick))[k].transform.scaleX <= Buildings(SceneAltOf(g))[k].transform.scaleX &&
      ((Buildings(SceneOf(g, pick))[k].transform.scaleX == Buildings(SceneAltOf(g))[k].transform.scaleX) <==>
       Footprints(g)[k].width <= 8)
  {
    SceneBuildings(g, pick);
    SceneAltBuildings(g);
  }

  /** `generateUniformColors(vertexCount, color)`: the push loop that gives every
      vertex the colour `color`. */
  method UniformColors(vertexCount: nat, colour: seq<real>) returns (colours: seq<real>)
    ensures colours == Repeat(vertexCount, colour)
  {
    colours := [];
    var i := 0;
    while i < vertexCount
      invariant 0 <= i <= vertexCount
      invariant colours == Repeat(i, colour)
    {
      colours := colours + colour;
      i := i + 1;
    }
  }

  /** The variant's footprint branch: grow the footprint and mark it processed
      first, then place its fillers and its building. */
  method VisitFootprintAlt(g: Grid, processed: array2<bool>, ghost fs: seq<Footprint>, z: nat, x: nat)
    returns (f: Footprint, block: seq<Placement>)
    requires z < |g| && x < |g[z]| && Marks(g, processed, fs) && Starts(g, fs, z, x)
    modifies processed
    ensures f == NewFootprint(g, fs, z, x)
    ensures block == BlockAlt(f)
    ensures Marks(g, processed, fs + [f])
  {
    var width := GrowWidth(g, processed, fs, z, x);
    var height := GrowHeight(g, processed, fs, z, x, width);
    f := Footprint(z, x, width, height);
    Mark(g, processed, fs, f);
    block := EmitFillers(CubePath, Some(Blue), f);
    block := block + [Placement(BuildingPath, Some(DarkGrey),
      Stretch(width as real, height as real, width * height, x as real + width as real / 2.0, z as real + height as real / 2.0))];
  }

  method TileAltAt(cell: char, marked: bool, x: nat, z: nat) returns (tile: seq<Placement>)
    ensures tile == TileAlt(cell, marked, x, z)
  {
    if cell == '#' {
      tile := [];
    } else if cell == 'N' {
      tile := [Placed(CarPath, Some(White), x, 0.7, z), Placed(CubePath, Some(Blue), x, -1.0, z)];
    } else if cell == 'S' {
      tile := [Placed(LightPath, Some(Green), x, 1.0, z), Placed(CubePath, Some(Blue), x, -1.0, z)];
    } else if (cell == 'v' || cell == '<' || cell == '>' || cell == '^') && !marked {
      tile := [Placed(CubePath, Some(Grey), x, 0.0, z)];
    } else {
      tile := [];
    }
  }

  method VisitCellAlt(g: Grid, processed: array2<bool>, z: nat, x: nat, fs0: seq<Footprint>, ps0: seq<Placement>)
    returns (fs: seq<Footprint>, ps: seq<Placement>)
    requires z < |g| && x < |g[z]| && Marks(g, processed, fs0)
    modifies processed
    ensures Marks(g, processed, fs)
    ensures Scan(g, z, x + 1, fs) == Scan(g, z, x, fs0)
    ensures ps + ScanPlacementsAlt(g, z, x + 1, fs) == ps0 + ScanPlacementsAlt(g, z, x, fs0)
  {
    MarksRead(g, processed, fs0, z, x);
    var cell := g[z][x];
    if cell == '#' && !processed[z, x] {
      var f, block := VisitFootprintAlt(g, processed, fs0, z, x);
      assert ScanPlacementsAlt(g, z, x, fs0) == block + ScanPlacementsAlt(g, z, x + 1, fs0 + [f]);
      ps := ps0 + block;
      fs := fs0 + [f];
    } else {
      var tile := TileAltAt(cell, processed[z, x], x, z);
      assert ScanPlacementsAlt(g, z, x, fs0) == tile + ScanPlacementsAlt(g, z, x + 1, fs0);
      ps := ps0 + tile;
      fs := fs0;
    }
  }

  method ScanRowAlt(g: Grid, processed: array2<bool>, z: nat, fs0: seq<Footprint>, ps0: seq<Placement>)
    returns (fs: seq<Footprint>, ps: seq<Placement>)
    requires z < |g| && Marks(g, processed, fs0)
    modifies processed
    ensures Marks(g, processed, fs)
    ensures Scan(g, z + 1, 0, fs) == Scan(g, z, 0, fs0)
    ensures ps + ScanPlacementsAlt(g, z + 1, 0, fs) == ps0 + ScanPlacementsAlt(g, z, 0, fs0)
  {
    fs, ps := fs0, ps0;
    var x := 0;
    while x < |g[z]|
      invariant 0 <= x <= |g[z]|
      invariant Marks(g, processed, fs)
      invariant Scan(g, z, x, fs) == Scan(g, z, 0, fs0)
      invariant ps + ScanPlacementsAlt(g, z, x, fs) == ps0 + ScanPlacementsAlt(g, z, 0, fs0)
    {
      fs, ps := VisitCellAlt(g, processed, z, x, fs, ps);
      x := x + 1;
    }
    assert Scan(g, z, x, fs) == Scan(g, z + 1, 0, fs);
    assert ScanPlacementsAlt(g, z, x, fs) == ScanPlacementsAlt(g, z + 1, 0, fs);
  }

  /** The variant `generateGeometryFromMap(mapData)`: the footprints it merges and
      the placements it makes, in order. */
  method GenerateGeometryAlt(g: Grid) returns (footprints: seq<Footprint>, placements: seq<Placement>)
    ensures footprints == Footprints(g)
    ensures placements == SceneAltOf(g)
  {
    var processed := new bool[|g|, MaxWidth(g)]((r, c) => false);
    footprints := [];
    placements := [];
    var z := 0;
    while z < |g|
      invariant 0 <= z <= |g|
      invariant Marks(g, processed, footprints)
      invariant Scan(g, z, 0, footprints) == Footprints(g)
      invariant placements + ScanPlacementsAlt(g, z, 0, footprints) == SceneAltOf(g)
    {
      footprints, placements := ScanRowAlt(g, processed, z, footprints, placements);
      z := z + 1;
    }
  }
}
