# Traffic simulation: a verified model of its core

The system is a city traffic simulation. A mesa model in Python moves cars
over a grid of roads, traffic lights and destinations. A WebGL client in
JavaScript builds the city from an ASCII map, loads OBJ/MTL meshes and
animates the agents it is sent. This project models the pieces of both that
do the real work, and proves what they promise:

- **Animation** (`animation.dfy`, from `visualization/visualization.js`):
  - `interpolatePosition` and `getRotationFromDirection`.
  - The agent table that every snapshot from `getAgents` updates. It is a
    class over a `seq` of agents.
  - `updateAgentPositions`, which advances that table on every frame.
  - The clock `Date.now()` is a parameter `now`.
- **Map and footprints** (`mapgrid.dfy`):
  - How `loadMapFromFile` splits the map text into rows.
  - The greedy merge in `generateGeometryFromMap` that joins `#` cells into
    rectangular footprints.
  - Its results, defined as the function `Footprints`.
- **Scene** (`scene.dfy`: `visualization.js`; `scene_alt.dfy`: `visualizationp.js`):
  - Both `generateGeometryFromMap` functions, as methods over a
    `processed` array (`array2<bool>`) with their `while` loops, proved
    equal to a function of the map. A placed mesh is recorded by its path and
    its transform.
  - `generateUniformColors`.
  - The random house draw is a parameter `pick`: `pick(k)` is the draw for
    the `k`-th footprint.
- **Mesh loaders** (`meshes.dfy`: `visualization.js`; `meshes_alt.dfy`: `visualizationp.js`):
  - `loadMtl`, `loadObj` and `normalizeVertices` in both files.
  - `getTerrainHeight`.
  - Lines come already classified (`v`, `vn`, `f`, `usemtl`, `newmtl`, `Ka`,
    ...) with their numbers parsed. Face tokens stay text, because how they
    are split matters.
  - A JavaScript `TypeError`, such as spreading `undefined` when a face names
    a vertex that does not exist, or setting a field before any `newmtl`, is a
    `Failure` result.
- **Traffic** (`traffic.dfy`, from `server/traffic/agent.py`):
  - `Traffic_Light.step`, `Car.is_valid_move`, `Car.bfs`, `Car.move` and
    `Destination.remove_agent`.
  - The mesa `MultiGrid` (bounded, not a torus) is a class holding a map from
    cells to the agents in them.
  - A car, a light or a destination is represented in a cell by the
    attributes these rules read.

## Notes on the source

- `normalizeVertices` takes its bounds over every `v` line, including
  vertices that no face uses (visualization/visualization.js:676-680,
  visualization/visualizationp.js:585-590).
- `t = Math.min(elapsedTime / interpolationDuration, 1)`
  (visualization/visualization.js:161) is bounded above by 1 and not below: an
  agent whose start time lies after `now` gets a negative `t`.
- In server/traffic/agent.py the string at line 16 starts at column 0. That
  ends the body of `class Car`, so the indented `def bfs` after it does not
  parse. The model reads lines 17-124 as methods of `Car`.
- In `Car.move` the branch "the next cell holds a car, wait"
  (server/traffic/agent.py:83-85) is never taken. The route comes from `bfs`
  on the same grid, and `bfs` skips cells with cars
  (server/traffic/agent.py:48-52). The model marks that branch dead.

## Model

| member | source | states |
|---|---|---|
| Common.Split | visualization/visualization.js:275 | `split(sep)`: the pieces between the occurrences of the separator, left to right; JoinSplit, SplitPieceCount and SplitPiecesFree state what they are |
| Common.JoinSplit | visualization/visualization.js:275 | joining the pieces of `split(sep)` with `sep` gives back the text exactly |
| Common.SplitPieceCount | visualization/visualization.js:275 | splitting on one character gives one more piece than the text has separators |
| Common.SplitPiecesFree | visualization/visualization.js:275 | no piece of a split contains the separator |
| Common.ParseIntDecimal | visualization/visualization.js:645 | `parseInt` of a decimal numeral followed by a non-digit yields exactly that number |
| Common.ParseInt | visualization/visualization.js:645 | `parseInt(x, 10)`: an optional sign and the longest run of digits, NaN (`None`) without digits; ParseIntDecimal states its value |
| Common.Repeat | visualization/visualizationp.js:369-375 | `n` copies of a sequence one after another, as `generateUniformColors` and the variant colour buffer build them |
| Animation.Lerp | visualization/visualization.js:72-74 | the interpolated point has one coordinate per coordinate of `start` |
| Animation.LerpEndpoints | visualization/visualization.js:72-74 | `t = 0` gives the start and `t = 1` gives the end |
| Animation.LerpBetween | visualization/visualization.js:72-74 | for `0 <= t <= t' <= 1` every coordinate lies between its start and end values and moves monotonically towards the end as `t` grows |
| Animation.RotationFromDirection | visualization/visualization.js:492-500 | the angle lies in `[-π/2, π]` |
| Animation.RotationTable | visualization/visualization.js:492-500 | gives the angle for `v`, `^`, `>` and `<`; any other symbol gives 0; opposite symbols face angles π apart |
| Animation.IndexOf | visualization/visualization.js:101 | `agents.find` gives the first agent with the id, and `None` exactly when no agent has it |
| Animation.IndexOfFirst | visualization/visualization.js:101 | the first index holding the id is the one found |
| Animation.Spawn | visualization/visualization.js:117-133 | a new agent starts, ends and is drawn at the reported position, timed `now`, turned by its symbol |
| Animation.Retarget | visualization/visualization.js:103-115 | a changed agent moves from where it is drawn now towards the reported position, timed `now`, with the new symbol and rotation; its drawn position is untouched |
| Animation.ApplyReport | visualization/visualization.js:94-139 | an unknown id is appended as a new agent; a known id is retargeted exactly when its drawn position or symbol differs from the report, and is left alone otherwise |
| Animation.ApplyReportIds | visualization/visualization.js:94-139 | the ids after one report are the ids before plus the reported id |
| Animation.ApplyReports | visualization/visualization.js:94-139 | the reports of a snapshot applied in order; ApplyReportsIds and ApplyReportsWellFormed state their effect |
| Animation.ApplyReportsIds | visualization/visualization.js:94-139 | after the `for` loop over the snapshot, the ids are the earlier ids plus every reported id |
| Animation.ApplyReportsPrefix | visualization/visualization.js:94-139 | the loop over the first `n + 1` reports is the loop over the first `n` followed by report `n` |
| Animation.KeepReported | visualization/visualization.js:141 | the filter keeping the agents whose id was reported; KeepReportedIds and KeepReportedSubsequence state what it keeps |
| Animation.KeepReportedIds | visualization/visualization.js:141 | the filter keeps exactly the agents whose ids were reported |
| Animation.KeepReportedSubsequence | visualization/visualization.js:141 | the filter keeps only agents already present with a reported id, and keeps ids unique |
| Animation.Merge | visualization/visualization.js:86-141 | the whole effect of one snapshot: nothing when it is empty, else every report applied and the unreported agents dropped; MergeIds and MergeWellFormed state its effect |
| Animation.MergeIds | visualization/visualization.js:86-141 | an empty snapshot leaves the table unchanged; otherwise the table afterwards holds exactly the reported ids |
| Animation.ApplyReportWellFormed | visualization/visualization.js:94-139 | one report keeps the ids unique and every position three-dimensional |
| Animation.ApplyReportsWellFormed | visualization/visualization.js:94-139 | the whole loop over a snapshot keeps the ids unique and every position three-dimensional |
| Animation.MergeWellFormed | visualization/visualization.js:86-141 | after a whole snapshot the ids are unique and every position is three-dimensional |
| Animation.Progress | visualization/visualization.js:159-161 | `t = min(elapsed / 1000, 1)` is at most 1, equals 1 once 1000 ms have passed, and is non-negative when elapsed time is |
| Animation.PositionAt | visualization/visualization.js:160-163 | the interpolated position of one agent at `now`, from its start, end and start time; TickPositions states it at the start time, after 1000 ms and in between |
| Animation.Tick | visualization/visualization.js:155-166 | `updateAgentPositions` at time `now`: every position recomputed from start, end and start time; TickPositions states the positions |
| Animation.TickPositions | visualization/visualization.js:155-166 | 1000 ms after the start an agent is at its end; at its start time it is at its start; in between it is inside the box spanned by start and end |
| Animation.HalfwayExample | visualization/visualization.js:94-166 | a car reported at x = 0 and then at x = 2 is drawn at x = 1 after 500 ms |
| Animation.RepeatedTargetRestarts | visualization/visualization.js:103-115 | re-reporting the end position of an agent still on its way restarts its interpolation from where it is drawn, because the comparison is with `position` and not `endPosition` |
| Animation.AgentTable.Find | visualization/visualization.js:101 | returns the index `agents.find` finds |
| Animation.AgentTable.OnSnapshot | visualization/visualization.js:79-146 | the table becomes the merge of the old table with the snapshot, ids stay unique |
| Animation.AgentTable.Apply | visualization/visualization.js:94-139 | the table becomes the old table with one report applied |
| Animation.AgentTable.UpdatePositions | visualization/visualization.js:155-166 | the table becomes the old table with every agent advanced to `now` |
| Animation.KeepOnly | visualization/visualization.js:141 | the filtering loop yields the agents whose ids were reported, in order |
| MapGrid.ParseMap | visualization/visualization.js:275 | a map text has at least one row |
| MapGrid.ParseMapRows | visualization/visualization.js:275 | there is one row more than the text has newlines, no row holds a newline, and the rows joined by newlines give back the text |
| MapGrid.RunWidth | visualization/visualization.js:324-326 | the width loop covers unprocessed `#` cells only and stops at the first cell that is not one, or at the end of the row |
| MapGrid.RunHeight | visualization/visualization.js:328-333 | the height loop takes rows whose slice is all unprocessed `#` and stops at the first row that is not |
| MapGrid.NewFootprintGood | visualization/visualization.js:320-333 | a footprint grown from an unprocessed `#` contains its origin, is at least 1 by 1, and holds only `#` cells |
| MapGrid.NewFootprintDisjoint | visualization/visualization.js:320-377 | the new footprint overlaps none of those found before it |
| MapGrid.Scan | visualization/visualization.js:315-377 | the row-major greedy merge from a cell on; ScanGood, ScanDisjoint and ScanCovers state what it finds |
| MapGrid.ScanGood | visualization/visualization.js:315-377 | every footprint the scan finds holds only `#` cells |
| MapGrid.ScanDisjoint | visualization/visualization.js:315-377 | the footprints the scan finds are pairwise disjoint |
| MapGrid.ScanCovers | visualization/visualization.js:315-377 | when the scan ends, every `#` cell is covered by a footprint |
| MapGrid.Footprints | visualization/visualization.js:315-377 | the footprints of a map in the order the merge finds them; FootprintsSound and RectangularPartition state what they cover |
| MapGrid.FootprintsSound | visualization/visualization.js:315-377 | on any map the footprints are `#`-only rectangles, pairwise disjoint, and cover every `#` cell |
| MapGrid.OtherCellsUnprocessed | visualization/visualization.js:373-376 | a cell that is not `#` is never covered by a footprint |
| MapGrid.RectangularPartition | visualization/visualization.js:315-377 | on a rectangular map every `#` cell lies in exactly one footprint, and footprints hold nothing else |
| MapGrid.SquareExample | visualization/visualization.js:315-377 | a 2 by 2 block of `#` becomes one 2 by 2 footprint |
| MapGrid.TrailingRowExample | visualization/visualization.js:275-333 | a final newline adds an empty row, and the footprint's height loop runs on over cells that row does not have |
| Scene.FillerRow | visualization/visualization.js:345-360 | one filler cube per cell of a footprint row |
| Scene.FillersCells | visualization/visualization.js:345-360 | a footprint gets `width * height` filler cubes, and the one for cell `(dz, dx)` sits at `(x + dx, z + dz)` |
| Scene.FillersFlat | visualization/visualization.js:345-360 | filler cubes are not buildings |
| Scene.HouseOf | visualization/visualization.js:336-371 | the house of a footprint, scaled by its width and height capped at 8 and moved by `-0.4` and `-0.5`; SceneBuildings and BuildingsAgreeUpToCap state what it places |
| Scene.Block | visualization/visualization.js:336-371 | the footprint branch: the `width * height` filler cubes, then the house; BlockShape states it |
| Scene.BlockShape | visualization/visualization.js:335-372 | a footprint places its fillers and then exactly one building, its house |
| Scene.TileFlat | visualization/visualization.js:378-476 | a cell that does not start a footprint places no building |
| Scene.Tile | visualization/visualization.js:378-476 | the meshes placed, by cell character, for a cell that starts no footprint, nothing on a cell already marked; TileFlat states it places no building |
| Scene.SceneOf | visualization/visualization.js:282-476 | everything `generateGeometryFromMap` places for a map; SceneBuildings states its buildings, given that every mesh file loads |
| Scene.SceneBuildings | visualization/visualization.js:282-476 | the buildings of the scene are one house per footprint, in scan order, with the drawn path and a stretch of `min(width, 8)` by `min(height, 8)` |
| Scene.ScanExtends | visualization/visualization.js:315-377 | the scan only appends footprints to those found before |
| Scene.ScanBuildings | visualization/visualization.js:315-476 | the buildings the scan places from a cell on are the houses of the footprints it finds from there, in order |
| Scene.MaxWidth | visualization/visualization.js:311-313 | the `processed` array is as wide as the longest row |
| Scene.GrowWidth | visualization/visualization.js:321-326 | the width loop's result is the run width of the footprint |
| Scene.GrowHeight | visualization/visualization.js:322-333 | the height loop's result is the run height of the footprint |
| Scene.EmitFillers | visualization/visualization.js:345-360 | the nested filler loops place exactly the footprint's fillers |
| Scene.Mark | visualization/visualization.js:373-377 | marking a footprint makes the `processed` array record exactly the cells covered by the footprints found so far, the new one included |
| Scene.VisitFootprint | visualization/visualization.js:320-377 | the footprint branch finds the new footprint, places its block and marks its cells processed |
| Scene.EmitBlock | visualization/visualization.js:335-372 | the block of a footprint: its fillers, then its house stretched over at most eight by eight cells |
| Scene.TileAt | visualization/visualization.js:378-476 | the other branches place the meshes of the cell's symbol |
| Scene.VisitCell | visualization/visualization.js:318-476 | one cell of the scan extends the footprints and placements as the scan function does |
| Scene.ScanRow | visualization/visualization.js:315-476 | one row of the scan extends the footprints and placements as the scan function does |
| Scene.GenerateGeometry | visualization/visualization.js:282-476 | the method finds exactly the footprints of the map and places exactly the scene of the map |
| SceneAlt.TowerOf | visualization/visualizationp.js:248-283 | the dark grey building of a footprint, stretched over all of it and centred on it; SceneAltBuildings and BuildingsAgreeUpToCap state what it places |
| SceneAlt.BlockAlt | visualization/visualizationp.js:255-283 | the variant footprint branch: the blue filler cubes, then the building; BlockAltShape states it |
| SceneAlt.BlockAltShape | visualization/visualizationp.js:242-284 | a footprint places its fillers and then exactly one building |
| SceneAlt.ScanBuildingsAlt | visualization/visualizationp.js:221-361 | the buildings the scan places from a cell on are the towers of the footprints it finds from there, in order |
| SceneAlt.TileAlt | visualization/visualizationp.js:286-361 | the variant meshes placed, by cell character, for a cell that starts no footprint, nothing on a cell already marked |
| SceneAlt.SceneAltOf | visualization/visualizationp.js:194-366 | everything the variant `generateGeometryFromMap` places; SceneAltBuildings states its buildings, given that every mesh file loads |
| SceneAlt.SceneAltBuildings | visualization/visualizationp.js:194-366 | the buildings are one tower per footprint, in scan order, stretched over the whole footprint, with the area under the square root equal to `width * height` |
| SceneAlt.BuildingsAgreeUpToCap | visualization/visualizationp.js:248-252 | both files place one building per footprint; this file's stretch is never narrower, and the two are equal exactly when the width is at most 8 |
| SceneAlt.UniformColors | visualization/visualizationp.js:369-375 | `generateUniformColors(n, c)` is `n` copies of `c`, concatenated |
| SceneAlt.VisitFootprintAlt | visualization/visualizationp.js:226-284 | the footprint branch marks the footprint and then places its block |
| SceneAlt.TileAltAt | visualization/visualizationp.js:286-361 | the other branches place the meshes and colours of the cell's symbol |
| SceneAlt.VisitCellAlt | visualization/visualizationp.js:223-361 | one cell of the scan extends the footprints and placements as the scan function does |
| SceneAlt.ScanRowAlt | visualization/visualizationp.js:221-361 | one row of the scan extends the footprints and placements as the scan function does |
| SceneAlt.GenerateGeometryAlt | visualization/visualizationp.js:194-366 | the method finds exactly the footprints of the map (the same as the other file) and places exactly this file's scene |
| MeshLoader.MtlFromKnown | visualization/visualization.js:590-617 | the current material is always a key of the table |
| MeshLoader.MtlStep | visualization/visualization.js:590-617 | one line of `loadMtl`: `newmtl` creates the default material, a field line sets that field of the current one or throws without one |
| MeshLoader.MaterialsOf | visualization/visualization.js:584-620 | `loadMtl`: the material table, or the throw; MtlFailsIff, NewMtlResets and FieldLineSetsOnlyItsField state it |
| MeshLoader.MtlFailsIff | visualization/visualization.js:590-617 | `loadMtl` throws exactly when a `Ka`/`Kd`/`Ks`/`Ns`/`d` line comes before any `newmtl` |
| MeshLoader.MtlFromNeverFails | visualization/visualization.js:590-617 | once a material is current, no later line can throw |
| MeshLoader.MtlFromConcat | visualization/visualization.js:590-617 | reading `a + b` is reading `a` and then `b` from where `a` left off |
| MeshLoader.NewMtlResets | visualization/visualization.js:595-598 | `newmtl` (re)creates the named material with the defaults and makes it current |
| MeshLoader.FieldLineSetsOnlyItsField | visualization/visualization.js:599-613 | a field line changes only its own field of the current material, and nothing else in the table |
| MeshLoader.LoadMtl | visualization/visualization.js:584-620 | the loop computes the material table, or the throw |
| MeshLoader.Lo | visualization/visualization.js:676-681 | the running minimum of one coordinate over the vertices; LoLeast states it is the least |
| MeshLoader.LoLeast | visualization/visualization.js:676-681 | the minimum is at most every vertex's coordinate and is some vertex's coordinate |
| MeshLoader.Hi | visualization/visualization.js:676-681 | the running maximum of one coordinate over the vertices; HiGreatest states it is the greatest |
| MeshLoader.HiGreatest | visualization/visualization.js:676-681 | the maximum is at least every vertex's coordinate and is some vertex's coordinate |
| MeshLoader.MaxRange | visualization/visualization.js:688 | the range is at least the extent on every axis |
| MeshLoader.NormalizeVertex | visualization/visualization.js:690-694 | one vertex moved by the centre of the bounding box and divided by `maxRange`; AxisNormalized gives each coordinate, NormalizeInUnitCube and NormalizeCentredUnit state where it lands |
| MeshLoader.AxisNormalized | visualization/visualization.js:690-694 | coordinate `a` of a normalised vertex is that coordinate minus the centre on axis `a`, over `maxRange` |
| MeshLoader.Normalize | visualization/visualization.js:690-694 | one normalised vertex per vertex |
| MeshLoader.NormalizeInUnitCube | visualization/visualization.js:672-695 | every normalised coordinate lies in `[-0.5, 0.5]` |
| MeshLoader.NormalizeCentredUnit | visualization/visualization.js:672-695 | the normalised vertices have their bounding box centred at the origin on every axis, and its largest extent is exactly 1 |
| MeshLoader.FaceIndex | visualization/visualization.js:645 | the first `/` field of a face reference through `parseInt(x, 10) - 1`: `None` for an empty field (undefined) and for text without digits (NaN); RefIndexAt and FaceCorner state how faces use it |
| MeshLoader.ColourOf | visualization/visualization.js:652-657 | the current material's `Kd` and `d` when `currentMaterialName` is non-empty and names a defined material, otherwise opaque white; FaceStepShape and FaceColours state that every corner gets it |
| MeshLoader.FaceStep | visualization/visualization.js:643-660 | the references of one `f` line in order: each in-range index appends a corner in the current colour, the first one out of range is the TypeError; FaceStepEffect, FaceStepSucceeds, FaceStepShape and FaceStepError state it |
| MeshLoader.ObjStep | visualization/visualization.js:634-670 | one line of `loadObj`: a vertex is appended, a face is read, `usemtl` selects the material, anything else is skipped |
| MeshLoader.FaceStepValid | visualization/visualization.js:644-661 | reading a face keeps every corner on a vertex already read |
| MeshLoader.ObjFromValid | visualization/visualization.js:634-670 | reading lines keeps every corner on a vertex already read |
| MeshLoader.Vertices | visualization/visualization.js:700-704 | the vertex index of each corner, in order |
| MeshLoader.PositionsShape | visualization/visualization.js:699-704 | the positions hold three numbers per corner: the normalised coordinates of its vertex |
| MeshLoader.ColoursShape | visualization/visualization.js:649-658 | the colours hold four numbers per corner: its colour |
| MeshLoader.FaceStepEffect | visualization/visualization.js:644-661 | a face succeeds exactly when every reference names a vertex already read; it then appends one corner per reference, with that vertex and the current colour, and changes nothing else |
| MeshLoader.FaceStepSucceeds | visualization/visualization.js:644-650 | a face succeeds if and only if every one of its references names a vertex already read |
| MeshLoader.FaceStepShape | visualization/visualization.js:649-661 | a face that succeeds keeps the vertices, the material and the earlier corners, and appends one corner per reference, on that reference's vertex and in the current colour |
| MeshLoader.FaceStepError | visualization/visualization.js:650 | a face that fails fails with a bad face index |
| MeshLoader.ObjFromConcat | visualization/visualization.js:634-670 | reading `a + b` is reading `a` and then `b` |
| MeshLoader.ObjFromEffect | visualization/visualization.js:634-670 | reading only appends vertices and corners, and the current material is the last `usemtl` |
| MeshLoader.FaceColours | visualization/visualization.js:644-664 | corner `k` of a face is coloured by the material of the last `usemtl` before the face, and stands on the vertex that reference `k` names |
| MeshLoader.FaceThenRest | visualization/visualization.js:644-670 | corner `k` of a face keeps its colour and its vertex through the rest of the file |
| MeshLoader.FaceCorner | visualization/visualization.js:649-658 | corner `k` of a face that succeeds stands on the vertex that reference `k` names, in the current colour |
| MeshLoader.FaceLine | visualization/visualization.js:643-661 | a face line reads as one face step |
| MeshLoader.RefIndexAt | visualization/visualization.js:644-647 | entry `k` of the indices of a face is the zero-based vertex its reference `k` names: the first `/` field minus one, `None` for an empty field or one without digits |
| MeshLoader.CornerKept | visualization/visualization.js:634-670 | later lines never change earlier corners |
| MeshLoader.ObjFailsIff | visualization/visualization.js:644-650 | `loadObj` throws exactly when some face names a vertex not yet read, and the throw is a bad face index |
| MeshLoader.MeshOf | visualization/visualization.js:672-706 | the mesh of the parsed lines: positions normalised over every vertex, colours per face-vertex; `ZeroExtent` when faces exist and every vertex coincides |
| MeshLoader.LoadObjOf | visualization/visualization.js:622-707 | `loadObj`: materials, then lines, then the mesh, each error passed on; ObjFailsIff and LoadedMeshShape state it |
| MeshLoader.LoadedMeshShape | visualization/visualization.js:697-706 | a loaded mesh has three position numbers and four colour numbers per corner, and the positions are the normalised coordinates of the corners' vertices |
| MeshLoader.ReadFace | visualization/visualization.js:644-660 | the face loop succeeds exactly when the face step does, builds its corners, and pushes their colours |
| MeshLoader.ReadLines | visualization/visualization.js:633-670 | the line loop computes the state that reading the lines gives, and the colours of its corners |
| MeshLoader.Positions | visualization/visualization.js:699-704 | the final loop pushes the normalised coordinates of every corner's vertex |
| MeshLoader.LoadObj | visualization/visualization.js:622-707 | the method computes the mesh of the file, or the error |
| MeshLoaderAlt.AltKnownFrom | visualization/visualizationp.js:625-636 | the current material is always a key of the table |
| MeshLoaderAlt.FieldsWithoutNewMtlIgnored | visualization/visualizationp.js:630-635 | before any `newmtl`, `Kd` and `d` lines are ignored instead of throwing |
| MeshLoaderAlt.MtlAltFromConcat | visualization/visualizationp.js:625-636 | reading `a + b` is reading `a` and then `b` |
| MeshLoaderAlt.KdAndDOnCurrent | visualization/visualizationp.js:630-635 | `Kd` replaces the current material by the colour with alpha 1; `d` sets only the alpha |
| MeshLoaderAlt.NewMtlOpaque | visualization/visualizationp.js:627-629 | `newmtl` sets the named material to opaque white |
| MeshLoaderAlt.AgreeFrom | visualization/visualizationp.js:619-639 | the two `loadMtl`s agree line by line when every `newmtl` has a name and no `Kd` follows a `d` |
| MeshLoaderAlt.MaterialsAgree | visualization/visualizationp.js:619-639 | under those conditions both give the same names, and this file's colour is the other's `Kd` with its `d` |
| MeshLoaderAlt.KdAfterDDiffers | visualization/visualizationp.js:630-634 | a `Kd` after a `d` resets the alpha to 1 here, but keeps it in the other file |
| MeshLoaderAlt.MtlAltStep | visualization/visualizationp.js:619-639 | one line of the variant `loadMtl`: `newmtl` gives white, `Kd` sets the colour with opacity 1, `d` sets the opacity, only on a current material |
| MeshLoaderAlt.MaterialsAlt | visualization/visualizationp.js:619-639 | the variant `loadMtl`; KdAndDOnCurrent, NewMtlOpaque and MaterialsAgree state it |
| MeshLoaderAlt.LoadMtlAlt | visualization/visualizationp.js:619-639 | the loop computes the material table |
| MeshLoaderAlt.FieldIndex | visualization/visualizationp.js:559 | one field of `split("//")` through `parseInt(x, 10) - 1`: `None` when missing, empty or without digits; FieldIndexDecimal gives its value on a numeral |
| MeshLoaderAlt.FieldIndexDecimal | visualization/visualizationp.js:559 | a present field holding the numeral of `n` reads as index `n - 1` |
| MeshLoaderAlt.RefOf | visualization/visualizationp.js:559 | a face reference read as its vertex (field 0) and its normal (field `normalField`); AsWrittenPairHasNoNormal and IntendedPairHasNormal state what `v//n` yields |
| MeshLoaderAlt.FaceCorners | visualization/visualizationp.js:558-565 | a parsed face has one corner per reference, each with a vertex already read |
| MeshLoaderAlt.FaceCornersIff | visualization/visualizationp.js:558-565 | a face parses exactly when every reference's vertex is in range, and each corner carries its reference's vertex and normal |
| MeshLoaderAlt.MaterialColour | visualization/visualizationp.js:569 | `materials[materialName]`, falling back to `[1.0, 1.0, 1.0, 1.0]`: the named material's colour, white when the file defines none of that name; ColourFrom states the colour in use is the last one selected |
| MeshLoaderAlt.ObjAltStep | visualization/visualizationp.js:550-573 | one line of the variant: `vn` appends a normal and sets `hasNormals`, `v` appends a vertex, `f` appends its face-vertices or is dropped, `usemtl` selects the colour; HasNormalsFrom, BadFaceDropped and ColourFrom state it |
| MeshLoaderAlt.NoNormalsStep | visualization/visualizationp.js:559 | as written, a line whose references have at most two `//` fields adds no face-vertex with a normal index |
| MeshLoaderAlt.ObjAltFrom | visualization/visualizationp.js:549-574 | reading lines keeps every corner's vertex index in range |
| MeshLoaderAlt.AltVertices | visualization/visualizationp.js:604-606 | the vertex index of each corner, in order |
| MeshLoaderAlt.ObjAltFromConcat | visualization/visualizationp.js:549-574 | reading `a + b` is reading `a` and then `b` |
| MeshLoaderAlt.HasNormalsFrom | visualization/visualizationp.js:552-554 | `hasNormals` is set exactly when some line is a `vn` |
| MeshLoaderAlt.MeshAltOf | visualization/visualizationp.js:576-616 | the variant mesh of the parsed lines: `null` (`NoNormals`) without `vn`, `DegenerateExtent` when faces exist and every vertex coincides, else positions, in-range normals and the current colour per face-vertex; MeshAltShape states it |
| MeshLoaderAlt.LoadObjAltOf | visualization/visualizationp.js:533-617 | the variant `loadObj`, reading normals from a given field of each face reference |
| MeshLoaderAlt.NoNormalsIff | visualization/visualizationp.js:576-579 | the loader returns null exactly when the file has no `vn` line |
| MeshLoaderAlt.AltVerticesCount | visualization/visualizationp.js:555-556 | one vertex per `v` line |
| MeshLoaderAlt.BadFaceDropped | visualization/visualizationp.js:560-573 | a face naming an unread vertex is dropped: the file loads as if that line were absent |
| MeshLoaderAlt.ColourFrom | visualization/visualizationp.js:567-570 | the colour in use is the one the last `usemtl` selected |
| MeshLoaderAlt.FlatNormals | visualization/visualizationp.js:604-610 | the normal numbers pushed per face-vertex, only for an index in range; NormalsShape and FlatNormalsEmpty state it |
| MeshLoaderAlt.FlatNormalsEmpty | visualization/visualizationp.js:608-610 | face-vertices without normal indices push no normal numbers |
| MeshLoaderAlt.NormalsShape | visualization/visualizationp.js:608-610 | at most three normal numbers per corner, whole normals only |
| MeshLoaderAlt.LoadedAltShape | visualization/visualizationp.js:602-616 | a loaded mesh has three position numbers per kept face-vertex, the coordinates of its vertex normalised over all `v` lines; at most as many normal numbers; four colour numbers per face-vertex, all the colour of the last `usemtl` |
| MeshLoaderAlt.MeshAltShape | visualization/visualizationp.js:602-616 | the mesh of any state that loads has three position numbers per face-vertex, the normalised coordinates of its vertex; at most as many normal numbers; four colour numbers per face-vertex, every colour the current one |
| MeshLoaderAlt.AsWrittenPairHasNoNormal | visualization/visualizationp.js:559 | as written, a `v//n` reference yields its vertex and no normal |
| MeshLoaderAlt.IntendedPairHasNormal | visualization/visualizationp.js:559 | reading the second field yields both the vertex and the normal of `v//n` |
| MeshLoaderAlt.NoNormalsFrom | visualization/visualizationp.js:558-565 | as written, no corner of a file of `v//n` references gets a normal index |
| MeshLoaderAlt.AsWrittenDropsNormals | visualization/visualizationp.js:558-614 | as written, a file whose faces use `v//n` loads with no normals at all |
| MeshLoaderAlt.ReadFaceAlt | visualization/visualizationp.js:558-565 | the face loop computes the face's corners, or the throw |
| MeshLoaderAlt.ReadLinesAlt | visualization/visualizationp.js:549-574 | the line loop computes the state that reading the lines gives |
| MeshLoaderAlt.EmitAlt | visualization/visualizationp.js:604-614 | the final loop pushes positions, the normals in range, and one colour per corner |
| MeshLoaderAlt.LoadObjAlt | visualization/visualizationp.js:533-617 | the method computes the mesh of the file, or the error, reading normals from field `normalField` of `split("//")`: `AsWrittenNormalField` (2) is the code as written, `IntendedNormalField` (1) its correction |
| MeshLoaderAlt.TerrainHeight | visualization/visualizationp.js:438-447 | `getTerrainHeight`: element `(z * mapWidth + x) * 3 + 1` of the position data, 0 past its end; TerrainHeightInside and TerrainHeightOutside state it |
| MeshLoaderAlt.TerrainHeightInside | visualization/visualizationp.js:438-447 | inside the data, the height of cell `(x, z)` is the second coordinate of vertex `z * width + x` |
| MeshLoaderAlt.TerrainHeightOutside | visualization/visualizationp.js:441-444 | past the end of the data the height is 0 |
| Traffic.Tick | server/traffic/agent.py:142-146 | one `step` of a light: the timer counts up, and on reaching the period the light switches and the timer restarts |
| Traffic.Run | server/traffic/agent.py:142-146 | `n` steps of a light; RunFromZero, TimerInRange and SwitchesExactlyEachPeriod state it |
| Traffic.RunFromZero | server/traffic/agent.py:142-146 | from timer 0, after `n` steps the timer is `n mod timeToChange`, and the state has flipped once per completed period |
| Traffic.TimerInRange | server/traffic/agent.py:142-146 | the timer stays in `[0, timeToChange)` |
| Traffic.SwitchesExactlyEachPeriod | server/traffic/agent.py:142-146 | the light switches at step `n + 1` exactly when `n + 1` is a multiple of `timeToChange` |
| Traffic.TrafficLight.constructor | server/traffic/agent.py:135-140 | a new light has the given state and period, and timer 0 |
| Traffic.TrafficLight.Step | server/traffic/agent.py:142-146 | the light's new state is one tick of the old |
| Traffic.FirstRoadDirection | server/traffic/agent.py:105-108 | a first road direction exists exactly when the cell holds a road |
| Traffic.IsValidMove | server/traffic/agent.py:91-124 | `is_valid_move`: a destination cell only for its own car, no cell without road or light, a road by its direction, a light always; ValidMoveCases and RoadDirections state it |
| Traffic.ValidMoveCases | server/traffic/agent.py:91-124 | a destination cell admits only the car heading there; otherwise a cell with neither road nor light admits nothing; a cell with a light admits any move; a road cell without a light admits exactly the moves along its first road's direction |
| Traffic.RoadDirections | server/traffic/agent.py:105-117 | `Right` admits moves that increase x, `Left` moves that decrease it, `Up` moves that increase y, `Down` moves that decrease it, and any other direction admits none |
| Traffic.Neighbourhood | server/traffic/agent.py:37 | the neighbours are exactly the in-grid cells of the 3 by 3 block around a cell, without the cell itself |
| Traffic.WalkBound | server/traffic/agent.py:31-52 | along any walk from the start, a cell within the first layers reached is recorded with a route no longer than the walk |
| Traffic.ReachAll | server/traffic/agent.py:31-53 | once every recorded cell is processed, every walk from the start stays on recorded cells |
| Traffic.ShortestOnPop | server/traffic/agent.py:32-35 | the route with which the destination leaves the queue is a shortest one, without repeated cells |
| Traffic.UnreachableOnEmpty | server/traffic/agent.py:31-53 | when the queue empties without reaching the destination, no walk reaches it |
| Traffic.RecordedAdd | server/traffic/agent.py:50-52 | extending a recorded route by an admissible unvisited neighbour records a valid route without repeats |
| Traffic.Enqueues | server/traffic/agent.py:40-50 | the loop's test: not visited, admitted by `is_valid_move`, no car in the cell |
| Traffic.Admitted | server/traffic/agent.py:39-52 | the entries the neighbour loop appends: in the order of the neighbours, each one passing the test (a neighbour queued earlier in the loop counts as visited), with the route extended by it |
| Traffic.AdmittedSound | server/traffic/agent.py:39-52 | every appended entry is a listed neighbour, not visited before, admitted by the move rule, without a car, with route `curPath + [v]`; no neighbour is appended twice |
| Traffic.AdmittedComplete | server/traffic/agent.py:39-52 | every listed neighbour that the move rule admits and that has no car was visited before or is appended |
| Traffic.Expand | server/traffic/agent.py:39-52 | the neighbour loop appends to the queue exactly `Admitted` of the neighbours, in their order, and marks exactly those cells visited; the new routes keep the search invariant (`Grown`), and every admissible car-free neighbour ends up recorded |
| Traffic.ExpandTo | server/traffic/agent.py:39-52 | one neighbour: when it is unvisited, the move rule admits it and it has no car, it is marked visited and `(n, curPath + [n])` is appended to the queue; otherwise visited set and queue are unchanged; nothing recorded before is lost |
| Traffic.RoundKeepsInv | server/traffic/agent.py:31-52 | one round of the search keeps the breadth-first invariant: routes recorded, queue sorted by length within one, processed cells closed |
| Traffic.Visit | server/traffic/agent.py:31-52 | one round keeps the invariant and either visits a new cell or shortens the queue |
| Traffic.Bfs | server/traffic/agent.py:17-53 | no route without a destination or position; `[start]` when already there; otherwise a shortest route without repeats, in which every step is to a Moore neighbour that the move rule admits and no car occupies, or `None` exactly when no such route exists |
| Traffic.City.constructor | server/traffic/model.py:28-37 | a new grid has the given cells and no arrived cars |
| Traffic.Car.constructor | server/traffic/agent.py:11-14 | a new car is not waiting |
| Traffic.FirstLightRed | server/traffic/agent.py:74-77 | the first traffic light in the next cell shows red |
| Traffic.Relocate | server/traffic/agent.py:81 | `grid.move_agent`: the car leaves its cell and is appended to the next one |
| Traffic.Car.Move | server/traffic/agent.py:60-88 | without a destination nothing changes; otherwise the car waits exactly when it stays put; it moves only onto the second cell of a shortest route whose first light is not red, appended to that cell; if it waits, it has no position, is at its destination, cannot reach it, or the light ahead on a shortest route is red |
| Traffic.Staying | server/traffic/agent.py:158-163 | the agents of the cell that are not cars heading here, in order |
| Traffic.Arriving | server/traffic/agent.py:158-163 | the cars of the cell heading here, in order |
| Traffic.ArrivalSplit | server/traffic/agent.py:158-163 | a cell's agents split into the arriving cars and the rest, with nothing lost or added; the arriving ones all head here and none of the rest does |
| Traffic.CellStep | server/traffic/agent.py:160-163 | examining one agent removes it and counts it when it is a car heading here, and keeps it otherwise |
| Traffic.Destination.RemoveAgent | server/traffic/agent.py:153-164 | without a position nothing changes; otherwise the cell keeps exactly its other agents, in order, and the arrival count grows by the number of cars heading here |

## Left out

- Network, `fetch`, WebGL drawing, shaders, the camera and the UI: I/O with no logic to prove. `loadMapFromFile` returning `[]` on a fetch error is part of this.
- Animation.AgentTable.OnSnapshot: applies a whole snapshot as one step at one `now`. In the source the loop awaits `drawAgent` for every new id (visualization/visualization.js:133, with a fetch at :506); while it waits, frames run `updateAgentPositions` (:528) and change the `position` that later comparisons in the same loop read, and `setInterval(update, 1000)` (:215) can start a second `getAgents` whose `find` (:101) misses an agent the first has not pushed yet, so one id can be pushed twice. The model does not capture this interleaving: unique ids (`MergeWellFormed`) hold only when calls do not overlap.
- `Math.random`: the house draw is a parameter `pick`. `Date.now()` is a parameter `now`.
- `parseFloat`, whitespace tokenisation and comment lines of OBJ/MTL files: lines arrive classified with their numbers as `real`. `Kd` and `v` lines are assumed to carry three numbers.
- Floating point: numbers are `real`. `Infinity`, `NaN` and rounding are not modelled.
- MeshLoader.LoadObj: when every vertex coincides, JavaScript divides by a zero range and yields `NaN` coordinates. The model returns `ZeroExtent` instead. `MeshLoaderAlt.LoadObjAlt` returns `DegenerateExtent` in the same case.
- Scene.SceneOf / SceneAlt.SceneAltOf: the scene assumes that every mesh file loads. The source places a mesh only inside `if (objData…)` (visualization/visualization.js:348, 361, 380, 392, 404, 416; visualization/visualizationp.js:258, 272, 291, 305). The variant `loadObj` returns `null` for a file without `vn` lines (visualization/visualizationp.js:576-578), and the source then skips that placement. A canonical `loadObj` that throws aborts the whole `generateGeometryFromMap`. Neither case is modelled here, and so SceneBuildings and SceneAltBuildings (one building per footprint) hold only when every mesh loads. The loaders themselves are modelled in `meshes.dfy` and `meshes_alt.dfy`.
- Scene.GenerateGeometry: the vertex arithmetic of each placed mesh is recorded as a transform rather than computed. The square root of a building's area stays symbolic.
- The `getAgents` of visualization/visualizationp.js, the console messages, and the attributes of an animated agent that only drawing reads (`color`, `objPath`, `bufferInfo`, `loaded`).
- Keys such as `"__proto__"` that collide with `Object.prototype` when used as material names.
- A `newmtl` with no name (in both files) and a `usemtl` with no name in visualization/visualizationp.js use the key `"undefined"`, as JavaScript does. In visualization/visualization.js a `usemtl` with no name (or an empty one) paints white, because `currentMaterialName && …` is false; the model does the same (`ColourOf`).
- `Car.step`, `set_destination`, the mesa scheduler and the other agents' `step`: the random choice of destination and the scheduling order are not modelled. server/traffic/model.py is not part of this model beyond the bounded, non-torus grid and the arrival count starting at 0.
- Traffic.Bfs: the mesa neighbourhood order is taken as x-offset major. The order only decides which of several shortest routes is returned; every stated property holds for any order.
- Traffic.Destination.RemoveAgent: removing a car from the scheduler and resetting its `pos` are not modelled; it leaves the grid.
- The agents in grid cells are value snapshots. The model does not tie them to the `TrafficLight` and `Car` objects, so a light's state in a cell is read, not linked.

## Findings

| source | as written | input that shows it | evidently intended | confidence | as-written member | corrected member |
|---|---|---|---|---|---|---|
| visualization/visualizationp.js:559 | `const [vIdx, , nIdx] = v.split("//")` takes the normal from the third field of the split | the reference `1//1`: it splits into `["1", "1"]`, so `nIdx` is `undefined` and the face gets no normal | take the normal from the second field, so that `1//1` yields vertex 0 and normal 0 | not executed | MeshLoaderAlt.AsWrittenDropsNormals | MeshLoaderAlt.IntendedPairHasNormal |
