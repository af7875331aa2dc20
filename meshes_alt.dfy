/** The variant OBJ/MTL loader of visualization/visualizationp.js (`loadMtl`,
    `loadObj`) and its `getTerrainHeight`. It differs from the loader of
    visualization/visualization.js in four ways: a material is four numbers
    `[r, g, b, a]` and a `Kd` line resets the opacity; a face naming a missing
    vertex drops its line instead of aborting; a file without `vn` lines loads
    as `null`; and the colour of the last `usemtl` paints every face. */
module MeshLoaderAlt {
  import opened Common
  import opened MeshLoader

  // ---------------------------------------------------------------- loadMtl

  /** `materials` and `currentMaterial`; a `newmtl` without a name leaves the
      current name undefined, `None` here. */
  datatype MtlAltState = MtlAltState(materials: map<string, Rgba>, current: Option<string>)

  const MtlAltStart: MtlAltState := MtlAltState(map[], None)

  /** One line of the variant `loadMtl`: `Ka`, `Ks` and `Ns` are ignored, and
      `Kd` and `d` need a current material. */
  function MtlAltStep(s: MtlAltState, line: MtlLine): MtlAltState
  {
    match line
    case NewMtl(name) => MtlAltState(s.materials[Key(name) := White], name)
    case Kd(v) =>
      if s.current.Some? then s.(materials := s.materials[s.current.value := Rgba(v, 1.0)]) else s
    case D(d) =>
      // the current material is always in the dictionary (`AltKnownFrom`)
      if s.current.Some? && s.current.value in s.materials then
        s.(materials := s.materials[s.current.value := s.materials[s.current.value].(alpha := d)])
      else s
    case _ => s
  }

  function MtlAltFrom(s: MtlAltState, lines: seq<MtlLine>): MtlAltState
    decreases |lines|
  {
    if |lines| == 0 then s else MtlAltFrom(MtlAltStep(s, lines[0]), lines[1..])
  }

  /** The variant `loadMtl(mtlContent)`. */
  function MaterialsAlt(lines: seq<MtlLine>): map<string, Rgba>
  {
    MtlAltFrom(MtlAltStart, lines).materials
  }

  ghost predicate AltKnown(s: MtlAltState)
  {
    s.current.Some? ==> s.current.value in s.materials
  }

  lemma {:induction false} AltKnownFrom(s: MtlAltState, lines: seq<MtlLine>)
    requires AltKnown(s)
    ensures AltKnown(MtlAltFrom(s, lines))
    decreases |lines|
  {
    if |lines| > 0 {
      AltKnownFrom(MtlAltStep(s, lines[0]), lines[1..]);
    }
  }

  /** `Kd` and `d` lines before any `newmtl` are ignored: from an empty start,
      a text without `newmtl` defines no material (the other loader fails). */
  lemma {:induction false} FieldsWithoutNewMtlIgnored(s: MtlAltState, lines: seq<MtlLine>)
    requires s.current.None?
    requires forall i :: 0 <= i < |lines| ==> !lines[i].NewMtl?
    ensures MtlAltFrom(s, lines) == s
    decreases |lines|
  {
    if |lines| > 0 {
      assert !lines[0].NewMtl?;
      FieldsWithoutNewMtlIgnored(s, lines[1..]);
    }
  }

  lemma {:induction false} MtlAltFromConcat(s: MtlAltState, a: seq<MtlLine>, b: seq<MtlLine>)
    ensures MtlAltFrom(s, a + b) == MtlAltFrom(MtlAltFrom(s, a), b)
    decreases |a|
  {
    if |a| > 0 {
      assert (a + b)[0] == a[0] && (a + b)[1..] == a[1..] + b;
      MtlAltFromConcat(MtlAltStep(s, a[0]), a[1..], b);
    } else {
      assert a + b == b;
    }
  }

  /** After a text with a current material, `Kd r g b` makes that material
      `[r, g, b, 1]`, losing an opacity set before, and `d a` sets only its
      opacity; the other materials stay as they were. */
  lemma KdAndDOnCurrent(lines: seq<MtlLine>, v: Vec3, d: real)
    requires MtlAltFrom(MtlAltStart, lines).current.Some?
    ensures var before := MtlAltFrom(MtlAltStart, lines);
      var k := before.current.value;
      k in before.materials &&
      MaterialsAlt(lines + [Kd(v)]) == before.materials[k := Rgba(v, 1.0)] &&
      MaterialsAlt(lines + [D(d)]) == before.materials[k := before.materials[k].(alpha := d)]
  {
    AltKnownFrom(MtlAltStart, lines);
    MtlAltFromConcat(MtlAltStart, lines, [Kd(v)]);
    MtlAltFromConcat(MtlAltStart, lines, [D(d)]);
  }

  /** `newmtl name` after any text makes that material `[1, 1, 1, 1]`. */
  lemma NewMtlOpaque(lines: seq<MtlLine>, name: Option<string>)
    ensures MaterialsAlt(lines + [NewMtl(name)]) == MaterialsAlt(lines)[Key(name) := White]
  {
    MtlAltFromConcat(MtlAltStart, lines, [NewMtl(name)]);
  }

  /** A `d` line followed later by a `Kd` line. */
  predicate OpacityThenColour(lines: seq<MtlLine>)
  {
    exists i, j :: 0 <= i < j < |lines| && lines[i].D? && lines[j].Kd?
  }

  /** The `Kd` and `d` of every (canonical) material are 1 as at `newmtl`… */
  ghost predicate AllOpaque(s: MtlState)
  {
    forall k :: k in s.materials ==> s.materials[k].d == 1.0
  }

  predicate NoKd(lines: seq<MtlLine>)
  {
    forall i :: 0 <= i < |lines| ==> !lines[i].Kd?
  }

  predicate NamedNewMtls(lines: seq<MtlLine>)
  {
    forall i :: 0 <= i < |lines| ==> lines[i].NewMtl? ==> lines[i].name.Some?
  }

  /** The two loaders' states describe the same materials: same names, same
      current material, and the variant's four numbers are the canonical `Kd`
      and `d`. */
  ghost predicate Agree(c: MtlState, a: MtlAltState)
  {
    c.current == a.current && c.materials.Keys == a.materials.Keys &&
    forall k :: k in c.materials ==> a.materials[k] == Rgba(c.materials[k].kd, c.materials[k].d)
  }

  lemma {:induction false} AgreeFrom(c: MtlState, a: MtlAltState, lines: seq<MtlLine>)
    requires Agree(c, a) && Known(c) && NamedNewMtls(lines) && !OpacityThenColour(lines)
    requires AllOpaque(c) || NoKd(lines)
    requires MtlFrom(c, lines).Success?
    ensures Agree(MtlFrom(c, lines).value, MtlAltFrom(a, lines))
    decreases |lines|
  {
    if |lines| > 0 {
      var line := lines[0];
      var tail := lines[1..];
      var c' := MtlStep(c, line).value;
      var a' := MtlAltStep(a, line);
      assert forall i :: 0 <= i < |tail| ==> tail[i] == lines[i + 1];
      assert NamedNewMtls(tail);
      assert !OpacityThenColour(tail) by {
        forall i, j | 0 <= i < j < |tail| && tail[i].D?
          ensures !tail[j].Kd?
        {
          assert lines[i + 1].D?;
        }
      }
      assert Known(c') by {
        MtlFromKnown(c, [line]);
        assert [line][1..] == [];
      }
      if line.D? {
        assert NoKd(tail) by {
          forall j | 0 <= j < |tail|
            ensures !tail[j].Kd?
          {
            assert tail[j] == lines[j + 1];
          }
        }
      } else if line.Kd? {
        assert !NoKd(lines);
        assert AllOpaque(c');
      } else if !line.NewMtl? {
        assert AllOpaque(c) ==> AllOpaque(c');
        assert NoKd(lines) ==> NoKd(tail);
      } else {
        assert AllOpaque(c) ==> AllOpaque(c');
        assert NoKd(lines) ==> NoKd(tail);
      }
      AgreeFrom(c', a', tail);
    }
  }

  /** Where both loaders read an MTL text alike: when the canonical loader
      accepts it, every `newmtl` has a name and no `Kd` line follows a `d` line,
      the variant defines the same materials and keeps for each the canonical
      `Kd` followed by `d`. */
  lemma MaterialsAgree(lines: seq<MtlLine>)
    requires MaterialsOf(lines).Success? && NamedNewMtls(lines) && !OpacityThenColour(lines)
    ensures MaterialsOf(lines).value.Keys == MaterialsAlt(lines).Keys
    ensures forall k :: k in MaterialsAlt(lines) ==>
      MaterialsAlt(lines)[k] == Rgba(MaterialsOf(lines).value[k].kd, MaterialsOf(lines).value[k].d)
  {
    AgreeFrom(MtlStart, MtlAltStart, lines);
  }

  /** Where they differ: a `Kd` after a `d` keeps the opacity in the canonical
      loader and resets it to 1 in the variant. */
  lemma KdAfterDDiffers()
    ensures var lines := [NewMtl(Some("m")), D(0.5), Kd(Vec3(0.2, 0.3, 0.4))];
      MaterialsOf(lines).Success? && MaterialsOf(lines).value["m"].d == 0.5 &&
      MaterialsAlt(lines)["m"].alpha == 1.0
  {
    var lines := [NewMtl(Some("m")), D(0.5), Kd(Vec3(0.2, 0.3, 0.4))];
    assert lines[1..] == [D(0.5), Kd(Vec3(0.2, 0.3, 0.4))];
    assert lines[1..][1..] == [Kd(Vec3(0.2, 0.3, 0.4))];
    assert lines[1..][1..][1..] == [];
  }

  /** The `forEach` of the variant `loadMtl`. */
  method LoadMtlAlt(lines: seq<MtlLine>) returns (materials: map<string, Rgba>)
    ensures materials == MaterialsAlt(lines)
  {
    materials := map[];
    var current: Option<string> := None;
    var i := 0;
    while i < |lines|
      invariant 0 <= i <= |lines|
      invariant MtlAltFrom(MtlAltStart, lines) == MtlAltFrom(MtlAltState(materials, current), lines[i..])
    {
      assert lines[i..][0] == lines[i] && lines[i..][1..] == lines[i + 1..];
      match lines[i] {
        case NewMtl(name) =>
          current := name;
          materials := materials[Key(name) := White];
        case Kd(v) =>
          if current.Some? {
            materials := materials[current.value := Rgba(v, 1.0)];
          }
        case D(d) =>
          if current.Some? && current.value in materials {
            materials := materials[current.value := materials[current.value].(alpha := d)];
          }
        case _ =>
      }
      i := i + 1;
    }
  }

  // ---------------------------------------------------------------- loadObj

  /** What `v.split("//").map((x) => (x ? parseInt(x, 10) - 1 : undefined))`
      gives for the vertex and for the normal of one face reference. */
  datatype FaceRef = FaceRef(vertex: Option<int>, normal: Option<int>)

  /** `const [vIdx, , nIdx] = …` takes the normal from the third field. */
  const AsWrittenNormalField: nat := 2

  /** In `v//n` the normal is the second field. */
  const IntendedNormalField: nat := 1

  /** Field `f` read as a zero-based index: `None` for a missing or empty field
      (undefined) and for text without digits (NaN). */
  function FieldIndex(fields: seq<string>, f: nat): Option<int>
  {
    if f >= |fields| || |fields[f]| == 0 then None
    else
      match ParseInt(fields[f])
      case None => None
      case Some(k) => Some(k - 1)
  }

  function RefOf(tok: string, normalField: nat): FaceRef
  {
    var fields := Split(tok, "//");
    FaceRef(FieldIndex(fields, 0), FieldIndex(fields, normalField))
  }

  /** One face-vertex of the variant: its vertex and its normal index. */
  datatype AltCorner = AltCorner(vertex: nat, normal: Option<int>)

  /** The face-vertices of one `f` line, or `None` when one of its references
      names no vertex read so far (the line is then dropped with a warning). */
  function FaceCorners(refs: seq<string>, count: nat, normalField: nat): (r: Option<seq<AltCorner>>)
    ensures r.Some? ==> |r.value| == |refs| && forall k :: 0 <= k < |refs| ==> r.value[k].vertex < count
    decreases |refs|
  {
    if |refs| == 0 then Some([])
    else
      var ref := RefOf(refs[0], normalField);
      if !InRange(ref.vertex, count) then None
      else
        match FaceCorners(refs[1..], count, normalField)
        case None => None
        case Some(rest) => Some([AltCorner(ref.vertex.value, ref.normal)] + rest)
  }

  /** A face line is kept exactly when each of its references names a vertex
      read so far; its face-vertices are then its references in order. */
  lemma {:induction false} FaceCornersIff(refs: seq<string>, count: nat, normalField: nat)
    ensures FaceCorners(refs, count, normalField).Some? <==>
      forall k :: 0 <= k < |refs| ==> InRange(RefOf(refs[k], normalField).vertex, count)
    ensures FaceCorners(refs, count, normalField).Some? ==>
      forall k :: 0 <= k < |refs| ==>
        Some(FaceCorners(refs, count, normalField).value[k].vertex as int) == RefOf(refs[k], normalField).vertex &&
        FaceCorners(refs, count, normalField).value[k].normal == RefOf(refs[k], normalField).normal
    decreases |refs|
  {
    if |refs| > 0 {
      FaceCornersIff(refs[1..], count, normalField);
      assert forall k :: 1 <= k < |refs| ==> refs[1..][k - 1] == refs[k];
    }
  }

  /** The state of the variant `forEach`: vertices, normals, face-vertices,
      `hasNormals` and `jsonObject.currentMaterial` (white until a `usemtl`). */
  datatype ObjAltState = ObjAltState(vertices: seq<Vec3>, normals: seq<Vec3>, corners: seq<AltCorner>,
                                     hasNormals: bool, colour: Rgba)

  const ObjAltStart: ObjAltState := ObjAltState([], [], [], false, White)

  /** `materials[materialName] || [1.0, 1.0, 1.0, 1.0]`. */
  function MaterialColour(materials: map<string, Rgba>, name: Option<string>): Rgba
  {
    if Key(name) in materials then materials[Key(name)] else White
  }

  function ObjAltStep(s: ObjAltState, line: ObjLine, materials: map<string, Rgba>, normalField: nat): ObjAltState
  {
    match line
    case VN(n) => s.(hasNormals := true, normals := s.normals + [n])
    case V(v) => s.(vertices := s.vertices + [v])
    case F(refs) =>
      (match FaceCorners(refs, |s.vertices|, normalField)
       case None => s
       case Some(cs) => s.(corners := s.corners + cs))
    case UseMtl(name) => s.(colour := MaterialColour(materials, name))
    case OtherObj => s
  }

  ghost predicate AltCornersValid(s: ObjAltState)
  {
    forall k :: 0 <= k < |s.corners| ==> s.corners[k].vertex < |s.vertices|
  }

  function ObjAltFrom(s: ObjAltState, lines: seq<ObjLine>, materials: map<string, Rgba>, normalField: nat): (t: ObjAltState)
    ensures AltCornersValid(s) ==> AltCornersValid(t)
    decreases |lines|
  {
    if |lines| == 0 then s else ObjAltFrom(ObjAltStep(s, lines[0], materials, normalField), lines[1..], materials, normalField)
  }

  datatype AltError = NoNormals | DegenerateExtent

  /** What the variant `loadObj` returns: `a_position`, `a_normal` and `a_color`. */
  datatype MeshAlt = MeshAlt(positions: seq<real>, normals: seq<real>, colours: seq<real>)

  function AltVertices(cs: seq<AltCorner>): (idx: seq<nat>)
    ensures |idx| == |cs| && forall k :: 0 <= k < |cs| ==> idx[k] == cs[k].vertex
  {
    seq(|cs|, k requires 0 <= k < |cs| => cs[k].vertex)
  }

  /** The normal of a face-vertex when its index is defined and in range. */
  function NormalOf(ns: seq<Vec3>, c: AltCorner): seq<real>
  {
    if c.normal.Some? && 0 <= c.normal.value < |ns| then Coords(ns[c.normal.value]) else []
  }

  function FlatNormals(ns: seq<Vec3>, cs: seq<AltCorner>): seq<real>
  {
    if |cs| == 0 then [] else FlatNormals(ns, cs[..|cs| - 1]) + NormalOf(ns, cs[|cs| - 1])
  }

  function MeshAltOf(s: ObjAltState): Result<MeshAlt, AltError>
    requires AltCornersValid(s)
  {
    if !s.hasNormals then Failure(NoNormals)
    else if |s.corners| == 0 then Success(MeshAlt([], [], []))
    else
      assert s.corners[0].vertex < |s.vertices|;
      if MaxRange(s.vertices) == 0.0 then Failure(DegenerateExtent)
      else
        Success(MeshAlt(FlatPositions(Normalize(s.vertices), AltVertices(s.corners)),
                        FlatNormals(s.normals, s.corners),
                        Repeat(|s.corners|, RgbaCoords(s.colour))))
  }

  /** The variant `loadObj(objContent, mtlContent)`, reading normals from field
      `normalField` of each face reference. */
  function LoadObjAltOf(lines: seq<ObjLine>, mtl: seq<MtlLine>, normalField: nat): Result<MeshAlt, AltError>
  {
    assert AltCornersValid(ObjAltStart);
    MeshAltOf(ObjAltFrom(ObjAltStart, lines, MaterialsAlt(mtl), normalField))
  }

  lemma {:induction false} ObjAltFromConcat(s: ObjAltState, a: seq<ObjLine>, b: seq<ObjLine>,
                                            materials: map<string, Rgba>, normalField: nat)
    ensures ObjAltFrom(s, a + b, materials, normalField) ==
      ObjAltFrom(ObjAltFrom(s, a, materials, normalField), b, materials, normalField)
    decreases |a|
  {
    if |a| > 0 {
      assert (a + b)[0] == a[0] && (a + b)[1..] == a[1..] + b;
      ObjAltFromConcat(ObjAltStep(s, a[0], materials, normalField), a[1..], b, materials, normalField);
    } else {
      assert a + b == b;
    }
  }

  lemma {:induction false} HasNormalsFrom(s: ObjAltState, lines: seq<ObjLine>, materials: map<string, Rgba>, normalField: nat)
    ensures ObjAltFrom(s, lines, materials, normalField).hasNormals <==>
      s.hasNormals || exists i :: 0 <= i < |lines| && lines[i].VN?
    decreases |lines|
  {
    if |lines| > 0 {
      HasNormalsFrom(ObjAltStep(s, lines[0], materials, normalField), lines[1..], materials, normalField);
      assert forall i :: 1 <= i < |lines| ==> lines[1..][i - 1] == lines[i];
    }
  }

  /** The variant loads nothing (the source returns `null`) exactly when the
      file has no `vn` line. */
  lemma NoNormalsIff(lines: seq<ObjLine>, mtl: seq<MtlLine>, normalField: nat)
    ensures LoadObjAltOf(lines, mtl, normalField) == Failure(NoNormals) <==>
      forall i :: 0 <= i < |lines| ==> !lines[i].VN?
  {
    HasNormalsFrom(ObjAltStart, lines, MaterialsAlt(mtl), normalField);
  }

  lemma {:induction false} VertexCountConcat(a: seq<ObjLine>, b: seq<ObjLine>)
    ensures VertexCount(a + b) == VertexCount(a) + VertexCount(b)
    decreases |b|
  {
    if |b| == 0 {
      assert a + b == a;
    } else {
      VertexCountConcat(a, b[..|b| - 1]);
      assert (a + b)[..|a + b| - 1] == a + b[..|b| - 1];
    }
  }

  /** The vertices read are those of the `v` lines. */
  lemma {:induction false} AltVerticesCount(s: ObjAltState, lines: seq<ObjLine>, materials: map<string, Rgba>, normalField: nat)
    ensures |ObjAltFrom(s, lines, materials, normalField).vertices| == |s.vertices| + VertexCount(lines)
    decreases |lines|
  {
    if |lines| > 0 {
      AltVerticesCount(ObjAltStep(s, lines[0], materials, normalField), lines[1..], materials, normalField);
      VertexCountConcat([lines[0]], lines[1..]);
      assert [lines[0]] + lines[1..] == lines;
      assert [lines[0]][..0] == [];
    }
  }

  /** A face line with a reference to a vertex not read before it is dropped
      as a whole: the file loads as if the line were not there. */
  lemma BadFaceDropped(a: seq<ObjLine>, refs: seq<string>, b: seq<ObjLine>, mtl: seq<MtlLine>, normalField: nat)
    requires exists k :: 0 <= k < |refs| && !InRange(RefOf(refs[k], normalField).vertex, VertexCount(a))
    ensures LoadObjAltOf(a + [F(refs)] + b, mtl, normalField) == LoadObjAltOf(a + b, mtl, normalField)
  {
    var m := MaterialsAlt(mtl);
    ObjAltFromConcat(ObjAltStart, a + [F(refs)], b, m, normalField);
    ObjAltFromConcat(ObjAltStart, a, [F(refs)], m, normalField);
    ObjAltFromConcat(ObjAltStart, a, b, m, normalField);
    var u := ObjAltFrom(ObjAltStart, a, m, normalField);
    AltVerticesCount(ObjAltStart, a, m, normalField);
    FaceCornersIff(refs, |u.vertices|, normalField);
    assert [F(refs)][1..] == [];
    assert ObjAltFrom(u, [F(refs)], m, normalField) == u;
  }

  /** The colour in force after the lines: that of the last `usemtl`, white
      when it names no material or there is none. */
  function UsedColour(lines: seq<ObjLine>, materials: map<string, Rgba>): Rgba
  {
    if |lines| == 0 then White
    else if lines[|lines| - 1].UseMtl? then MaterialColour(materials, lines[|lines| - 1].name)
    else UsedColour(lines[..|lines| - 1], materials)
  }

  lemma {:induction false} ColourFrom(lines: seq<ObjLine>, materials: map<string, Rgba>, normalField: nat)
    ensures ObjAltFrom(ObjAltStart, lines, materials, normalField).colour == UsedColour(lines, materials)
    decreases |lines|
  {
    if |lines| > 0 {
      var front := lines[..|lines| - 1];
      assert front + [lines[|lines| - 1]] == lines;
      ObjAltFromConcat(ObjAltStart, front, [lines[|lines| - 1]], materials, normalField);
      ColourFrom(front, materials, normalField);
      assert [lines[|lines| - 1]][1..] == [];
    }
  }

  lemma {:induction false} NormalsShape(ns: seq<Vec3>, cs: seq<AltCorner>)
    ensures |FlatNormals(ns, cs)| <= 3 * |cs| && |FlatNormals(ns, cs)| % 3 == 0
  {
    if |cs| > 0 {
      NormalsShape(ns, cs[..|cs| - 1]);
    }
  }

  /** A loaded variant mesh: three position numbers per kept face-vertex, the
      normalised coordinates of its vertex (normalised over all `v` lines of the
      file); at most three normal numbers per face-vertex (none for a
      face-vertex whose normal index is undefined or out of range); and every
      face-vertex in the colour of the last `usemtl` of the file. */
  lemma LoadedAltShape(lines: seq<ObjLine>, mtl: seq<MtlLine>, normalField: nat)
    requires LoadObjAltOf(lines, mtl, normalField).Success?
    ensures var s := ObjAltFrom(ObjAltStart, lines, MaterialsAlt(mtl), normalField);
      var mesh := LoadObjAltOf(lines, mtl, normalField).value;
      |mesh.positions| == 3 * |s.corners| && |mesh.colours| == 4 * |s.corners| &&
      |mesh.normals| <= |mesh.positions| &&
      (forall k, j :: 0 <= k < |s.corners| && 0 <= j < 4 ==>
        Offset(4, k, j) < |mesh.colours| &&
        mesh.colours[Offset(4, k, j)] == RgbaCoords(UsedColour(lines, MaterialsAlt(mtl)))[j]) &&
      (|s.corners| > 0 ==> (|s.vertices| > 0 && MaxRange(s.vertices) > 0.0 &&
        forall k, j :: 0 <= k < |s.corners| && 0 <= j < 3 ==>
          s.corners[k].vertex < |s.vertices| && Offset(3, k, j) < |mesh.positions| &&
          mesh.positions[Offset(3, k, j)] == Axis(NormalizeVertex(s.vertices[s.corners[k].vertex], s.vertices), j)))
  {
    var m := MaterialsAlt(mtl);
    assert AltCornersValid(ObjAltStart);
    var s := ObjAltFrom(ObjAltStart, lines, m, normalField);
    ColourFrom(lines, m, normalField);
    MeshAltShape(s);
  }

  /** The mesh built from any final state of the line walk: three position
      numbers per face-vertex, the normalised coordinates of its vertex; at most
      three normal numbers per face-vertex; four colour numbers per
      face-vertex, the current colour. */
  lemma MeshAltShape(s: ObjAltState)
    requires AltCornersValid(s) && MeshAltOf(s).Success?
    ensures var mesh := MeshAltOf(s).value;
      |mesh.positions| == 3 * |s.corners| && |mesh.colours| == 4 * |s.corners| &&
      |mesh.normals| <= |mesh.positions| &&
      (forall k, j :: 0 <= k < |s.corners| && 0 <= j < 4 ==>
        Offset(4, k, j) < |mesh.colours| && mesh.colours[Offset(4, k, j)] == RgbaCoords(s.colour)[j]) &&
      (|s.corners| > 0 ==> (|s.vertices| > 0 && MaxRange(s.vertices) > 0.0 &&
        forall k, j :: 0 <= k < |s.corners| && 0 <= j < 3 ==>
          s.corners[k].vertex < |s.vertices| && Offset(3, k, j) < |mesh.positions| &&
          mesh.positions[Offset(3, k, j)] == Axis(NormalizeVertex(s.vertices[s.corners[k].vertex], s.vertices), j)))
  {
    if |s.corners| > 0 {
      assert s.corners[0].vertex < |s.vertices|;
      var nv := Normalize(s.vertices);
      var idx := AltVertices(s.corners);
      PositionsShape(nv, idx);
      NormalsShape(s.normals, s.corners);
      RepeatShape(|s.corners|, RgbaCoords(s.colour));
      forall k, j | 0 <= k < |s.corners| && 0 <= j < 3
        ensures FlatPositions(nv, idx)[Offset(3, k, j)] == Axis(NormalizeVertex(s.vertices[s.corners[k].vertex], s.vertices), j)
      {
        assert nv[idx[k]] == NormalizeVertex(s.vertices[s.corners[k].vertex], s.vertices);
      }
    }
  }

  // ------------------------------------------- the normal field of a reference

  lemma {:induction false} SplitNoSeparator(s: string, sep: string)
    requires |sep| > 0 && forall i :: 0 <= i < |s| ==> s[i] != sep[0]
    ensures Split(s, sep) == [s]
    decreases |s|
  {
    if |s| >= |sep| {
      assert s[..|sep|][0] == s[0];
      SplitNoSeparator(s[1..], sep);
      assert [s[0]] + s[1..] == s;
    }
  }

  lemma {:induction false} SplitAfterFirst(d: string, sep: string, rest: string)
    requires |sep| > 0 && forall i :: 0 <= i < |d| ==> d[i] != sep[0]
    ensures Split(d + sep + rest, sep) == [d] + Split(rest, sep)
    decreases |d|
  {
    var s := d + sep + rest;
    if |d| == 0 {
      assert s == sep + rest && s[..|sep|] == sep && s[|sep|..] == rest;
    } else {
      assert s[..|sep|][0] == d[0];
      assert s[1..] == d[1..] + sep + rest;
      SplitAfterFirst(d[1..], sep, rest);
      assert [d[0]] + d[1..] == d;
    }
  }

  lemma FieldIndexDecimal(fields: seq<string>, f: nat, n: nat)
    requires f < |fields| && fields[f] == Decimal(n)
    ensures FieldIndex(fields, f) == Some(n - 1)
  {
    ParseIntDecimal(n, []);
    assert Decimal(n) + [] == Decimal(n);
  }

  lemma DecimalSplit(a: nat, b: nat)
    ensures Split(Decimal(a) + "//" + Decimal(b), "//") == [Decimal(a), Decimal(b)]
  {
    SplitAfterFirst(Decimal(a), "//", Decimal(b));
    SplitNoSeparator(Decimal(b), "//");
  }

  /** As written, the reference `a//b` yields vertex `a - 1` and no normal:
      `v.split("//")` has two fields and the normal is read from the third. */
  lemma AsWrittenPairHasNoNormal(a: nat, b: nat)
    ensures RefOf(Decimal(a) + "//" + Decimal(b), AsWrittenNormalField) == FaceRef(Some(a - 1), None)
  {
    DecimalSplit(a, b);
    FieldIndexDecimal([Decimal(a), Decimal(b)], 0, a);
  }

  /** Read from the second field, `a//b` yields vertex `a - 1` and normal `b - 1`. */
  lemma IntendedPairHasNormal(a: nat, b: nat)
    ensures RefOf(Decimal(a) + "//" + Decimal(b), IntendedNormalField) == FaceRef(Some(a - 1), Some(b - 1))
  {
    DecimalSplit(a, b);
    FieldIndexDecimal([Decimal(a), Decimal(b)], 0, a);
    FieldIndexDecimal([Decimal(a), Decimal(b)], 1, b);
  }

  /** Every face reference of the file has at most two `//`-fields (as
      `v//n` and `v` do). */
  predicate PairRefs(lines: seq<ObjLine>)
  {
    forall i, k :: 0 <= i < |lines| && lines[i].F? && 0 <= k < |lines[i].refs| ==>
      |Split(lines[i].refs[k], "//")| <= 2
  }

  predicate NoNormalIndices(cs: seq<AltCorner>)
  {
    forall k :: 0 <= k < |cs| ==> cs[k].normal.None?
  }

  /** As written, one line keeps the face-vertices without normal indices. */
  lemma NoNormalsStep(s: ObjAltState, line: ObjLine, materials: map<string, Rgba>)
    requires line.F? ==> forall k :: 0 <= k < |line.refs| ==> |Split(line.refs[k], "//")| <= 2
    requires NoNormalIndices(s.corners)
    ensures NoNormalIndices(ObjAltStep(s, line, materials, AsWrittenNormalField).corners)
  {
    if line.F? {
      var refs := line.refs;
      FaceCornersIff(refs, |s.vertices|, AsWrittenNormalField);
      var cs := FaceCorners(refs, |s.vertices|, AsWrittenNormalField);
      if cs.Some? {
        assert NoNormalIndices(cs.value) by {
          forall k | 0 <= k < |refs|
            ensures cs.value[k].normal.None?
          {
            assert |Split(refs[k], "//")| <= 2;
          }
        }
        assert ObjAltStep(s, line, materials, AsWrittenNormalField).corners == s.corners + cs.value;
      }
    }
  }

  lemma {:induction false} NoNormalsFrom(s: ObjAltState, lines: seq<ObjLine>, materials: map<string, Rgba>)
    requires PairRefs(lines) && NoNormalIndices(s.corners)
    ensures NoNormalIndices(ObjAltFrom(s, lines, materials, AsWrittenNormalField).corners)
    decreases |lines|
  {
    if |lines| > 0 {
      assert lines[0] == lines[0];
      NoNormalsStep(s, lines[0], materials);
      assert PairRefs(lines[1..]) by {
        forall i, k | 0 <= i < |lines| - 1 && lines[1..][i].F? && 0 <= k < |lines[1..][i].refs|
          ensures |Split(lines[1..][i].refs[k], "//")| <= 2
        {
          assert lines[1..][i] == lines[i + 1];
        }
      }
      NoNormalsFrom(ObjAltStep(s, lines[0], materials, AsWrittenNormalField), lines[1..], materials);
    }
  }

  lemma {:induction false} FlatNormalsEmpty(ns: seq<Vec3>, cs: seq<AltCorner>)
    requires NoNormalIndices(cs)
    ensures FlatNormals(ns, cs) == []
  {
    if |cs| > 0 {
      FlatNormalsEmpty(ns, cs[..|cs| - 1]);
    }
  }

  /** As written, a file whose face references are all `v` or `v//n` loads
      with no normal data at all, whatever its `vn` lines. */
  lemma AsWrittenDropsNormals(lines: seq<ObjLine>, mtl: seq<MtlLine>)
    requires PairRefs(lines)
    requires LoadObjAltOf(lines, mtl, AsWrittenNormalField).Success?
    ensures LoadObjAltOf(lines, mtl, AsWrittenNormalField).value.normals == []
  {
    var m := MaterialsAlt(mtl);
    NoNormalsFrom(ObjAltStart, lines, m);
    FlatNormalsEmpty(ObjAltFrom(ObjAltStart, lines, m, AsWrittenNormalField).normals,
                     ObjAltFrom(ObjAltStart, lines, m, AsWrittenNormalField).corners);
  }

  // ------------------------------------------------------- the variant loops

  function Prefixed(cs: seq<AltCorner>, r: Option<seq<AltCorner>>): Option<seq<AltCorner>>
  {
    if r.None? then None else Some(cs + r.value)
  }

  /** The `map` over the references of one `f` line; a throw drops the line. */
  method ReadFaceAlt(refs: seq<string>, count: nat, normalField: nat) returns (r: Option<seq<AltCorner>>)
    ensures r == FaceCorners(refs, count, normalField)
  {
    var corners: seq<AltCorner> := [];
    var i := 0;
    assert refs[0..] == refs;
    assert FaceCorners(refs, count, normalField).Some? ==> [] + FaceCorners(refs, count, normalField).value == FaceCorners(refs, count, normalField).value;
    while i < |refs|
      invariant 0 <= i <= |refs|
      invariant FaceCorners(refs, count, normalField) == Prefixed(corners, FaceCorners(refs[i..], count, normalField))
    {
      assert refs[i..][0] == refs[i] && refs[i..][1..] == refs[i + 1..];
      var ref := RefOf(refs[i], normalField);
      if !InRange(ref.vertex, count) {
        return None;
      }
      var c := AltCorner(ref.vertex.value, ref.normal);
      ghost var later := FaceCorners(refs[i + 1..], count, normalField);
      if later.Some? {
        assert corners + ([c] + later.value) == (corners + [c]) + later.value;
      }
      corners := corners + [c];
      i := i + 1;
    }
    assert refs[i..] == [];
    assert corners + [] == corners;
    return Some(corners);
  }

  /** The `forEach` over the lines of the variant `loadObj`. */
  method ReadLinesAlt(lines: seq<ObjLine>, materials: map<string, Rgba>, normalField: nat) returns (s: ObjAltState)
    ensures s == ObjAltFrom(ObjAltStart, lines, materials, normalField)
  {
    s := ObjAltStart;
    var i := 0;
    while i < |lines|
      invariant 0 <= i <= |lines|
      invariant ObjAltFrom(ObjAltStart, lines, materials, normalField) == ObjAltFrom(s, lines[i..], materials, normalField)
    {
      assert lines[i..][0] == lines[i] && lines[i..][1..] == lines[i + 1..];
      match lines[i] {
        case VN(n) =>
          s := s.(hasNormals := true, normals := s.normals + [n]);
        case V(v) =>
          s := s.(vertices := s.vertices + [v]);
        case F(refs) =>
          var face := ReadFaceAlt(refs, |s.vertices|, normalField);
          if face.Some? {
            s := s.(corners := s.corners + face.value);
          }
        case UseMtl(name) =>
          s := s.(colour := MaterialColour(materials, name));
        case OtherObj =>
      }
      i := i + 1;
    }
  }

  /** The final `faces.forEach` of the variant: position, normal when in range,
      and the final colour, per face-vertex. */
  method EmitAlt(normalized: seq<Vec3>, normals: seq<Vec3>, corners: seq<AltCorner>, colour: Rgba)
    returns (mesh: MeshAlt)
    requires forall k :: 0 <= k < |corners| ==> corners[k].vertex < |normalized|
    ensures mesh == MeshAlt(FlatPositions(normalized, AltVertices(corners)), FlatNormals(normals, corners),
                            Repeat(|corners|, RgbaCoords(colour)))
  {
    var positions: seq<real> := [];
    var normalData: seq<real> := [];
    var colours: seq<real> := [];
    var k := 0;
    while k < |corners|
      invariant 0 <= k <= |corners|
      invariant positions == FlatPositions(normalized, AltVertices(corners[..k]))
      invariant normalData == FlatNormals(normals, corners[..k])
      invariant colours == Repeat(k, RgbaCoords(colour))
    {
      var c := corners[k];
      assert corners[..k + 1][..k] == corners[..k];
      assert AltVertices(corners[..k + 1])[..k] == AltVertices(corners[..k]);
      positions := positions + Coords(normalized[c.vertex]);
      if c.normal.Some? && 0 <= c.normal.value < |normals| {
        normalData := normalData + Coords(normals[c.normal.value]);
      }
      colours := colours + RgbaCoords(colour);
      k := k + 1;
    }
    assert corners[..k] == corners;
    mesh := MeshAlt(positions, normalData, colours);
  }

  /** The variant `loadObj(objContent, mtlContent)`, reading the normal from
      field `normalField` of `split("//")`: `AsWrittenNormalField` is the code
      as written, `IntendedNormalField` its correction. */
  method LoadObjAlt(lines: seq<ObjLine>, mtl: seq<MtlLine>, normalField: nat) returns (r: Result<MeshAlt, AltError>)
    ensures r == LoadObjAltOf(lines, mtl, normalField)
  {
    var materials := LoadMtlAlt(mtl);
    var s := ReadLinesAlt(lines, materials, normalField);
    assert AltCornersValid(ObjAltStart);
    if !s.hasNormals {
      return Failure(NoNormals);
    }
    if |s.corners| == 0 {
      return Success(MeshAlt([], [], []));
    }
    assert s.corners[0].vertex < |s.vertices|;
    if MaxRange(s.vertices) == 0.0 {
      return Failure(DegenerateExtent);
    }
    var mesh := EmitAlt(Normalize(s.vertices), s.normals, s.corners, s.colour);
    return Success(mesh);
  }

  // ------------------------------------------------------- getTerrainHeight

  /** `getTerrainHeight(x, z, mapWidth, mapBufferInfo)` over the position data
      `data`: element `(z * mapWidth + x) * 3 + 1`, or 0 when that index is past
      the data or names no element (negative or fractional; `mapWidth` is a
      square root and need not be whole). A stored 0 reads as 0 as well. */
  function TerrainHeight(x: int, z: int, mapWidth: real, data: seq<real>): real
  {
    var index := (z as real * mapWidth + x as real) * 3.0;
    if index + 1.0 >= |data| as real then 0.0
    else if index + 1.0 < 0.0 || (index + 1.0).Floor as real != index + 1.0 then 0.0
    else data[(index + 1.0).Floor]
  }

  /** On a map `w` cells wide whose data holds three numbers per cell, the
      height of a cell inside the map is the y coordinate of its vertex. */
  lemma TerrainHeightInside(x: nat, z: nat, w: nat, data: seq<real>)
    requires x < w && |data| >= 3 * Offset(w, z, x) + 3
    ensures TerrainHeight(x, z, w as real, data) == data[3 * Offset(w, z, x) + 1]
  {
    var i := Offset(w, z, x);
    assert (z as real * w as real + x as real) == i as real;
    assert (i as real * 3.0 + 1.0) == (3 * i + 1) as real;
    assert ((3 * i + 1) as real).Floor == 3 * i + 1;
  }

  /** Past the end of the data the height is 0. */
  lemma TerrainHeightOutside(x: nat, z: nat, w: nat, data: seq<real>)
    requires |data| <= 3 * Offset(w, z, x) + 1
    ensures TerrainHeight(x, z, w as real, data) == 0.0
  {
    var i := Offset(w, z, x);
    assert (z as real * w as real + x as real) == i as real;
    assert (i as real * 3.0 + 1.0) == (3 * i + 1) as real;
  }
}
