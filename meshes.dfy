/** The Wavefront OBJ/MTL loader of visualization/visualization.js (`loadMtl`,
    `loadObj` and its `normalizeVertices`). Input lines arrive classified by their
    first token, with their numbers read as reals; face references stay text, since
    how they are cut at `/` and read by `parseInt` decides which vertex they name.
    A JavaScript exception thrown by the source becomes a `Failure`. The vertex
    type, the line types and the normalisation are shared with the variant loader
    of visualization/visualizationp.js. */
module MeshLoader {
  import opened Common

  datatype Vec3 = Vec3(x: real, y: real, z: real)

  function Coords(v: Vec3): (c: seq<real>)
    ensures |c| == 3
  {
    [v.x, v.y, v.z]
  }

  /** Coordinate `a` of `v`: 0 is x, 1 is y, any other is z. */
  function Axis(v: Vec3, a: nat): real
  {
    if a == 0 then v.x else if a == 1 then v.y else v.z
  }

  /** An MTL line by its first token; every other line, comments included, is
      `OtherMtl`. A missing name is `None`. */
  datatype MtlLine =
    | NewMtl(name: Option<string>)
    | Ka(v: Vec3)
    | Kd(v: Vec3)
    | Ks(v: Vec3)
    | Ns(value: real)
    | D(value: real)
    | OtherMtl

  /** An OBJ line by its first token. */
  datatype ObjLine =
    | V(v: Vec3)
    | VN(n: Vec3)
    | F(refs: seq<string>)
    | UseMtl(name: Option<string>)
    | OtherObj

  /** The three ways loading goes wrong: a material field before any `newmtl`
      (a TypeError in the source), a face naming a vertex not read yet (the
      spread of `undefined`), and faces over vertices that all coincide (the
      source divides by a zero extent and yields NaN). */
  datatype LoadError = NoCurrentMaterial | BadFaceIndex | ZeroExtent

  /** The object key of a possibly missing name: JavaScript turns `undefined`
      into `"undefined"`. */
  function Key(name: Option<string>): string
  {
    match name
    case None => "undefined"
    case Some(n) => n
  }

  // ---------------------------------------------------------------- loadMtl

  datatype Material = Material(ka: Vec3, kd: Vec3, ks: Vec3, ns: real, d: real)

  /** What `newmtl` stores: `{Ka: [1, 1, 1], Kd: [1, 1, 1], Ks: [0, 0, 0], Ns: 0, d: 1}`. */
  const DefaultMaterial: Material :=
    Material(Vec3(1.0, 1.0, 1.0), Vec3(1.0, 1.0, 1.0), Vec3(0.0, 0.0, 0.0), 0.0, 1.0)

  /** The dictionary and `currentMaterial` of the `forEach` (`None` is `null`). */
  datatype MtlState = MtlState(materials: map<string, Material>, current: Option<string>)

  const MtlStart: MtlState := MtlState(map[], None)

  predicate IsField(line: MtlLine)
  {
    line.Ka? || line.Kd? || line.Ks? || line.Ns? || line.D?
  }

  /** The field a `Ka`, `Kd`, `Ks`, `Ns` or `d` line sets; the others are left. */
  function SetField(m: Material, line: MtlLine): Material
  {
    match line
    case Ka(v) => m.(ka := v)
    case Kd(v) => m.(kd := v)
    case Ks(v) => m.(ks := v)
    case Ns(n) => m.(ns := n)
    case D(d) => m.(d := d)
    case _ => m
  }

  /** One line of `loadMtl`. */
  function MtlStep(s: MtlState, line: MtlLine): Result<MtlState, LoadError>
  {
    if line.NewMtl? then Success(MtlState(s.materials[Key(line.name) := DefaultMaterial], Some(Key(line.name))))
    else if !IsField(line) then Success(s)
    else if s.current.None? || s.current.value !in s.materials then Failure(NoCurrentMaterial)
    else
      var k := s.current.value;
      Success(s.(materials := s.materials[k := SetField(s.materials[k], line)]))
  }

  /** The lines from state `s` on; the first failure ends the walk. */
  function MtlFrom(s: MtlState, lines: seq<MtlLine>): Result<MtlState, LoadError>
    decreases |lines|
  {
    if |lines| == 0 then Success(s)
    else
      match MtlStep(s, lines[0])
      case Failure(e) => Failure(e)
      case Success(t) => MtlFrom(t, lines[1..])
  }

  /** `loadMtl(mtlContent)`: the materials by name. */
  function MaterialsOf(lines: seq<MtlLine>): Result<map<string, Material>, LoadError>
  {
    match MtlFrom(MtlStart, lines)
    case Failure(e) => Failure(e)
    case Success(s) => Success(s.materials)
  }

  /** The material being edited is always in the dictionary. */
  ghost predicate Known(s: MtlState)
  {
    s.current.Some? ==> s.current.value in s.materials
  }

  lemma {:induction false} MtlFromKnown(s: MtlState, lines: seq<MtlLine>)
    requires Known(s)
    ensures MtlFrom(s, lines).Success? ==> Known(MtlFrom(s, lines).value)
    decreases |lines|
  {
    if |lines| > 0 {
      var r := MtlStep(s, lines[0]);
      if r.Success? {
        MtlFromKnown(r.value, lines[1..]);
      }
    }
  }

  predicate NoNewMtlBefore(lines: seq<MtlLine>, i: int)
    requires i <= |lines|
  {
    forall j :: 0 <= j < i ==> !lines[j].NewMtl?
  }

  /** From a state with no material being edited, loading fails exactly when a
      `Ka`, `Kd`, `Ks`, `Ns` or `d` line comes before every `newmtl`. */
  lemma {:induction false} MtlFailsIff(s: MtlState, lines: seq<MtlLine>)
    requires Known(s)
    ensures MtlFrom(s, lines).Failure? <==>
      s.current.None? && exists i :: 0 <= i < |lines| && IsField(lines[i]) && NoNewMtlBefore(lines, i)
    decreases |lines|
  {
    if |lines| > 0 {
      var r := MtlStep(s, lines[0]);
      if lines[0].NewMtl? {
        MtlFromKnown(r.value, []);
        MtlFromNeverFails(r.value, lines[1..]);
        assert !NoNewMtlBefore(lines, 1);
        forall i | 1 <= i < |lines| ensures !NoNewMtlBefore(lines, i) {
          assert !lines[0].NewMtl? == false;
        }
      } else if IsField(lines[0]) {
        if s.current.None? {
          assert IsField(lines[0]) && NoNewMtlBefore(lines, 0);
        } else {
          MtlFromNeverFails(r.value, lines[1..]);
        }
      } else {
        MtlFailsIff(s, lines[1..]);
        if s.current.None? {
          forall i | 0 <= i < |lines| - 1 && IsField(lines[1..][i]) && NoNewMtlBefore(lines[1..], i)
            ensures IsField(lines[i + 1]) && NoNewMtlBefore(lines, i + 1)
          {
            assert forall j :: 1 <= j < i + 1 ==> lines[j] == lines[1..][j - 1];
          }
          forall i | 0 <= i < |lines| && IsField(lines[i]) && NoNewMtlBefore(lines, i)
            ensures i >= 1 && IsField(lines[1..][i - 1]) && NoNewMtlBefore(lines[1..], i - 1)
          {
            assert forall j :: 0 <= j < i - 1 ==> lines[1..][j] == lines[j + 1];
          }
        }
      }
    }
  }

  /** Once a material is being edited, nothing more can fail. */
  lemma {:induction false} MtlFromNeverFails(s: MtlState, lines: seq<MtlLine>)
    requires Known(s) && s.current.Some?
    ensures MtlFrom(s, lines).Success?
    decreases |lines|
  {
    if |lines| > 0 {
      MtlFromNeverFails(MtlStep(s, lines[0]).value, lines[1..]);
    }
  }

  /** Walking `a + b` is walking `a`, then `b` from where `a` left off. */
  lemma {:induction false} MtlFromConcat(s: MtlState, a: seq<MtlLine>, b: seq<MtlLine>)
    ensures MtlFrom(s, a + b) ==
      match MtlFrom(s, a)
      case Failure(e) => Failure(e)
      case Success(t) => MtlFrom(t, b)
    decreases |a|
  {
    if |a| > 0 {
      assert (a + b)[0] == a[0] && (a + b)[1..] == a[1..] + b;
      var r := MtlStep(s, a[0]);
      if r.Success? {
        MtlFromConcat(r.value, a[1..], b);
      }
    } else {
      assert a + b == b;
    }
  }

  /** A `newmtl` line after a loaded text adds (or resets) its material to the
      default and makes it the current one; the other materials stay as they were. */
  lemma NewMtlResets(lines: seq<MtlLine>, name: Option<string>)
    requires MtlFrom(MtlStart, lines).Success?
    ensures var before := MtlFrom(MtlStart, lines).value;
      MtlFrom(MtlStart, lines + [NewMtl(name)]) ==
        Success(MtlState(before.materials[Key(name) := DefaultMaterial], Some(Key(name))))
  {
    MtlFromConcat(MtlStart, lines, [NewMtl(name)]);
  }

  /** A `Ka`, `Kd`, `Ks`, `Ns` or `d` line after a loaded text that has a current
      material sets that one field of that material: the material's other fields,
      the other materials and the current name stay as they were. */
  lemma FieldLineSetsOnlyItsField(lines: seq<MtlLine>, line: MtlLine)
    requires IsField(line)
    requires MtlFrom(MtlStart, lines).Success? && MtlFrom(MtlStart, lines).value.current.Some?
    ensures var before := MtlFrom(MtlStart, lines).value;
      var k := before.current.value;
      var after := MtlFrom(MtlStart, lines + [line]);
      k in before.materials && after.Success? && after.value.current == before.current &&
      after.value.materials.Keys == before.materials.Keys &&
      (forall n :: n in before.materials && n != k ==> after.value.materials[n] == before.materials[n]) &&
      var m, m' := before.materials[k], after.value.materials[k];
      (if line.Ka? then m'.ka == line.v else m'.ka == m.ka) &&
      (if line.Kd? then m'.kd == line.v else m'.kd == m.kd) &&
      (if line.Ks? then m'.ks == line.v else m'.ks == m.ks) &&
      (if line.Ns? then m'.ns == line.value else m'.ns == m.ns) &&
      (if line.D? then m'.d == line.value else m'.d == m.d)
  {
    MtlFromKnown(MtlStart, lines);
    MtlFromConcat(MtlStart, lines, [line]);
  }

  /** The `forEach` of `loadMtl`. */
  method LoadMtl(lines: seq<MtlLine>) returns (r: Result<map<string, Material>, LoadError>)
    ensures r == MaterialsOf(lines)
  {
    var materials: map<string, Material> := map[];
    var current: Option<string> := None;
    var i := 0;
    while i < |lines|
      invariant 0 <= i <= |lines|
      invariant MtlFrom(MtlStart, lines) == MtlFrom(MtlState(materials, current), lines[i..])
    {
      var line := lines[i];
      assert lines[i..][0] == line && lines[i..][1..] == lines[i + 1..];
      if line.NewMtl? {
        current := Some(Key(line.name));
        materials := materials[Key(line.name) := DefaultMaterial];
      } else if IsField(line) {
        if current.None? || current.value !in materials {
          return Failure(NoCurrentMaterial);
        }
        materials := materials[current.value := SetField(materials[current.value], line)];
      }
      i := i + 1;
    }
    return Success(materials);
  }

  // ------------------------------------------------------- normalizeVertices

  /** The least coordinate `a` over `vs`. */
  function Lo(vs: seq<Vec3>, a: nat): real
    requires |vs| > 0
  {
    if |vs| == 1 then Axis(vs[0], a)
    else
      var m := Lo(vs[..|vs| - 1], a);
      var last := Axis(vs[|vs| - 1], a);
      if last < m then last else m
  }

  /** The greatest coordinate `a` over `vs`. */
  function Hi(vs: seq<Vec3>, a: nat): real
    requires |vs| > 0
  {
    if |vs| == 1 then Axis(vs[0], a)
    else
      var m := Hi(vs[..|vs| - 1], a);
      var last := Axis(vs[|vs| - 1], a);
      if last > m then last else m
  }

  /** `Lo` is the least coordinate: at most every vertex's, and some vertex's. */
  lemma {:induction false} LoLeast(vs: seq<Vec3>, a: nat)
    requires |vs| > 0
    ensures forall i :: 0 <= i < |vs| ==> Lo(vs, a) <= Axis(vs[i], a)
    ensures exists i :: 0 <= i < |vs| && Lo(vs, a) == Axis(vs[i], a)
    decreases |vs|
  {
    if |vs| == 1 {
      assert Lo(vs, a) == Axis(vs[0], a);
    } else {
      var n := |vs|;
      var vf := vs[..n - 1];
      assert forall i :: 0 <= i < n - 1 ==> vf[i] == vs[i];
      LoLeast(vf, a);
      var j :| 0 <= j < n - 1 && Lo(vf, a) == Axis(vf[j], a);
      if Axis(vs[n - 1], a) < Lo(vf, a) {
        assert Lo(vs, a) == Axis(vs[n - 1], a);
      } else {
        assert Lo(vs, a) == Axis(vs[j], a);
      }
    }
  }

  /** `Hi` is the greatest coordinate: at least every vertex's, and some vertex's. */
  lemma {:induction false} HiGreatest(vs: seq<Vec3>, a: nat)
    requires |vs| > 0
    ensures forall i :: 0 <= i < |vs| ==> Axis(vs[i], a) <= Hi(vs, a)
    ensures exists i :: 0 <= i < |vs| && Hi(vs, a) == Axis(vs[i], a)
    decreases |vs|
  {
    if |vs| == 1 {
      assert Hi(vs, a) == Axis(vs[0], a);
    } else {
      var n := |vs|;
      var vf := vs[..n - 1];
      assert forall i :: 0 <= i < n - 1 ==> vf[i] == vs[i];
      HiGreatest(vf, a);
      var j :| 0 <= j < n - 1 && Hi(vf, a) == Axis(vf[j], a);
      if Axis(vs[n - 1], a) > Hi(vf, a) {
        assert Hi(vs, a) == Axis(vs[n - 1], a);
      } else {
        assert Hi(vs, a) == Axis(vs[j], a);
      }
    }
  }

  function Max3(a: real, b: real, c: real): real
  {
    if a >= b && a >= c then a else if b >= c then b else c
  }

  /** `maxRange`: the largest extent of the bounding box. */
  function MaxRange(vs: seq<Vec3>): (r: real)
    requires |vs| > 0
    ensures r >= Hi(vs, 0) - Lo(vs, 0) && r >= Hi(vs, 1) - Lo(vs, 1) && r >= Hi(vs, 2) - Lo(vs, 2)
  {
    Max3(Hi(vs, 0) - Lo(vs, 0), Hi(vs, 1) - Lo(vs, 1), Hi(vs, 2) - Lo(vs, 2))
  }

  /** `center`: the middle of the bounding box. */
  function Centre(vs: seq<Vec3>, a: nat): real
    requires |vs| > 0
  {
    (Lo(vs, a) + Hi(vs, a)) / 2.0
  }

  function NormalizeVertex(v: Vec3, vs: seq<Vec3>): Vec3
    requires |vs| > 0 && MaxRange(vs) > 0.0
  {
    var r := MaxRange(vs);
    Vec3((v.x - Centre(vs, 0)) / r, (v.y - Centre(vs, 1)) / r, (v.z - Centre(vs, 2)) / r)
  }

  /** `normalizeVertices(vertices)`: every vertex moved by the centre of their
      bounding box and divided by its largest extent. */
  function Normalize(vs: seq<Vec3>): (nv: seq<Vec3>)
    requires |vs| > 0 && MaxRange(vs) > 0.0
    ensures |nv| == |vs|
  {
    seq(|vs|, i requires 0 <= i < |vs| => NormalizeVertex(vs[i], vs))
  }

  lemma HalfQuotient(d: real, r: real)
    requires r > 0.0 && -r / 2.0 <= d <= r / 2.0
    ensures -0.5 <= d / r <= 0.5
  {
    assert (d / r) * r == d;
  }

  /** Normalisation puts every vertex inside the cube of side 1 around the origin. */
  lemma NormalizeInUnitCube(vs: seq<Vec3>, i: nat, a: nat)
    requires |vs| > 0 && MaxRange(vs) > 0.0 && i < |vs| && a < 3
    ensures -0.5 <= Axis(Normalize(vs)[i], a) <= 0.5
  {
    var r := MaxRange(vs);
    var v := vs[i];
    LoLeast(vs, a);
    HiGreatest(vs, a);
    assert Lo(vs, a) <= Axis(v, a) <= Hi(vs, a);
    assert Axis(Normalize(vs)[i], a) == (Axis(v, a) - Centre(vs, a)) / r;
    HalfQuotient(Axis(v, a) - Centre(vs, a), r);
  }

  /** Moving by `c` and dividing by `r > 0` keeps the order of two numbers. */
  lemma ScaleMonotone(x: real, y: real, c: real, r: real)
    requires r > 0.0
    ensures x < y <==> (x - c) / r < (y - c) / r
  {
    assert (x - c) / r * r == x - c;
    assert (y - c) / r * r == y - c;
    if x < y {
      assert (y - c) / r - (x - c) / r == (y - x) / r;
    } else {
      assert (x - c) / r - (y - c) / r == (x - y) / r;
    }
  }

  /** The lesser of two numbers, moved by `c` and divided by `r > 0`, is the
      lesser of the two quotients; likewise the greater. */
  lemma MinMaxScaled(x: real, m: real, c: real, r: real)
    requires r > 0.0
    ensures ((if x < m then x else m) - c) / r == (if (x - c) / r < (m - c) / r then (x - c) / r else (m - c) / r)
    ensures ((if x > m then x else m) - c) / r == (if (x - c) / r > (m - c) / r then (x - c) / r else (m - c) / r)
  {
    ScaleMonotone(x, m, c, r);
    ScaleMonotone(m, x, c, r);
  }

  /** The least coordinate of points moved by `c` and divided by `r > 0` is the
      least coordinate moved and divided alike. */
  lemma {:induction false} LoScaled(vs: seq<Vec3>, ws: seq<Vec3>, a: nat, c: real, r: real)
    requires |vs| > 0 && |ws| == |vs| && r > 0.0
    requires forall i :: 0 <= i < |vs| ==> Axis(ws[i], a) == (Axis(vs[i], a) - c) / r
    ensures Lo(ws, a) == (Lo(vs, a) - c) / r
    decreases |vs|
  {
    if |vs| > 1 {
      var n := |vs|;
      var vf, wf := vs[..n - 1], ws[..n - 1];
      assert forall i :: 0 <= i < n - 1 ==> vf[i] == vs[i] && wf[i] == ws[i];
      LoScaled(vf, wf, a, c, r);
      var x, m := Axis(vs[n - 1], a), Lo(vf, a);
      assert Lo(vs, a) == if x < m then x else m;
      assert Lo(ws, a) == if Axis(ws[n - 1], a) < Lo(wf, a) then Axis(ws[n - 1], a) else Lo(wf, a);
      MinMaxScaled(x, m, c, r);
    }
  }

  /** The greatest coordinate, likewise. */
  lemma {:induction false} HiScaled(vs: seq<Vec3>, ws: seq<Vec3>, a: nat, c: real, r: real)
    requires |vs| > 0 && |ws| == |vs| && r > 0.0
    requires forall i :: 0 <= i < |vs| ==> Axis(ws[i], a) == (Axis(vs[i], a) - c) / r
    ensures Hi(ws, a) == (Hi(vs, a) - c) / r
    decreases |vs|
  {
    if |vs| > 1 {
      var n := |vs|;
      var vf, wf := vs[..n - 1], ws[..n - 1];
      assert forall i :: 0 <= i < n - 1 ==> vf[i] == vs[i] && wf[i] == ws[i];
      HiScaled(vf, wf, a, c, r);
      var x, m := Axis(vs[n - 1], a), Hi(vf, a);
      assert Hi(vs, a) == if x > m then x else m;
      assert Hi(ws, a) == if Axis(ws[n - 1], a) > Hi(wf, a) then Axis(ws[n - 1], a) else Hi(wf, a);
      MinMaxScaled(x, m, c, r);
    }
  }

  /** Coordinate `a` of a normalised vertex. */
  lemma AxisNormalized(v: Vec3, vs: seq<Vec3>, a: nat)
    requires |vs| > 0 && MaxRange(vs) > 0.0 && a < 3
    ensures Axis(NormalizeVertex(v, vs), a) == (Axis(v, a) - Centre(vs, a)) / MaxRange(vs)
  {
    if a == 0 {
    } else if a == 1 {
    } else {
      assert a == 2;
    }
  }

  /** Coordinate `a` of every normalised vertex. */
  lemma NormalizedAxes(vs: seq<Vec3>, a: nat)
    requires |vs| > 0 && MaxRange(vs) > 0.0 && a < 3
    ensures forall i :: 0 <= i < |vs| ==>
      Axis(Normalize(vs)[i], a) == (Axis(vs[i], a) - Centre(vs, a)) / MaxRange(vs)
  {
    forall i | 0 <= i < |vs|
      ensures Axis(Normalize(vs)[i], a) == (Axis(vs[i], a) - Centre(vs, a)) / MaxRange(vs)
    {
      AxisNormalized(vs[i], vs, a);
    }
  }

  /** The bounds of the normalised vertices on axis `a`. */
  lemma NormalizedBounds(vs: seq<Vec3>, a: nat)
    requires |vs| > 0 && MaxRange(vs) > 0.0 && a < 3
    ensures Lo(Normalize(vs), a) == (Lo(vs, a) - Centre(vs, a)) / MaxRange(vs)
    ensures Hi(Normalize(vs), a) == (Hi(vs, a) - Centre(vs, a)) / MaxRange(vs)
  {
    NormalizedAxes(vs, a);
    LoScaled(vs, Normalize(vs), a, Centre(vs, a), MaxRange(vs));
    HiScaled(vs, Normalize(vs), a, Centre(vs, a), MaxRange(vs));
  }

  /** The width and the middle of a moved and divided interval `[l, h]` centred at `c`. */
  lemma IntervalScaled(l: real, h: real, c: real, r: real)
    requires r > 0.0 && c == (l + h) / 2.0
    ensures (h - c) / r - (l - c) / r == (h - l) / r
    ensures ((l - c) / r + (h - c) / r) / 2.0 == 0.0
  {
    var x, y := (l - c) / r, (h - c) / r;
    assert x * r == l - c && y * r == h - c;
    assert (x + y) * r == 0.0;
    assert (y - x) * r == h - l;
  }

  /** The extent of the normalised vertices on axis `a` is the original extent
      over the range, and their centre is 0. */
  lemma NormalizedExtent(vs: seq<Vec3>, a: nat)
    requires |vs| > 0 && MaxRange(vs) > 0.0 && a < 3
    ensures Hi(Normalize(vs), a) - Lo(Normalize(vs), a) == (Hi(vs, a) - Lo(vs, a)) / MaxRange(vs)
    ensures Centre(Normalize(vs), a) == 0.0
  {
    NormalizedBounds(vs, a);
    IntervalScaled(Lo(vs, a), Hi(vs, a), Centre(vs, a), MaxRange(vs));
  }

  /** The largest of three numbers divided by `r > 0` is the largest of the quotients. */
  lemma Max3Scaled(x: real, y: real, z: real, r: real)
    requires r > 0.0
    ensures Max3(x / r, y / r, z / r) == Max3(x, y, z) / r
  {
    ScaleMonotone(x, y, 0.0, r);
    ScaleMonotone(y, z, 0.0, r);
    ScaleMonotone(x, z, 0.0, r);
    ScaleMonotone(y, x, 0.0, r);
    ScaleMonotone(z, y, 0.0, r);
    ScaleMonotone(z, x, 0.0, r);
  }

  lemma DivSelf(r: real)
    requires r > 0.0
    ensures r / r == 1.0
  {
  }

  /** `normalizeVertices` centres the bounding box on the origin and makes its
      largest extent 1. */
  lemma NormalizeCentredUnit(vs: seq<Vec3>)
    requires |vs| > 0 && MaxRange(vs) > 0.0
    ensures MaxRange(Normalize(vs)) == 1.0
    ensures forall a :: 0 <= a < 3 ==> Centre(Normalize(vs), a) == 0.0
  {
    var nv := Normalize(vs);
    var r := MaxRange(vs);
    var e0, e1, e2 := Hi(vs, 0) - Lo(vs, 0), Hi(vs, 1) - Lo(vs, 1), Hi(vs, 2) - Lo(vs, 2);
    NormalizedExtent(vs, 0);
    NormalizedExtent(vs, 1);
    NormalizedExtent(vs, 2);
    var m := Max3(e0 / r, e1 / r, e2 / r);
    assert MaxRange(nv) == m;
    Max3Scaled(e0, e1, e2, r);
    assert Max3(e0, e1, e2) == r;
    DivSelf(r);
  }

  // ---------------------------------------------------------------- loadObj

  /** A colour `[r, g, b, a]`: a material's `Kd` and its opacity. */
  datatype Rgba = Rgba(rgb: Vec3, alpha: real)

  /** The four numbers a colour contributes to a colour buffer. */
  function RgbaCoords(c: Rgba): (n: seq<real>)
    ensures |n| == 4
  {
    Coords(c.rgb) + [c.alpha]
  }

  /** `[1.0, 1.0, 1.0, 1.0]`: white, fully visible. */
  const White: Rgba := Rgba(Vec3(1.0, 1.0, 1.0), 1.0)

  /** One face-vertex: the vertex it names and the colour pushed for it. */
  datatype Corner = Corner(vertex: nat, colour: Rgba)

  /** The state of the `forEach` of `loadObj`: the vertices read so far, the
      face-vertices and `currentMaterialName`. */
  datatype ObjState = ObjState(vertices: seq<Vec3>, corners: seq<Corner>, active: Option<string>)

  const ObjStart: ObjState := ObjState([], [], None)

  /** `v.split("/").map((x) => (x ? parseInt(x, 10) - 1 : undefined))[0]`: the
      zero-based vertex of a face reference; `None` for an empty field (undefined)
      and for text without digits (NaN). */
  function FaceIndex(tok: string): Option<int>
  {
    var head := Split(tok, "/")[0];
    if |head| == 0 then None
    else match ParseInt(head)
      case None => None
      case Some(k) => Some(k - 1)
  }

  /** The index names one of the `count` vertices read so far. */
  predicate InRange(i: Option<int>, count: nat)
  {
    i.Some? && 0 <= i.value < count
  }

  /** The colour of a face-vertex: the current material's `Kd` followed by its `d`
      when `usemtl` named a material the file defines, otherwise white, fully visible. */
  function ColourOf(materials: map<string, Material>, active: Option<string>): (c: Rgba)
  {
    if active.Some? && |active.value| > 0 && active.value in materials then
      var m := materials[active.value];
      Rgba(m.kd, m.d)
    else White
  }

  ghost predicate CornersValid(s: ObjState)
  {
    forall k :: 0 <= k < |s.corners| ==> s.corners[k].vertex < |s.vertices|
  }

  /** The vertex index each reference of an `f` line names, in order. */
  function RefIndices(refs: seq<string>): (idx: seq<Option<int>>)
    ensures |idx| == |refs|
  {
    if |refs| == 0 then [] else [FaceIndex(refs[0])] + RefIndices(refs[1..])
  }

  /** Entry `k` of `RefIndices(refs)` is the index reference `k` names. */
  lemma {:induction false} RefIndexAt(refs: seq<string>, k: nat)
    requires k < |refs|
    ensures RefIndices(refs)[k] == FaceIndex(refs[k])
    decreases k
  {
    if k > 0 {
      RefIndexAt(refs[1..], k - 1);
    }
  }

  /** The references of one `f` line, left to right, by the indices they name. */
  function FaceStep(s: ObjState, idx: seq<Option<int>>, materials: map<string, Material>): (r: Result<ObjState, LoadError>)
    decreases |idx|
  {
    if |idx| == 0 then Success(s)
    else
      var i := idx[0];
      if InRange(i, |s.vertices|) then
        FaceStep(s.(corners := s.corners + [Corner(i.value, ColourOf(materials, s.active))]), idx[1..], materials)
      else Failure(BadFaceIndex)
  }

  function ObjStep(s: ObjState, line: ObjLine, materials: map<string, Material>): (r: Result<ObjState, LoadError>)
  {
    match line
    case V(v) => Success(s.(vertices := s.vertices + [v]))
    case F(refs) => FaceStep(s, RefIndices(refs), materials)
    case UseMtl(name) => Success(s.(active := name))
    case _ => Success(s)
  }

  function ObjFrom(s: ObjState, lines: seq<ObjLine>, materials: map<string, Material>): (r: Result<ObjState, LoadError>)
    decreases |lines|
  {
    if |lines| == 0 then Success(s)
    else
      match ObjStep(s, lines[0], materials)
      case Failure(e) => Failure(e)
      case Success(t) => ObjFrom(t, lines[1..], materials)
  }

  /** A face line that is read keeps every face-vertex on a vertex read so far. */
  lemma {:induction false} FaceStepValid(s: ObjState, idx: seq<Option<int>>, materials: map<string, Material>)
    requires CornersValid(s) && FaceStep(s, idx, materials).Success?
    ensures CornersValid(FaceStep(s, idx, materials).value)
    decreases |idx|
  {
    if |idx| > 0 {
      var i := idx[0];
      var s' := s.(corners := s.corners + [Corner(i.value, ColourOf(materials, s.active))]);
      assert forall k :: 0 <= k < |s.corners| ==> s'.corners[k] == s.corners[k];
      FaceStepValid(s', idx[1..], materials);
    }
  }

  /** Lines that are read keep every face-vertex on a vertex read so far. */
  lemma {:induction false} ObjFromValid(s: ObjState, lines: seq<ObjLine>, materials: map<string, Material>)
    requires CornersValid(s) && ObjFrom(s, lines, materials).Success?
    ensures CornersValid(ObjFrom(s, lines, materials).value)
    decreases |lines|
  {
    if |lines| > 0 {
      var r := ObjStep(s, lines[0], materials);
      if lines[0].F? {
        FaceStepValid(s, RefIndices(lines[0].refs), materials);
      }
      ObjFromValid(r.value, lines[1..], materials);
    }
  }

  /** The numbers of the face-vertices, three per face-vertex, in order. */
  function FlatPositions(nv: seq<Vec3>, idx: seq<nat>): seq<real>
    requires forall k :: 0 <= k < |idx| ==> idx[k] < |nv|
  {
    if |idx| == 0 then []
    else FlatPositions(nv, idx[..|idx| - 1]) + Coords(nv[idx[|idx| - 1]])
  }

  /** The vertex of each face-vertex. */
  function Vertices(cs: seq<Corner>): (idx: seq<nat>)
    ensures |idx| == |cs| && forall k :: 0 <= k < |cs| ==> idx[k] == cs[k].vertex
  {
    seq(|cs|, k requires 0 <= k < |cs| => cs[k].vertex)
  }

  function FlatColours(cs: seq<Corner>): seq<real>
  {
    if |cs| == 0 then [] else FlatColours(cs[..|cs| - 1]) + RgbaCoords(cs[|cs| - 1].colour)
  }

  /** What `loadObj` returns: `a_position` and `a_color` data. */
  datatype Mesh = Mesh(positions: seq<real>, colours: seq<real>)

  /** The mesh of a parsed file: positions are normalised over every vertex of
      the file, including those read after a face. */
  function MeshOf(s: ObjState): Result<Mesh, LoadError>
    requires CornersValid(s)
  {
    if |s.corners| == 0 then Success(Mesh([], []))
    else
      assert s.corners[0].vertex < |s.vertices|;
      if MaxRange(s.vertices) == 0.0 then Failure(ZeroExtent)
      else Success(Mesh(FlatPositions(Normalize(s.vertices), Vertices(s.corners)), FlatColours(s.corners)))
  }

  /** `loadObj(objContent, mtlContent)`. */
  function LoadObjOf(lines: seq<ObjLine>, mtl: seq<MtlLine>): Result<Mesh, LoadError>
  {
    match MaterialsOf(mtl)
    case Failure(e) => Failure(e)
    case Success(materials) =>
      match ObjFrom(ObjStart, lines, materials)
      case Failure(e) => Failure(e)
      case Success(s) =>
        assert CornersValid(ObjStart);
        ObjFromValid(ObjStart, lines, materials);
        MeshOf(s)
  }

  /** Every face-vertex gives exactly three position numbers, the coordinates
      of its vertex. */
  lemma {:induction false} PositionsShape(nv: seq<Vec3>, idx: seq<nat>)
    requires forall k :: 0 <= k < |idx| ==> idx[k] < |nv|
    ensures |FlatPositions(nv, idx)| == 3 * |idx|
    ensures forall k, j :: 0 <= k < |idx| && 0 <= j < 3 ==>
      Offset(3, k, j) < 3 * |idx| && FlatPositions(nv, idx)[Offset(3, k, j)] == Axis(nv[idx[k]], j)
  {
    if |idx| > 0 {
      var n := |idx|;
      var front := idx[..n - 1];
      PositionsShape(nv, front);
      forall k, j | 0 <= k < n && 0 <= j < 3
        ensures Offset(3, k, j) < 3 * n && FlatPositions(nv, idx)[Offset(3, k, j)] == Axis(nv[idx[k]], j)
      {
        OffsetBound(3, k, j, n);
        if k < n - 1 {
          assert idx[k] == front[k];
        }
      }
    }
  }

  /** Every face-vertex gives exactly four colour numbers, its colour. */
  lemma {:induction false} ColoursShape(cs: seq<Corner>)
    ensures |FlatColours(cs)| == 4 * |cs|
    ensures forall k, j :: 0 <= k < |cs| && 0 <= j < 4 ==>
      Offset(4, k, j) < 4 * |cs| && FlatColours(cs)[Offset(4, k, j)] == RgbaCoords(cs[k].colour)[j]
  {
    if |cs| > 0 {
      var n := |cs|;
      var front := cs[..n - 1];
      ColoursShape(front);
      forall k, j | 0 <= k < n && 0 <= j < 4
        ensures Offset(4, k, j) < 4 * n && FlatColours(cs)[Offset(4, k, j)] == RgbaCoords(cs[k].colour)[j]
      {
        OffsetBound(4, k, j, n);
        if k < n - 1 {
          assert cs[k] == front[k];
        }
      }
    }
  }

  /** A face line succeeds exactly when each index its references name is a
      vertex read so far; it then adds one face-vertex per reference, in order,
      on that vertex and with the colour of the current material, and changes
      nothing else. */
  lemma FaceStepEffect(s: ObjState, idx: seq<Option<int>>, materials: map<string, Material>)
    ensures FaceStep(s, idx, materials).Success? <==>
      forall k :: 0 <= k < |idx| ==> InRange(idx[k], |s.vertices|)
    ensures FaceStep(s, idx, materials).Success? ==>
      var t := FaceStep(s, idx, materials).value;
      t.vertices == s.vertices && t.active == s.active &&
      |t.corners| == |s.corners| + |idx| && t.corners[..|s.corners|] == s.corners &&
      forall p :: |s.corners| <= p < |t.corners| ==>
        idx[p - |s.corners|] == Some(t.corners[p].vertex as int) &&
        t.corners[p].colour == ColourOf(materials, s.active)
  {
    FaceStepSucceeds(s, idx, materials);
    if FaceStep(s, idx, materials).Success? {
      FaceStepShape(s, idx, materials);
    }
  }

  lemma {:induction false} FaceStepSucceeds(s: ObjState, idx: seq<Option<int>>, materials: map<string, Material>)
    ensures FaceStep(s, idx, materials).Success? <==>
      forall k :: 0 <= k < |idx| ==> InRange(idx[k], |s.vertices|)
    decreases |idx|
  {
    if |idx| > 0 {
      var i := idx[0];
      if InRange(i, |s.vertices|) {
        var s' := s.(corners := s.corners + [Corner(i.value, ColourOf(materials, s.active))]);
        assert FaceStep(s, idx, materials) == FaceStep(s', idx[1..], materials);
        FaceStepSucceeds(s', idx[1..], materials);
        assert forall k :: 0 < k < |idx| ==> idx[k] == idx[1..][k - 1];
      }
    }
  }

  lemma {:induction false} FaceStepShape(s: ObjState, idx: seq<Option<int>>, materials: map<string, Material>)
    requires FaceStep(s, idx, materials).Success?
    ensures var t := FaceStep(s, idx, materials).value;
      t.vertices == s.vertices && t.active == s.active &&
      |t.corners| == |s.corners| + |idx| && t.corners[..|s.corners|] == s.corners &&
      forall p :: |s.corners| <= p < |t.corners| ==>
        idx[p - |s.corners|] == Some(t.corners[p].vertex as int) &&
        t.corners[p].colour == ColourOf(materials, s.active)
    decreases |idx|
  {
    if |idx| > 0 {
      var i := idx[0];
      var c := Corner(i.value, ColourOf(materials, s.active));
      var s' := s.(corners := s.corners + [c]);
      assert FaceStep(s, idx, materials) == FaceStep(s', idx[1..], materials);
      FaceStepShape(s', idx[1..], materials);
      var t := FaceStep(s', idx[1..], materials).value;
      var n := |s.corners|;
      assert t.corners[..n] == t.corners[..n + 1][..n];
      assert t.corners[n] == t.corners[..n + 1][n] == c;
      forall p | n <= p < |t.corners|
        ensures idx[p - n] == Some(t.corners[p].vertex as int)
        ensures t.corners[p].colour == ColourOf(materials, s.active)
      {
        if p > n {
          assert idx[p - n] == idx[1..][p - (n + 1)];
        }
      }
    } else {
      assert FaceStep(s, idx, materials) == Success(s);
    }
  }

  /** The only way a face line fails is a reference to a missing vertex. */
  lemma {:induction false} FaceStepError(s: ObjState, idx: seq<Option<int>>, materials: map<string, Material>)
    ensures FaceStep(s, idx, materials).Failure? ==> FaceStep(s, idx, materials).error == BadFaceIndex
    decreases |idx|
  {
    if |idx| > 0 {
      var i := idx[0];
      if InRange(i, |s.vertices|) {
        FaceStepError(s.(corners := s.corners + [Corner(i.value, ColourOf(materials, s.active))]), idx[1..], materials);
      }
    }
  }

  /** Walking `a + b` is walking `a`, then `b` from where `a` left off. */
  lemma {:induction false} ObjFromConcat(s: ObjState, a: seq<ObjLine>, b: seq<ObjLine>, materials: map<string, Material>)
    ensures ObjFrom(s, a + b, materials) ==
      match ObjFrom(s, a, materials)
      case Failure(e) => Failure(e)
      case Success(t) => ObjFrom(t, b, materials)
    decreases |a|
  {
    if |a| > 0 {
      assert (a + b)[0] == a[0] && (a + b)[1..] == a[1..] + b;
      var r := ObjStep(s, a[0], materials);
      if r.Success? {
        ObjFromConcat(r.value, a[1..], b, materials);
      }
    } else {
      assert a + b == b;
    }
  }

  /** The name of the last `usemtl` of `lines`, `start` if there is none. */
  function LastUseMtl(lines: seq<ObjLine>, start: Option<string>): Option<string>
  {
    if |lines| == 0 then start
    else if lines[|lines| - 1].UseMtl? then lines[|lines| - 1].name
    else LastUseMtl(lines[..|lines| - 1], start)
  }

  /** Vertices only grow, face-vertices only grow, and the current material is
      the last `usemtl` read. */
  lemma {:induction false} ObjFromEffect(s: ObjState, lines: seq<ObjLine>, materials: map<string, Material>)
    requires ObjFrom(s, lines, materials).Success?
    ensures var t := ObjFrom(s, lines, materials).value;
      |s.vertices| <= |t.vertices| && t.vertices[..|s.vertices|] == s.vertices &&
      |s.corners| <= |t.corners| && t.corners[..|s.corners|] == s.corners &&
      t.active == LastUseMtl(lines, s.active)
    decreases |lines|
  {
    if |lines| > 0 {
      var front := lines[..|lines| - 1];
      var last := lines[|lines| - 1];
      assert lines == front + [last];
      ObjFromConcat(s, front, [last], materials);
      var u := ObjFrom(s, front, materials).value;
      ObjFromEffect(s, front, materials);
      var t := ObjFrom(s, lines, materials).value;
      assert ObjStep(u, last, materials) == Success(t);
      if last.F? {
        FaceStepEffect(u, RefIndices(last.refs), materials);
      }
      assert t.vertices[..|s.vertices|] == t.vertices[..|u.vertices|][..|s.vertices|];
      assert t.corners[..|s.corners|] == t.corners[..|u.corners|][..|s.corners|];
    }
  }

  /** The colours of a face: when the lines load from state `s`, the
      face-vertices of the face line that follows the lines `a` carry the colour
      of the material named by the last `usemtl` of `a` (of `s` when there is
      none; white when that names no material), and stand on the vertices their
      references name. Loading a whole file is the case `s == ObjStart`. */
  lemma FaceColours(s: ObjState, a: seq<ObjLine>, refs: seq<string>, b: seq<ObjLine>, k: nat, materials: map<string, Material>)
    requires ObjFrom(s, a + ([F(refs)] + b), materials).Success? && k < |refs|
    ensures ObjFrom(s, a, materials).Success?
    ensures var first := |ObjFrom(s, a, materials).value.corners|;
      var t := ObjFrom(s, a + ([F(refs)] + b), materials).value;
      first + k < |t.corners| &&
      t.corners[first + k].colour == ColourOf(materials, LastUseMtl(a, s.active)) &&
      RefIndices(refs)[k] == Some(t.corners[first + k].vertex as int)
  {
    ObjFromSplit(s, a, [F(refs)] + b, materials);
    FaceThenRest(ObjFrom(s, a, materials).value, refs, b, k, materials);
    ActiveAfter(s, a, materials);
  }

  /** The material in use after lines that load is the last `usemtl` among them. */
  lemma ActiveAfter(s: ObjState, lines: seq<ObjLine>, materials: map<string, Material>)
    requires ObjFrom(s, lines, materials).Success?
    ensures ObjFrom(s, lines, materials).value.active == LastUseMtl(lines, s.active)
  {
    ObjFromEffect(s, lines, materials);
  }

  /** A file that loads loaded its first part, and the rest continues from there. */
  lemma ObjFromSplit(s: ObjState, a: seq<ObjLine>, rest: seq<ObjLine>, materials: map<string, Material>)
    requires ObjFrom(s, a + rest, materials).Success?
    ensures ObjFrom(s, a, materials).Success?
    ensures ObjFrom(ObjFrom(s, a, materials).value, rest, materials) == ObjFrom(s, a + rest, materials)
  {
    ObjFromConcat(s, a, rest, materials);
  }

  /** Face-vertex `k` of a face line read from `u`, whatever lines follow. */
  lemma FaceThenRest(u: ObjState, refs: seq<string>, b: seq<ObjLine>, k: nat, materials: map<string, Material>)
    requires ObjFrom(u, [F(refs)] + b, materials).Success? && k < |refs|
    ensures var t := ObjFrom(u, [F(refs)] + b, materials).value;
      |u.corners| + k < |t.corners| &&
      t.corners[|u.corners| + k].colour == ColourOf(materials, u.active) &&
      RefIndices(refs)[k] == Some(t.corners[|u.corners| + k].vertex as int)
  {
    FaceLine(u, refs, b, materials);
    var m := FaceStep(u, RefIndices(refs), materials).value;
    FaceCorner(u, RefIndices(refs), k, materials);
    CornerKept(m, b, |u.corners| + k, materials);
  }

  /** Face-vertex `k` of a face line that succeeds. */
  lemma FaceCorner(s: ObjState, idx: seq<Option<int>>, k: nat, materials: map<string, Material>)
    requires FaceStep(s, idx, materials).Success? && k < |idx|
    ensures var m := FaceStep(s, idx, materials).value;
      |s.corners| + k < |m.corners| &&
      m.corners[|s.corners| + k].colour == ColourOf(materials, s.active) &&
      idx[k] == Some(m.corners[|s.corners| + k].vertex as int)
  {
    FaceStepShape(s, idx, materials);
    assert (|s.corners| + k) - |s.corners| == k;
  }


  /** A face line followed by `b` is the face, then `b`. */
  lemma FaceLine(u: ObjState, refs: seq<string>, b: seq<ObjLine>, materials: map<string, Material>)
    requires ObjFrom(u, [F(refs)] + b, materials).Success?
    ensures FaceStep(u, RefIndices(refs), materials).Success?
    ensures ObjFrom(u, [F(refs)] + b, materials) == ObjFrom(FaceStep(u, RefIndices(refs), materials).value, b, materials)
  {
    var rest := [F(refs)] + b;
    assert rest[0] == F(refs) && rest[1..] == b;
  }

  /** Reading more lines keeps the face-vertices read so far. */
  lemma CornerKept(s: ObjState, lines: seq<ObjLine>, p: nat, materials: map<string, Material>)
    requires ObjFrom(s, lines, materials).Success? && p < |s.corners|
    ensures var t := ObjFrom(s, lines, materials).value;
      p < |t.corners| && t.corners[p] == s.corners[p]
  {
    ObjFromEffect(s, lines, materials);
    var t := ObjFrom(s, lines, materials).value;
    assert t.corners[p] == t.corners[..|s.corners|][p];
  }


  /** The number of `v` lines. */
  function VertexCount(lines: seq<ObjLine>): nat
  {
    if |lines| == 0 then 0 else VertexCount(lines[..|lines| - 1]) + (if lines[|lines| - 1].V? then 1 else 0)
  }

  /** Reference `k` of line `i` names no vertex read before that line. */
  predicate BadRef(lines: seq<ObjLine>, i: nat, k: nat, before: nat)
    requires i < |lines|
  {
    lines[i].F? && k < |lines[i].refs| && !InRange(RefIndices(lines[i].refs)[k], before + VertexCount(lines[..i]))
  }

  /** Parsing fails exactly when some face reference names a vertex not read
      yet: an index below 1, past the `v` lines before it, or no number. */
  lemma {:induction false} ObjFailsIff(s: ObjState, lines: seq<ObjLine>, materials: map<string, Material>)
    ensures ObjFrom(s, lines, materials).Failure? <==>
      exists i, k :: 0 <= i < |lines| && BadRef(lines, i, k, |s.vertices|)
    ensures ObjFrom(s, lines, materials).Failure? ==> ObjFrom(s, lines, materials).error == BadFaceIndex
    decreases |lines|
  {
    if |lines| > 0 {
      var line := lines[0];
      var tail := lines[1..];
      var after := |s.vertices| + (if line.V? then 1 else 0);
      BadRefShift(lines, tail, |s.vertices|, after);
      assert lines[..0] == [];
      var r := ObjStep(s, line, materials);
      if line.F? {
        FaceStepEffect(s, RefIndices(line.refs), materials);
        FaceStepError(s, RefIndices(line.refs), materials);
      }
      if r.Success? {
        assert |r.value.vertices| == after;
        ObjFailsIff(r.value, tail, materials);
        assert forall k :: !BadRef(lines, 0, k, |s.vertices|);
      } else {
        var k :| 0 <= k < |line.refs| && !InRange(RefIndices(line.refs)[k], |s.vertices|);
        assert BadRef(lines, 0, k, |s.vertices|);
      }
    }
  }

  /** Moving past the first line: the bad references are those of the first
      line and those of the rest, counted with the first line's vertex. */
  lemma BadRefShift(lines: seq<ObjLine>, tail: seq<ObjLine>, before: nat, after: nat)
    requires |lines| > 0 && tail == lines[1..] && after == before + (if lines[0].V? then 1 else 0)
    ensures (exists i, k :: 0 <= i < |lines| && BadRef(lines, i, k, before)) <==>
      (exists k :: BadRef(lines, 0, k, before)) ||
      (exists i, k :: 0 <= i < |tail| && BadRef(tail, i, k, after))
  {
    forall i, k | 0 <= i < |tail|
      ensures BadRef(tail, i, k, after) <==> BadRef(lines, i + 1, k, before)
    {
      VertexCountShift(lines, i + 1);
      assert tail[i] == lines[i + 1];
    }
    if exists i, k :: 0 <= i < |lines| && BadRef(lines, i, k, before) {
      var i, k :| 0 <= i < |lines| && BadRef(lines, i, k, before);
      if i > 0 {
        assert BadRef(tail, i - 1, k, after);
      }
    }
  }

  lemma {:induction false} VertexCountShift(lines: seq<ObjLine>, n: nat)
    requires 1 <= n <= |lines|
    ensures VertexCount(lines[..n]) == (if lines[0].V? then 1 else 0) + VertexCount(lines[1..][..n - 1])
  {
    if n > 1 {
      VertexCountShift(lines, n - 1);
      assert lines[..n][..n - 1] == lines[..n - 1];
      assert lines[1..][..n - 1][..n - 2] == lines[1..][..n - 2];
      assert lines[1..][..n - 1][n - 2] == lines[n - 1];
    } else {
      assert lines[..1][..0] == [];
    }
  }

  /** The positions of a loaded mesh: three per face-vertex, the normalised
      coordinates of the vertex it names, normalised over all `v` lines of the
      file; its colours: four per face-vertex. */
  lemma LoadedMeshShape(lines: seq<ObjLine>, mtl: seq<MtlLine>)
    requires LoadObjOf(lines, mtl).Success?
    ensures var materials := MaterialsOf(mtl).value;
      var s := ObjFrom(ObjStart, lines, materials).value;
      var mesh := LoadObjOf(lines, mtl).value;
      |mesh.positions| == 3 * |s.corners| && |mesh.colours| == 4 * |s.corners| &&
      (|s.corners| > 0 ==> (|s.vertices| > 0 && MaxRange(s.vertices) > 0.0 &&
        forall k, j :: 0 <= k < |s.corners| && 0 <= j < 3 ==>
          s.corners[k].vertex < |s.vertices| && Offset(3, k, j) < |mesh.positions| &&
          mesh.positions[Offset(3, k, j)] == Axis(NormalizeVertex(s.vertices[s.corners[k].vertex], s.vertices), j)))
  {
    var materials := MaterialsOf(mtl).value;
    var s := ObjFrom(ObjStart, lines, materials).value;
    assert CornersValid(ObjStart);
    ObjFromValid(ObjStart, lines, materials);
    if |s.corners| > 0 {
      assert s.corners[0].vertex < |s.vertices|;
      PositionsShape(Normalize(s.vertices), Vertices(s.corners));
      ColoursShape(s.corners);
    }
  }

  /** The `forEach` over the references of one `f` line: each reference is
      checked against the vertices read so far and pushes its colour. */
  method ReadFace(refs: seq<string>, vertexCount: nat, colour: Rgba, ghost s: ObjState,
                  ghost materials: map<string, Material>, corners0: seq<Corner>, colours0: seq<real>)
    returns (ok: bool, corners: seq<Corner>, colours: seq<real>)
    requires |s.vertices| == vertexCount && s.corners == corners0 && colour == ColourOf(materials, s.active)
    requires colours0 == FlatColours(corners0)
    ensures ok <==> FaceStep(s, RefIndices(refs), materials).Success?
    ensures !ok ==> FaceStep(s, RefIndices(refs), materials) == Failure(BadFaceIndex)
    ensures ok ==> FaceStep(s, RefIndices(refs), materials) == Success(s.(corners := corners)) && colours == FlatColours(corners)
  {
    corners, colours := corners0, colours0;
    var i := 0;
    while i < |refs|
      invariant 0 <= i <= |refs|
      invariant FaceStep(s, RefIndices(refs), materials) == FaceStep(s.(corners := corners), RefIndices(refs)[i..], materials)
      invariant colours == FlatColours(corners)
    {
      var index := RefIndices(refs)[i];
      RefIndexAt(refs, i);
      assert RefIndices(refs)[i..][0] == index && RefIndices(refs)[i..][1..] == RefIndices(refs)[i + 1..];
      if !InRange(index, vertexCount) {
        return false, corners, colours;
      }
      ghost var before := corners;
      corners := corners + [Corner(index.value, colour)];
      assert corners[..|corners| - 1] == before;
      colours := colours + RgbaCoords(colour);
      i := i + 1;
    }
    assert RefIndices(refs)[i..] == [];
    ok := true;
  }

  /** The `forEach` over the lines of `loadObj`; a throw ends it. The colours
      are pushed as the faces are read. */
  method ReadLines(lines: seq<ObjLine>, materials: map<string, Material>)
    returns (r: Result<ObjState, LoadError>, colours: seq<real>)
    ensures r == ObjFrom(ObjStart, lines, materials)
    ensures r.Success? ==> colours == FlatColours(r.value.corners)
  {
    var vertices: seq<Vec3> := [];
    var corners: seq<Corner> := [];
    var active: Option<string> := None;
    colours := [];
    var i := 0;
    while i < |lines|
      invariant 0 <= i <= |lines|
      invariant ObjFrom(ObjStart, lines, materials) == ObjFrom(ObjState(vertices, corners, active), lines[i..], materials)
      invariant colours == FlatColours(corners)
    {
      var line := lines[i];
      assert lines[i..][0] == line && lines[i..][1..] == lines[i + 1..];
      match line {
        case V(v) =>
          vertices := vertices + [v];
        case F(refs) =>
          ghost var s := ObjState(vertices, corners, active);
          var ok, corners', colours' := ReadFace(refs, |vertices|, ColourOf(materials, active), s, materials, corners, colours);
          if !ok {
            return Failure(BadFaceIndex), colours;
          }
          corners, colours := corners', colours';
        case UseMtl(name) =>
          active := name;
        case VN(_) =>
        case OtherObj =>
      }
      i := i + 1;
    }
    r := Success(ObjState(vertices, corners, active));
  }

  /** The final `faces.forEach`: the normalised coordinates of each face-vertex. */
  method Positions(normalized: seq<Vec3>, idx: seq<nat>) returns (positions: seq<real>)
    requires forall k :: 0 <= k < |idx| ==> idx[k] < |normalized|
    ensures positions == FlatPositions(normalized, idx)
  {
    positions := [];
    var k := 0;
    while k < |idx|
      invariant 0 <= k <= |idx|
      invariant positions == FlatPositions(normalized, idx[..k])
    {
      assert idx[..k + 1][..k] == idx[..k];
      positions := positions + Coords(normalized[idx[k]]);
      k := k + 1;
    }
    assert idx[..k] == idx;
  }

  /** `loadObj(objContent, mtlContent)`. */
  method LoadObj(lines: seq<ObjLine>, mtl: seq<MtlLine>) returns (r: Result<Mesh, LoadError>)
    ensures r == LoadObjOf(lines, mtl)
  {
    var loaded := LoadMtl(mtl);
    if loaded.Failure? {
      return Failure(loaded.error);
    }
    var parsed, colours := ReadLines(lines, loaded.value);
    if parsed.Failure? {
      return Failure(parsed.error);
    }
    var s := parsed.value;
    assert CornersValid(ObjStart);
    ObjFromValid(ObjStart, lines, loaded.value);
    if |s.corners| == 0 {
      return Success(Mesh([], []));
    }
    assert s.corners[0].vertex < |s.vertices|;
    if MaxRange(s.vertices) == 0.0 {
      return Failure(ZeroExtent);
    }
    var positions := Positions(Normalize(s.vertices), Vertices(s.corners));
    return Success(Mesh(positions, colours));
  }
}
