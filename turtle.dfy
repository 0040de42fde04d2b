// The drawing turtle: a position, a heading and a rotation, a stack of
// saved states, an open line waiting to become one mesh, and the meshes,
// materials and lights it has created. Scene objects are plain records; a
// material is identified by its colours.
module Turtles {
  import opened Common

  datatype V3 = V3(x: real, y: real, z: real)

  const Origin := V3(0.0, 0.0, 0.0)
  const Up := V3(0.0, 1.0, 0.0)

  function Add(a: V3, b: V3): V3 {
    V3(a.x + b.x, a.y + b.y, a.z + b.z)
  }

  function Scale(v: V3, s: real): V3 {
    V3(v.x * s, v.y * s, v.z * s)
  }

  datatype Color = Color(r: real, g: real, b: real)

  const White := Color(1.0, 1.0, 1.0)
  const Black := Color(0.0, 0.0, 0.0)

  datatype Material = Material(diffuse: Color, specular: Color, emissive: Color)

  datatype Mesh =
    | Tube(path: seq<V3>, radius: real, material: Material)
    | Lines(points: seq<V3>, material: Material)
    | Box(size: real, position: V3, rotation: V3, material: Material)

  /** A light as created; `None` leaves the library's default in place. */
  datatype Light =
    | Hemispheric(direction: V3, diffuse: Option<Color>, ground: Option<Color>, intensity: Option<real>)
    | Directional(direction: V3, intensity: Option<real>)
    | PointLight(position: V3, intensity: Option<real>)

  /** One entry of a configuration's `lights` list. */
  datatype LightSpec = LightSpec(kind: string, direction: Option<V3>, position: Option<V3>,
                                 intensity: Option<real>, diffuseColor: Option<Color>,
                                 groundColor: Option<Color>)

  datatype Snapshot = Snapshot(pos: V3, dir: V3, rot: V3, material: Material, line: seq<V3>, diameter: real)

  /** The floating-point parts of a rotation: degrees to radians, sine and cosine. */
  datatype Trig = Trig(radians: real -> real, sin: real -> real, cos: real -> real)

  /** The open line: no points exactly when the diameter is -1, else a diameter >= 0 and two or more points. */
  predicate OpenLine(line: seq<V3>, diameter: real) {
    (diameter == -1.0 <==> line == [])
    && (diameter != -1.0 ==> diameter >= 0.0 && |line| >= 2)
  }

  /** The mesh an open line of the given diameter becomes: a tube when it is thick, a polyline otherwise. */
  function LineMesh(line: seq<V3>, diameter: real, m: Material): (r: Mesh)
    ensures r.material == m
    ensures r.Tube? <==> diameter > 0.0
  {
    if diameter > 0.0 then Tube(line, diameter / 2.0, m) else Lines(line, m)
  }

  /** What flushing the open line appends to the meshes: nothing when no line is open. */
  function Flushed(line: seq<V3>, diameter: real, m: Material): (r: seq<Mesh>)
    ensures |r| <= 1
    ensures r == [] <==> diameter < 0.0
  {
    if diameter < 0.0 then [] else [LineMesh(line, diameter, m)]
  }

  /** Whether a cylinder of this diameter extends the open line instead of starting a new one. */
  predicate Continues(line: seq<V3>, diameter: real, pos: V3, d: real) {
    d == diameter && |line| > 0 && line[|line| - 1] == pos
  }

  /** A new material: the diffuse colour doubles as specular; white and black are the defaults. */
  function NewMaterial(color: Option<Color>, emissive: Option<Color>): (m: Material)
    ensures m.specular == m.diffuse
    ensures color.Some? ==> m.diffuse == color.value
    ensures color.None? ==> m.diffuse == White
    ensures emissive.Some? ==> m.emissive == emissive.value
    ensures emissive.None? ==> m.emissive == Black
  {
    var d := if color.Some? then color.value else White;
    Material(d, d, if emissive.Some? then emissive.value else Black)
  }

  function TurnX(trig: Trig, v: V3, a: real): V3 {
    V3(v.x, v.y * trig.cos(a) - v.z * trig.sin(a), v.y * trig.sin(a) + v.z * trig.cos(a))
  }

  function TurnY(trig: Trig, v: V3, a: real): V3 {
    V3(v.x * trig.cos(a) + v.z * trig.sin(a), v.y, -v.x * trig.sin(a) + v.z * trig.cos(a))
  }

  function TurnZ(trig: Trig, v: V3, a: real): V3 {
    V3(v.x * trig.cos(a) - v.y * trig.sin(a), v.x * trig.sin(a) + v.y * trig.cos(a), v.z)
  }

  /** The identities of exact trigonometry that the floating-point functions approximate. */
  ghost predicate Exact(trig: Trig) {
    forall a: real ::
      trig.radians(-a) == -trig.radians(a)
      && trig.sin(-a) == -trig.sin(a) && trig.cos(-a) == trig.cos(a)
      && trig.sin(a) * trig.sin(a) + trig.cos(a) * trig.cos(a) == 1.0
  }

  /** Turning a pair of coordinates by (s, c) and then by (ns, c) with ns = -s gives the pair back. */
  lemma PlaneTurnBack(u: real, w: real, s: real, ns: real, c: real)
    requires ns == -s && s * s + c * c == 1.0
    ensures (u * c - w * s) * c - (u * s + w * c) * ns == u
    ensures (u * c - w * s) * ns + (u * s + w * c) * c == w
  {
    calc {
      (u * c - w * s) * c - (u * s + w * c) * ns;
      u * (s * s + c * c);
      u;
    }
    calc {
      (u * c - w * s) * ns + (u * s + w * c) * c;
      w * (s * s + c * c);
      w;
    }
  }

  /** With exact trigonometry, turning about the x axis by the negated angle undoes a turn. */
  lemma TurnBackX(trig: Trig, v: V3, angle: real)
    requires Exact(trig)
    ensures TurnX(trig, TurnX(trig, v, trig.radians(angle)), trig.radians(-angle)) == v
  {
    var a := trig.radians(angle);
    var s, c := trig.sin(a), trig.cos(a);
    assert trig.radians(-angle) == -a && trig.sin(-a) == -s && trig.cos(-a) == c && s * s + c * c == 1.0;
    PlaneTurnBack(v.y, v.z, s, -s, c);
  }

  /** The same about the y axis. */
  lemma TurnBackY(trig: Trig, v: V3, angle: real)
    requires Exact(trig)
    ensures TurnY(trig, TurnY(trig, v, trig.radians(angle)), trig.radians(-angle)) == v
  {
    var a := trig.radians(angle);
    var s, c := trig.sin(a), trig.cos(a);
    assert trig.radians(-angle) == -a && trig.sin(-a) == -s && trig.cos(-a) == c && s * s + c * c == 1.0;
    PlaneTurnBack(v.z, v.x, s, -s, c);
  }

  /** The same about the z axis. */
  lemma TurnBackZ(trig: Trig, v: V3, angle: real)
    requires Exact(trig)
    ensures TurnZ(trig, TurnZ(trig, v, trig.radians(angle)), trig.radians(-angle)) == v
  {
    var a := trig.radians(angle);
    var s, c := trig.sin(a), trig.cos(a);
    assert trig.radians(-angle) == -a && trig.sin(-a) == -s && trig.cos(-a) == c && s * s + c * c == 1.0;
    PlaneTurnBack(v.x, v.y, s, -s, c);
  }

  // ---- lights ----

  const DefaultLights := [
    LightSpec("hemispheric", Some(V3(0.0, 20.0, 0.0)), None, Some(0.7),
              Some(Color(0.3, 0.5, 0.6)), Some(Color(0.5, 0.4, 0.25))),
    LightSpec("directional", Some(V3(10.0, 20.0, 15.0)), None, Some(0.5), None, None),
    LightSpec("point", None, Some(V3(0.0, 2.0, 0.0)), Some(1.0), None, None)
  ]

  /** The list `addLights` works through: the defaults when none is given or it is empty. */
  function Chosen(specs: Option<seq<LightSpec>>): seq<LightSpec> {
    if specs.None? || |specs.value| == 0 then DefaultLights else specs.value
  }

  /** The outcome of one entry: a light, nothing, or a failure (a directional light without a direction). */
  datatype Made = Made(light: Light) | Skipped | Fails

  /** The intensity is overridden only by a truthy value: present and not zero. */
  function Intensity(d: LightSpec): Option<real> {
    if d.intensity.Some? && d.intensity.value != 0.0 then d.intensity else None
  }

  function MadeFrom(d: LightSpec): Made {
    if d.kind == "hemispheric" then
      if d.direction.None? then Skipped
      else Made(Hemispheric(d.direction.value, d.diffuseColor, d.groundColor, Intensity(d)))
    else if d.kind == "directional" then
      if d.direction.None? then Fails else Made(Directional(d.direction.value, Intensity(d)))
    else if d.kind == "point" then
      if d.position.None? then Skipped else Made(PointLight(d.position.value, Intensity(d)))
    else Skipped
  }

  /** The lights created from the entries, up to the first that fails. */
  function Created(ds: seq<LightSpec>): seq<Light> {
    if ds == [] then []
    else match MadeFrom(ds[0])
      case Made(l) => [l] + Created(ds[1..])
      case Skipped => Created(ds[1..])
      case Fails => []
  }

  lemma CreatedAt(ds: seq<LightSpec>, i: nat)
    requires i < |ds|
    ensures Created(ds[i..]) == match MadeFrom(ds[i])
      case Made(l) => [l] + Created(ds[i + 1..])
      case Skipped => Created(ds[i + 1..])
      case Fails => []
  {
    assert ds[i..][1..] == ds[i + 1..];
  }

  predicate Throws(ds: seq<LightSpec>) {
    exists i :: 0 <= i < |ds| && MadeFrom(ds[i]).Fails?
  }

  /** Without a failing entry, a light is created exactly for each entry that makes one. */
  lemma {:induction false} CreatedMembers(ds: seq<LightSpec>, l: Light)
    requires !Throws(ds)
    ensures l in Created(ds) <==> exists i :: 0 <= i < |ds| && MadeFrom(ds[i]) == Made(l)
  {
    if ds != [] {
      assert !Throws(ds[1..]) by {
        forall i | 0 <= i < |ds[1..]| ensures !MadeFrom(ds[1..][i]).Fails? {
          assert ds[1..][i] == ds[i + 1];
        }
      }
      CreatedMembers(ds[1..], l);
      if exists i :: 0 <= i < |ds| && MadeFrom(ds[i]) == Made(l) {
        var i :| 0 <= i < |ds| && MadeFrom(ds[i]) == Made(l);
        if i > 0 {
          assert ds[1..][i - 1] == ds[i];
        }
      }
      if exists i :: 0 <= i < |ds[1..]| && MadeFrom(ds[1..][i]) == Made(l) {
        var i :| 0 <= i < |ds[1..]| && MadeFrom(ds[1..][i]) == Made(l);
        assert ds[1..][i] == ds[i + 1];
      }
    }
  }

  /** At most one light per entry, and one for every entry exactly when every entry makes one. */
  lemma {:induction false} CreatedCount(ds: seq<LightSpec>)
    ensures |Created(ds)| <= |ds|
    ensures |Created(ds)| == |ds| <==> forall i :: 0 <= i < |ds| ==> MadeFrom(ds[i]).Made?
  {
    if ds != [] {
      CreatedCount(ds[1..]);
      if forall i :: 0 <= i < |ds| ==> MadeFrom(ds[i]).Made? {
        forall i | 0 <= i < |ds[1..]| ensures MadeFrom(ds[1..][i]).Made? {
          assert ds[1..][i] == ds[i + 1];
        }
      } else if MadeFrom(ds[0]).Made? {
        var i :| 0 <= i < |ds| && !MadeFrom(ds[i]).Made?;
        assert ds[1..][i - 1] == ds[i];
      }
    }
  }

  /** Without a list of its own, a redraw gets three lights: hemispheric, directional and point. */
  lemma DefaultLightsCreated()
    ensures !Throws(Chosen(None))
    ensures Created(Chosen(None)) == [
      Hemispheric(V3(0.0, 20.0, 0.0), Some(Color(0.3, 0.5, 0.6)), Some(Color(0.5, 0.4, 0.25)), Some(0.7)),
      Directional(V3(10.0, 20.0, 15.0), Some(0.5)),
      PointLight(V3(0.0, 2.0, 0.0), Some(1.0))]
  {
    var ds := DefaultLights;
    assert MadeFrom(ds[0]).Made? && MadeFrom(ds[1]).Made? && MadeFrom(ds[2]).Made?;
    assert ds[1..][1..][1..] == [];
  }

  // ---------------------------------------------------------------------------------------
  // The turtle's state as a value, and what each turtle method does to it

  /** Every field of a turtle. */
  datatype TurtleState = TurtleState(pos: V3, dir: V3, rot: V3, material: Material, stack: seq<Snapshot>,
                                     meshes: seq<Mesh>, materials: seq<Material>, lights: seq<Light>,
                                     line: seq<V3>, diameter: real)

  /** The open-line invariant of the state and of every saved state; the current and the
      saved materials are among the created ones. */
  predicate Sound(s: TurtleState) {
    && OpenLine(s.line, s.diameter) && s.material in s.materials
    && forall v :: v in s.stack ==> OpenLine(v.line, v.diameter) && v.material in s.materials
  }

  /** The state after reset: nothing created but the default material. */
  const Initial := TurtleState(Origin, Up, Origin, NewMaterial(None, None), [], [], [NewMaterial(None, None)], [],
                               [], -1.0)

  /** What push saves. */
  function Saved(s: TurtleState): Snapshot {
    Snapshot(s.pos, s.dir, s.rot, s.material, s.line, s.diameter)
  }

  function Vertical(s: TurtleState): TurtleState {
    s.(rot := Origin, dir := Up)
  }

  function Pushed(s: TurtleState): TurtleState {
    s.(stack := s.stack + [Saved(s)])
  }

  /** The last saved state restored and removed; the open line is replaced, not flushed. */
  function Popped(s: TurtleState): TurtleState {
    if s.stack == [] then s
    else
      var v := s.stack[|s.stack| - 1];
      s.(stack := s.stack[..|s.stack| - 1], pos := v.pos, dir := v.dir, rot := v.rot,
         material := v.material, line := v.line, diameter := v.diameter)
  }

  /** The open line turned into a mesh with the current material, and closed. */
  function Finished(s: TurtleState): TurtleState {
    s.(meshes := s.meshes + Flushed(s.line, s.diameter, s.material), line := [], diameter := -1.0)
  }

  function Forwarded(s: TurtleState, length: real): TurtleState {
    s.(pos := Add(s.pos, Scale(s.dir, length)))
  }

  /** A cylinder: nothing for a negative length or diameter; otherwise the open line is extended
      when it ends here with this diameter, or flushed and restarted here, and the position
      advances onto its new last point. */
  function Cylindered(s: TurtleState, length: real, diameter: real): TurtleState {
    if diameter < 0.0 || length < 0.0 then s
    else
      var p := Add(s.pos, Scale(s.dir, length));
      if Continues(s.line, s.diameter, s.pos, diameter) then s.(pos := p, line := s.line + [p])
      else
        s.(pos := p, meshes := s.meshes + Flushed(s.line, s.diameter, s.material),
           line := [s.pos, p], diameter := diameter)
  }

  function RotatedX(trig: Trig, s: TurtleState, angle: real): TurtleState {
    var a := trig.radians(angle);
    s.(rot := s.rot.(x := s.rot.x + a), dir := TurnX(trig, s.dir, a))
  }

  function RotatedY(trig: Trig, s: TurtleState, angle: real): TurtleState {
    var a := trig.radians(angle);
    s.(rot := s.rot.(y := s.rot.y + a), dir := TurnY(trig, s.dir, a))
  }

  function RotatedZ(trig: Trig, s: TurtleState, angle: real): TurtleState {
    var a := trig.radians(angle);
    s.(rot := s.rot.(z := s.rot.z + a), dir := TurnZ(trig, s.dir, a))
  }

  function Boxed(s: TurtleState, size: real): TurtleState {
    s.(meshes := s.meshes + [Box(size, s.pos, s.rot, s.material)])
  }

  /** A material change: flush with the old material, then create the new one and make it current. */
  function Recolored(s: TurtleState, color: Option<Color>, emissive: Option<Color>): TurtleState {
    var f := Finished(s);
    var m := NewMaterial(color, emissive);
    f.(material := m, materials := f.materials + [m])
  }

  function Lit(s: TurtleState, specs: Option<seq<LightSpec>>): TurtleState {
    s.(lights := s.lights + Created(Chosen(specs)))
  }

  /** Pop undoes push: every field is back, the meshes included. */
  lemma PopUndoesPush(s: TurtleState)
    ensures Popped(Pushed(s)) == s
  {
    var t := Pushed(s);
    assert t.stack[..|t.stack| - 1] == s.stack;
  }

  /** A snapshot is a copy: what happens to the turtle after push does not change what pop
      restores, only the meshes, materials and lights made in between stay. */
  lemma PopAfterChanges(s: TurtleState, t: TurtleState)
    requires t.stack == Pushed(s).stack
    ensures var r := Popped(t);
      && Saved(r) == Saved(s) && r.stack == s.stack
      && r.meshes == t.meshes && r.materials == t.materials && r.lights == t.lights
  {
    assert t.stack[..|t.stack| - 1] == s.stack;
  }

  class Turtle {
    const trig: Trig
    var pos: V3
    var dir: V3
    var rot: V3
    var material: Material
    var stack: seq<Snapshot>
    var meshes: seq<Mesh>
    var materials: seq<Material>
    var lights: seq<Light>
    var currentLine: seq<V3>
    var currentDiameter: real

    /** The open line and every saved one keep the line invariant; saved materials were created. */
    ghost predicate Lines()
      reads this
    {
      OpenLine(currentLine, currentDiameter)
      && forall s :: s in stack ==> OpenLine(s.line, s.diameter) && s.material in materials
    }

    ghost predicate Valid()
      reads this
    {
      Lines() && material in materials
    }

    /** All the fields as one value. */
    function State(): TurtleState
      reads this
    {
      TurtleState(pos, dir, rot, material, stack, meshes, materials, lights, currentLine, currentDiameter)
    }

    /** The state `push` saves and `pop` restores. */
    function Current(): Snapshot
      reads this
    {
      Snapshot(pos, dir, rot, material, currentLine, currentDiameter)
    }

    constructor(trig: Trig)
      ensures this.trig == trig
      ensures Valid()
      ensures pos == Origin && dir == Up && rot == Origin && stack == []
      ensures currentLine == [] && currentDiameter == -1.0
      ensures meshes == [] && lights == [] && materials == [NewMaterial(None, None)]
      ensures material == NewMaterial(None, None)
      ensures State() == Initial
    {
      this.trig := trig;
      meshes := [];
      materials := [];
      lights := [];
      pos, dir, rot := Origin, Up, Origin;
      material := NewMaterial(None, None);
      stack, currentLine, currentDiameter := [], [], -1.0;
      new;
      Reset();
    }

    /** Back to the start: origin, heading up, nothing open, nothing created but one default material. */
    method Reset()
      modifies this
      ensures Valid()
      ensures pos == Origin && dir == Up && rot == Origin && stack == []
      ensures currentLine == [] && currentDiameter == -1.0
      ensures meshes == [] && lights == [] && materials == [NewMaterial(None, None)]
      ensures material == NewMaterial(None, None)
      ensures State() == Initial
    {
      pos := Origin;
      dir := Up;
      rot := Origin;
      stack := [];
      currentDiameter := -1.0;
      currentLine := [];
      meshes := [];
      materials := [];
      lights := [];
      ResetColors();
    }

    method SetVertical()
      modifies this`rot, this`dir
      requires Valid()
      ensures Valid()
      ensures rot == Origin && dir == Up
      ensures State() == Vertical(old(State()))
    {
      rot := Origin;
      dir := Up;
    }

    method Push()
      modifies this`stack
      requires Valid()
      ensures Valid()
      ensures stack == old(stack) + [Current()]
      ensures State() == Pushed(old(State()))
    {
      stack := stack + [Current()];
    }

    /** Restores the last saved state; the open line it replaces is dropped, not flushed. */
    method Pop()
      modifies this`stack, this`pos, this`dir, this`rot, this`material, this`currentLine, this`currentDiameter
      requires Valid()
      ensures Valid()
      ensures old(stack) == [] ==> stack == [] && Current() == old(Current())
      ensures old(stack) != [] ==>
        stack == old(stack)[..|old(stack)| - 1] && Current() == old(stack)[|old(stack)| - 1]
      ensures State() == Popped(old(State()))
    {
      if stack == [] {
        return;
      }
      var v := stack[|stack| - 1];
      assert v in stack;
      stack := stack[..|stack| - 1];
      dir := v.dir;
      pos := v.pos;
      rot := v.rot;
      material := v.material;
      currentLine := v.line;
      currentDiameter := v.diameter;
    }

    /** Draws from `pos` along `dir`, extending the open line when it ends here with this diameter. */
    method Cylinder(length: real, diameter: real)
      modifies this`pos, this`meshes, this`currentLine, this`currentDiameter
      requires Valid()
      ensures Valid()
      ensures diameter < 0.0 || length < 0.0 ==>
        pos == old(pos) && meshes == old(meshes)
        && currentLine == old(currentLine) && currentDiameter == old(currentDiameter)
      ensures diameter >= 0.0 && length >= 0.0 ==>
        pos == Add(old(pos), Scale(dir, length)) && currentDiameter == diameter
      ensures diameter >= 0.0 && length >= 0.0
              && Continues(old(currentLine), old(currentDiameter), old(pos), diameter) ==>
        meshes == old(meshes) && currentLine == old(currentLine) + [pos]
      ensures diameter >= 0.0 && length >= 0.0
              && !Continues(old(currentLine), old(currentDiameter), old(pos), diameter) ==>
        meshes == old(meshes) + Flushed(old(currentLine), old(currentDiameter), material)
        && currentLine == [old(pos), pos]
      ensures State() == Cylindered(old(State()), length, diameter)
    {
      if diameter < 0.0 || length < 0.0 {
        return;
      }
      if Continues(currentLine, currentDiameter, pos, diameter) {
      } else {
        FinishCurrentLine();
        currentLine := currentLine + [pos];
        currentDiameter := diameter;
      }
      Forward(length);
      currentLine := currentLine + [pos];
    }

    method Line(length: real)
      modifies this`pos, this`meshes, this`currentLine, this`currentDiameter
      requires Valid()
      ensures Valid()
      ensures length < 0.0 ==>
        pos == old(pos) && meshes == old(meshes)
        && currentLine == old(currentLine) && currentDiameter == old(currentDiameter)
      ensures length >= 0.0 ==> pos == Add(old(pos), Scale(dir, length)) && currentDiameter == 0.0
      ensures length >= 0.0 && Continues(old(currentLine), old(currentDiameter), old(pos), 0.0) ==>
        meshes == old(meshes) && currentLine == old(currentLine) + [pos]
      ensures length >= 0.0 && !Continues(old(currentLine), old(currentDiameter), old(pos), 0.0) ==>
        meshes == old(meshes) + Flushed(old(currentLine), old(currentDiameter), material)
        && currentLine == [old(pos), pos]
      ensures State() == Cylindered(old(State()), length, 0.0)
    {
      Cylinder(length, 0.0);
    }

    /** Turns the open line, if any, into one mesh with the current material and closes it. */
    method FinishCurrentLine()
      modifies this`meshes, this`currentLine, this`currentDiameter
      requires Lines()
      ensures Lines()
      ensures meshes == old(meshes) + Flushed(old(currentLine), old(currentDiameter), material)
      ensures currentLine == [] && currentDiameter == -1.0
      ensures State() == Finished(old(State()))
    {
      if currentDiameter < 0.0 {
        return;
      }
      var mesh := LineMesh(currentLine, currentDiameter, material);
      meshes := meshes + [mesh];
      currentLine := [];
      currentDiameter := -1.0;
    }

    method Forward(length: real)
      modifies this`pos
      ensures old(Valid()) ==> Valid()
      ensures pos == Add(old(pos), Scale(dir, length))
      ensures State() == Forwarded(old(State()), length)
    {
      pos := Add(pos, Scale(dir, length));
    }

    method RotateX(angle: real)
      modifies this`rot, this`dir
      requires Valid()
      ensures Valid()
      ensures rot == old(rot).(x := old(rot).x + trig.radians(angle))
      ensures dir == TurnX(trig, old(dir), trig.radians(angle))
      ensures State() == RotatedX(trig, old(State()), angle)
    {
      var a := trig.radians(angle);
      rot := rot.(x := rot.x + a);
      dir := TurnX(trig, dir, a);
    }

    method RotateY(angle: real)
      modifies this`rot, this`dir
      requires Valid()
      ensures Valid()
      ensures rot == old(rot).(y := old(rot).y + trig.radians(angle))
      ensures dir == TurnY(trig, old(dir), trig.radians(angle))
      ensures State() == RotatedY(trig, old(State()), angle)
    {
      var a := trig.radians(angle);
      rot := rot.(y := rot.y + a);
      dir := TurnY(trig, dir, a);
    }

    method RotateZ(angle: real)
      modifies this`rot, this`dir
      requires Valid()
      ensures Valid()
      ensures rot == old(rot).(z := old(rot).z + trig.radians(angle))
      ensures dir == TurnZ(trig, old(dir), trig.radians(angle))
      ensures State() == RotatedZ(trig, old(State()), angle)
    {
      var a := trig.radians(angle);
      rot := rot.(z := rot.z + a);
      dir := TurnZ(trig, dir, a);
    }

    /** A box at the current position and rotation; the open line stays open. */
    method Cube(size: real)
      modifies this`meshes
      requires Valid()
      ensures Valid()
      ensures meshes == old(meshes) + [Box(size, pos, rot, material)]
      ensures State() == Boxed(old(State()), size)
    {
      meshes := meshes + [Box(size, pos, rot, material)];
    }

    method SetColor(r: real, g: real, b: real)
      modifies this`meshes, this`currentLine, this`currentDiameter, this`material, this`materials
      requires Valid()
      ensures Valid()
      ensures meshes == old(meshes) + Flushed(old(currentLine), old(currentDiameter), old(material))
      ensures currentLine == [] && currentDiameter == -1.0
      ensures material == NewMaterial(Some(Color(r, g, b)), None)
      ensures materials == old(materials) + [material]
      ensures State() == Recolored(old(State()), Some(Color(r, g, b)), None)
    {
      SetMaterial(Some(Color(r, g, b)), None);
    }

    method SetEmissiveColor(r: real, g: real, b: real)
      modifies this`meshes, this`currentLine, this`currentDiameter, this`material, this`materials
      requires Valid()
      ensures Valid()
      ensures meshes == old(meshes) + Flushed(old(currentLine), old(currentDiameter), old(material))
      ensures currentLine == [] && currentDiameter == -1.0
      ensures material == NewMaterial(None, Some(Color(r, g, b)))
      ensures materials == old(materials) + [material]
      ensures State() == Recolored(old(State()), None, Some(Color(r, g, b)))
    {
      SetMaterial(None, Some(Color(r, g, b)));
    }

    method ResetColors()
      modifies this`meshes, this`currentLine, this`currentDiameter, this`material, this`materials
      requires Lines()
      ensures Valid()
      ensures meshes == old(meshes) + Flushed(old(currentLine), old(currentDiameter), old(material))
      ensures currentLine == [] && currentDiameter == -1.0
      ensures material == NewMaterial(None, None)
      ensures materials == old(materials) + [material]
      ensures State() == Recolored(old(State()), None, None)
    {
      SetMaterial(None, None);
    }

    /** Flushes the open line with the old material, then creates a new material and makes it current. */
    method SetMaterial(color: Option<Color>, emissive: Option<Color>)
      modifies this`meshes, this`currentLine, this`currentDiameter, this`material, this`materials
      requires Lines()
      ensures Valid()
      ensures meshes == old(meshes) + Flushed(old(currentLine), old(currentDiameter), old(material))
      ensures currentLine == [] && currentDiameter == -1.0
      ensures material == NewMaterial(color, emissive)
      ensures materials == old(materials) + [material]
      ensures State() == Recolored(old(State()), color, emissive)
    {
      FinishCurrentLine();
      material := NewMaterial(color, emissive);
      materials := materials + [material];
    }

    method Finalize()
      modifies this`meshes, this`currentLine, this`currentDiameter
      requires Valid()
      ensures Valid()
      ensures meshes == old(meshes) + Flushed(old(currentLine), old(currentDiameter), material)
      ensures currentLine == [] && currentDiameter == -1.0
      ensures State() == Finished(old(State()))
    {
      FinishCurrentLine();
    }

    /**
     * Creates a light for each entry (the defaults when there are none) and reports false when
     * an entry fails, keeping the lights created before it.
     */
    method AddLights(specs: Option<seq<LightSpec>>) returns (ok: bool)
      modifies this`lights
      requires Valid()
      ensures Valid()
      ensures lights == old(lights) + Created(Chosen(specs))
      ensures ok <==> !Throws(Chosen(specs))
      ensures State() == Lit(old(State()), specs)
    {
      ok := AddEach(Chosen(specs));
    }

    /** The loop over the entries: appends the light of each entry in turn and stops at the
        first entry that fails. */
    method AddEach(ds: seq<LightSpec>) returns (ok: bool)
      modifies this`lights
      ensures lights == old(lights) + Created(ds)
      ensures ok <==> !Throws(ds)
    {
      var i := 0;
      while i < |ds|
        invariant 0 <= i <= |ds|
        invariant lights + Created(ds[i..]) == old(lights) + Created(ds)
        invariant forall j :: 0 <= j < i ==> !MadeFrom(ds[j]).Fails?
      {
        CreatedAt(ds, i);
        match MadeFrom(ds[i]) {
          case Made(l) =>
            lights := lights + [l];
          case Skipped =>
          case Fails =>
            return false;
        }
        i := i + 1;
      }
      assert ds[i..] == [];
      return true;
    }
  }
}
