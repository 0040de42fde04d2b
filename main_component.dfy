/** The main component's glue: the productions list of a configuration file and the
    productions text of the editor, and the redraw that runs the L-system on the turtle. */
module MainComponent {
  import opened Common
  import opened JsStrings
  import opened Grammar
  import opened Expressions
  import opened Engine
  import opened Turtles
  import opened Commands

  // ---------------------------------------------------------------------------------------
  // Configuration data

  /** The `productions` field of a loaded configuration: a list of rule lines, a text, or absent. */
  datatype ProductionsField = Listed(lines: seq<string>) | Text(text: string) | Missing

  /** The fields of a configuration that processConfigData reads and writes. */
  class ConfigData {
    var productions: ProductionsField
    var autorotate: Option<bool>
    var lights: Option<seq<LightSpec>>
    var currentConfig: string

    constructor(productions: ProductionsField, autorotate: Option<bool>, lights: Option<seq<LightSpec>>)
      ensures this.productions == productions && this.autorotate == autorotate && this.lights == lights
      ensures currentConfig == ""
    {
      this.productions := productions;
      this.autorotate := autorotate;
      this.lights := lights;
      currentConfig := "";
    }
  }

  /** Prepares loaded data in place: a list of rule lines becomes one text joined with line
      breaks, the configuration is named, a falsy `autorotate` becomes false and missing
      lights become an empty list. */
  method ProcessConfigData(data: ConfigData, name: string) returns (r: ConfigData)
    modifies data
    ensures r == data
    ensures old(data.productions).Listed? ==> data.productions == Text(Join(old(data.productions).lines, '\n'))
    ensures !old(data.productions).Listed? ==> data.productions == old(data.productions)
    ensures data.currentConfig == name
    ensures data.autorotate == (if old(data.autorotate) == Some(true) then Some(true) else Some(false))
    ensures data.lights == (if old(data.lights).None? then Some([]) else old(data.lights))
  {
    if data.productions.Listed? {
      data.productions := Text(Join(data.productions.lines, '\n'));
    }
    data.currentConfig := name;
    if data.autorotate != Some(true) {
      data.autorotate := Some(false);
    }
    if data.lights.None? {
      data.lights := Some([]);
    }
    return data;
  }

  /** The rule lines handleSave writes for the editor's productions text: the non-empty lines. */
  function SavedProductions(text: string): (r: seq<string>)
    ensures forall i :: 0 <= i < |r| ==> r[i] != "" && '\n' !in r[i]
  {
    var lines := Split(text, '\n');
    var r := FilterEmpty(lines);
    assert forall i :: 0 <= i < |r| ==> r[i] in multiset(lines) by {
      forall i | 0 <= i < |r| ensures r[i] in multiset(lines) {
        assert r[i] in multiset(r);
      }
    }
    r
  }

  /** Loading then saving gives the list back when no rule line is empty or holds a line break. */
  lemma ProductionsRoundTrip(lines: seq<string>)
    requires forall i :: 0 <= i < |lines| ==> lines[i] != "" && '\n' !in lines[i]
    ensures SavedProductions(Join(lines, '\n')) == lines
  {
    if lines == [] {
      assert Split("", '\n') == [""];
    } else {
      SplitJoin(lines, '\n');
      FilterEmptyKeeps(lines);
    }
  }

  /** Saving then loading gives the text back when it has no empty line. */
  lemma TextRoundTrip(text: string)
    requires text == "" || forall i :: 0 <= i < |Split(text, '\n')| ==> Split(text, '\n')[i] != ""
    ensures Join(SavedProductions(text), '\n') == text
  {
    if text == "" {
      assert Split("", '\n') == [""];
    } else {
      assert forall i :: 0 <= i < |Split(text, '\n')| ==> Split(text, '\n')[i] != "";
      FilterEmptyKeeps(Split(text, '\n'));
      JoinSplit(text, '\n');
    }
  }

  // ---------------------------------------------------------------------------------------
  // Redrawing

  /** What a redraw reads from the component's state. */
  datatype UiState = UiState(axiom: string, productions: string, iterations: Count,
                             settings: Settings, lights: Option<seq<LightSpec>>)

  /** The turtle state after one turtle call. */
  function Step(trig: Trig, s: TurtleState, a: Action): TurtleState {
    match a
    case Cylinder(l, d) => Cylindered(s, l, d)
    case Forward(l) => Forwarded(s, l)
    case Cube(size) => Boxed(s, size)
    case SetColor(r, g, b) => Recolored(s, Some(Color(r, g, b)), None)
    case SetEmissiveColor(r, g, b) => Recolored(s, None, Some(Color(r, g, b)))
    case ResetColors => Recolored(s, None, None)
    case RotateX(x) => RotatedX(trig, s, x)
    case RotateY(x) => RotatedY(trig, s, x)
    case RotateZ(x) => RotatedZ(trig, s, x)
    case Push => Pushed(s)
    case Pop => Popped(s)
    case SetVertical => Vertical(s)
  }

  /** The state after the turtle calls that produce's calls make, in order; a call whose
      arguments are not numbers makes none. */
  function Applied(trig: Trig, s: TurtleState, calls: seq<Call<Op>>, settings: Settings): TurtleState
    decreases |calls|
  {
    if calls == [] then s
    else
      var prev := Applied(trig, s, calls[..|calls| - 1], settings);
      var c := calls[|calls| - 1];
      var a := Resolve(c.entry.func, c.args, settings);
      if a.Some? then Step(trig, prev, a.value) else prev
  }

  /** One more call: the state after the first `i + 1` calls. */
  lemma AppliedNext(trig: Trig, s: TurtleState, calls: seq<Call<Op>>, i: nat, settings: Settings)
    requires i < |calls|
    ensures var a := Resolve(calls[i].entry.func, calls[i].args, settings);
      Applied(trig, s, calls[..i + 1], settings)
      == if a.Some? then Step(trig, Applied(trig, s, calls[..i], settings), a.value)
         else Applied(trig, s, calls[..i], settings)
  {
    assert calls[..i + 1][..i] == calls[..i];
  }

  /** Every turtle call keeps the open-line invariant, leaves the lights alone, and only adds
      meshes and materials. */
  lemma StepSound(trig: Trig, s: TurtleState, a: Action)
    requires Sound(s)
    ensures var r := Step(trig, s, a);
      && Sound(r) && r.lights == s.lights
      && |s.meshes| <= |r.meshes| && r.meshes[..|s.meshes|] == s.meshes
      && |s.materials| <= |r.materials| && r.materials[..|s.materials|] == s.materials
  {
    match a
    case Pop =>
      if s.stack != [] {
        assert s.stack[|s.stack| - 1] in s.stack;
      }
    case _ =>
  }

  /** Drawing keeps the invariant and the lights, and only adds meshes and materials. */
  lemma {:induction false} AppliedSound(trig: Trig, s: TurtleState, calls: seq<Call<Op>>, settings: Settings)
    requires Sound(s)
    ensures var r := Applied(trig, s, calls, settings);
      && Sound(r) && r.lights == s.lights
      && |s.meshes| <= |r.meshes| && r.meshes[..|s.meshes|] == s.meshes
      && |s.materials| <= |r.materials| && r.materials[..|s.materials|] == s.materials
    decreases |calls|
  {
    if calls != [] {
      AppliedSound(trig, s, calls[..|calls| - 1], settings);
      var prev := Applied(trig, s, calls[..|calls| - 1], settings);
      var c := calls[|calls| - 1];
      var a := Resolve(c.entry.func, c.args, settings);
      if a.Some? {
        StepSound(trig, prev, a.value);
      }
    }
  }

  /** Runs one turtle call: the state changes as `Step` says. */
  method Perform(t: Turtle, a: Action)
    modifies t
    requires t.Valid()
    ensures t.Valid()
    ensures t.State() == Step(t.trig, old(t.State()), a)
  {
    match a {
      case Cylinder(l, d) => t.Cylinder(l, d);
      case Forward(l) => t.Forward(l);
      case Cube(size) => t.Cube(size);
      case SetColor(r, g, b) => t.SetColor(r, g, b);
      case SetEmissiveColor(r, g, b) => t.SetEmissiveColor(r, g, b);
      case ResetColors => t.ResetColors();
      case RotateX(x) => t.RotateX(x);
      case RotateY(x) => t.RotateY(x);
      case RotateZ(x) => t.RotateZ(x);
      case Push => t.Push();
      case Pop => t.Pop();
      case SetVertical => t.SetVertical();
    }
  }

  /** Makes the turtle calls of produce's calls, in order. */
  method Draw(t: Turtle, calls: seq<Call<Op>>, settings: Settings)
    modifies t
    requires t.Valid()
    ensures t.Valid()
    ensures t.State() == Applied(t.trig, old(t.State()), calls, settings)
  {
    var i := 0;
    while i < |calls|
      invariant 0 <= i <= |calls|
      invariant t.Valid()
      invariant t.State() == Applied(t.trig, old(t.State()), calls[..i], settings)
    {
      AppliedNext(t.trig, old(t.State()), calls, i, settings);
      var action := Resolve(calls[i].entry.func, calls[i].args, settings);
      if action.Some? {
        Perform(t, action.value);
      }
      i := i + 1;
    }
    assert calls[..i] == calls;
  }

  /**
   * paramChanged: reset the turtle, add the lights, produce (each command occurrence that
   * runs makes its turtle call), and finalize only when produce reported no error. An entry
   * of the lights list that cannot be built ends the redraw before produce (`None`).
   */
  method Redraw(t: Turtle, plsystem: PLSystem<Op>, ui: UiState, ev: Evaluator, k: nat)
    returns (out: Option<Outcome<Op>>)
    modifies t
    requires plsystem.funcs == Funcs
    ensures t.Valid()
    ensures t.lights == Created(Chosen(ui.lights))
    ensures |t.materials| >= 1 && t.materials[0] == NewMaterial(None, None)
    ensures out.None? <==> Throws(Chosen(ui.lights))
    ensures out.None? ==> t.State() == Lit(Initial, ui.lights)
    ensures out.Some? ==> out.value == Produced(Funcs, ui.axiom, ui.productions, ui.iterations, ev, k)
    ensures out.Some? ==>
      var drawn := Applied(t.trig, Lit(Initial, ui.lights), out.value.calls, ui.settings);
      t.State() == if out.value.error.None? then Finished(drawn) else drawn
  {
    t.Reset();
    var ok := t.AddLights(ui.lights);
    if !ok {
      return None;
    }
    FuncsSymbols();
    var o := plsystem.Produce(ui.axiom, ui.productions, ui.iterations, ev, k);
    Draw(t, o.calls, ui.settings);
    RedrawLights(t.trig, ui.lights, o.calls, ui.settings, o.error.None?);
    if o.error.None? {
      t.Finalize();
    }
    return Some(o);
  }

  /** After a redraw, drawn and flushed or not, the state is sound, the lights are exactly the
      created ones, and the default material comes first. */
  lemma RedrawLights(trig: Trig, specs: Option<seq<LightSpec>>, calls: seq<Call<Op>>, settings: Settings, finish: bool)
    ensures var drawn := Applied(trig, Lit(Initial, specs), calls, settings);
      var r := if finish then Finished(drawn) else drawn;
      && Sound(r) && r.lights == Created(Chosen(specs))
      && |r.materials| >= 1 && r.materials[0] == NewMaterial(None, None)
  {
    AppliedSound(trig, Lit(Initial, specs), calls, settings);
  }
}
