/** The command vocabulary: the ordered table of symbols, arities and turtle actions that
    the main component hands to PLSystem, and how an evaluated occurrence becomes a turtle
    call. */
module Commands {
  import opened Common
  import opened Expressions
  import opened Engine

  /** Where an argument of a turtle call comes from: an evaluated parameter, a setting of
      the user interface, or a constant. */
  datatype Arg = Param(i: nat) | DefaultLength | DefaultDiameter | DefaultAngle | Fixed(x: real)

  datatype Axis = X | Y | Z

  /** The action of a table entry. A turn may negate its angle. */
  datatype Op =
    | Draw(length: Arg, diameter: Arg)
    | Move(length: Arg)
    | PlaceBox(size: Arg)
    | Paint
    | Glow
    | PlainPaint
    | Turn(axis: Axis, negate: bool, angle: Arg)
    | Save
    | Restore
    | Upright

  /** A call of a turtle method with numeric arguments. */
  datatype Action =
    | Cylinder(length: real, diameter: real)
    | Forward(length: real)
    | Cube(size: real)
    | SetColor(r: real, g: real, b: real)
    | SetEmissiveColor(r: real, g: real, b: real)
    | ResetColors
    | RotateX(angle: real)
    | RotateY(angle: real)
    | RotateZ(angle: real)
    | Push
    | Pop
    | SetVertical

  /** The user's drawing settings. */
  datatype Settings = Settings(length: real, angle: real, diameter: real)

  const Defaults := Settings(3.0, 90.0, 0.0)

  /** The table, in registration order; that order settles which entry runs where several
      match at one position. */
  const Funcs: seq<Command<Op>> := seq(25, n requires 0 <= n => Row(n))

  /** Row `n` of the table, counting from 0. */
  function Row(n: nat): Command<Op> {
    if n == 0 then Command("F", 2, Draw(Param(0), Param(1)))
    else if n == 1 then Command("F", 1, Draw(Param(0), DefaultDiameter))
    else if n == 2 then Command("F", 0, Draw(DefaultLength, DefaultDiameter))
    else if n == 3 then Command("f", 1, Move(Param(0)))
    else if n == 4 then Command("f", 0, Move(DefaultLength))
    else if n == 5 then Command("Box", 1, PlaceBox(Param(0)))
    else if n == 6 then Command("Color", 3, Paint)
    else if n == 7 then Command("EmColor", 3, Glow)
    else if n == 8 then Command("Color", 0, PlainPaint)
    else if n == 9 then Command("+", 1, Turn(Z, false, Param(0)))
    else if n == 10 then Command("+", 0, Turn(Z, false, DefaultAngle))
    else if n == 11 then Command("-", 1, Turn(Z, true, Param(0)))
    else if n == 12 then Command("-", 0, Turn(Z, true, DefaultAngle))
    else if n == 13 then Command("&", 1, Turn(Y, false, Param(0)))
    else if n == 14 then Command("&", 0, Turn(Y, false, DefaultAngle))
    else if n == 15 then Command("^", 1, Turn(Y, true, Param(0)))
    else if n == 16 then Command("^", 0, Turn(Y, true, DefaultAngle))
    else if n == 17 then Command("/", 1, Turn(X, false, Param(0)))
    else if n == 18 then Command("/", 0, Turn(X, false, DefaultAngle))
    else if n == 19 then Command("\\", 1, Turn(X, true, Param(0)))
    else if n == 20 then Command("\\", 0, Turn(X, true, DefaultAngle))
    else if n == 21 then Command("|", 0, Turn(Z, false, Fixed(180.0)))
    else if n == 22 then Command("[", 0, Save)
    else if n == 23 then Command("]", 0, Restore)
    else Command("$", 0, Upright)
  }

  /** A value as a number, the way JavaScript arithmetic reads it; other values have none. */
  function ToNumber(v: Value): Option<real> {
    match v
    case Num(x, _) => Some(x)
    case Bool(b) => Some(if b then 1.0 else 0.0)
    case Other(_) => None
  }

  predicate Numeric(p: seq<Value>, n: nat) {
    n <= |p| && forall i :: 0 <= i < n ==> ToNumber(p[i]).Some?
  }

  function ArgValue(a: Arg, p: seq<Value>, s: Settings): Option<real> {
    match a
    case Param(i) => if i < |p| then ToNumber(p[i]) else None
    case DefaultLength => Some(s.length)
    case DefaultDiameter => Some(s.diameter)
    case DefaultAngle => Some(s.angle)
    case Fixed(x) => Some(x)
  }

  function Turned(axis: Axis, angle: real): Action {
    match axis
    case X => RotateX(angle)
    case Y => RotateY(angle)
    case Z => RotateZ(angle)
  }

  /** The turtle call an entry's action makes with the evaluated parameters `p`; none when an
      argument it needs is not a number. */
  function Resolve(op: Op, p: seq<Value>, s: Settings): Option<Action> {
    match op
    case Draw(l, d) =>
      var (lv, dv) := (ArgValue(l, p, s), ArgValue(d, p, s));
      if lv.Some? && dv.Some? then Some(Cylinder(lv.value, dv.value)) else None
    case Move(l) =>
      var lv := ArgValue(l, p, s);
      if lv.Some? then Some(Forward(lv.value)) else None
    case PlaceBox(size) =>
      var v := ArgValue(size, p, s);
      if v.Some? then Some(Cube(v.value)) else None
    case Paint =>
      if Numeric(p, 3) then Some(SetColor(ToNumber(p[0]).value, ToNumber(p[1]).value, ToNumber(p[2]).value))
      else None
    case Glow =>
      if Numeric(p, 3) then Some(SetEmissiveColor(ToNumber(p[0]).value, ToNumber(p[1]).value, ToNumber(p[2]).value))
      else None
    case PlainPaint => Some(ResetColors)
    case Turn(axis, negate, a) =>
      var v := ArgValue(a, p, s);
      if v.Some? then Some(Turned(axis, if negate then -v.value else v.value)) else None
    case Save => Some(Push)
    case Restore => Some(Pop)
    case Upright => Some(SetVertical)
  }

  /** The rotation with its angle negated. */
  function Negated(a: Option<Action>): Option<Action> {
    match a
    case Some(RotateX(x)) => Some(RotateX(-x))
    case Some(RotateY(x)) => Some(RotateY(-x))
    case Some(RotateZ(x)) => Some(RotateZ(-x))
    case _ => a
  }

  /** Every symbol of the table is non-empty, as produce needs. */
  lemma FuncsSymbols()
    ensures CommandSymbols(Funcs)
  {
  }

  /** No symbol is registered twice with the same number of parameters, and of two entries
      for one symbol the one with more parameters comes first. */
  lemma TableOrdered()
    ensures forall i, j :: 0 <= i < j < |Funcs| && Funcs[i].sym == Funcs[j].sym ==>
      Funcs[i].paramlength > Funcs[j].paramlength
  {
    forall i, j | 0 <= i < j < |Funcs| && Funcs[i].sym == Funcs[j].sym
      ensures Funcs[i].paramlength > Funcs[j].paramlength
    {
    }
  }

  /** Every entry gets its call once it has as many numeric parameters as it declares. */
  lemma TableResolves(p: seq<Value>, s: Settings)
    ensures forall n :: 0 <= n < |Funcs| && Numeric(p, Funcs[n].paramlength) ==>
      Resolve(Funcs[n].func, p, s).Some?
  {
    forall n | 0 <= n < |Funcs| && Numeric(p, Funcs[n].paramlength)
      ensures Resolve(Funcs[n].func, p, s).Some?
    {
    }
  }

  /** `F` draws a cylinder and `f` moves: their missing arguments are the length and diameter
      settings. */
  lemma DrawDispatch(p: seq<Value>, s: Settings)
    requires Numeric(p, 2)
    ensures var x0, x1 := ToNumber(p[0]).value, ToNumber(p[1]).value;
      forall n :: 0 <= n < |Funcs| ==>
        && (Funcs[n].sym == "F" ==> Resolve(Funcs[n].func, p, s) == Some(Cylinder(
              if Funcs[n].paramlength >= 1 then x0 else s.length,
              if Funcs[n].paramlength == 2 then x1 else s.diameter)))
        && (Funcs[n].sym == "f" ==> Resolve(Funcs[n].func, p, s) == Some(Forward(
              if Funcs[n].paramlength == 1 then x0 else s.length)))
  {
  }

  /** `-`, `^` and `\` turn the other way from `+`, `&` and `/`, about the z, y and x axes,
      with the parameter or with the angle setting. */
  lemma TurnDispatch(p: seq<Value>, s: Settings)
    requires Numeric(p, 1)
    ensures var x0 := ToNumber(p[0]).value;
      forall i, j :: 0 <= i < |Funcs| && 0 <= j < |Funcs| && Funcs[i].paramlength == Funcs[j].paramlength ==>
        var angle := if Funcs[i].paramlength == 1 then x0 else s.angle;
        && (Funcs[i].sym == "+" && Funcs[j].sym == "-" ==>
              Resolve(Funcs[i].func, p, s) == Some(RotateZ(angle))
              && Resolve(Funcs[j].func, p, s) == Negated(Resolve(Funcs[i].func, p, s)))
        && (Funcs[i].sym == "&" && Funcs[j].sym == "^" ==>
              Resolve(Funcs[i].func, p, s) == Some(RotateY(angle))
              && Resolve(Funcs[j].func, p, s) == Negated(Resolve(Funcs[i].func, p, s)))
        && (Funcs[i].sym == "/" && Funcs[j].sym == "\\" ==>
              Resolve(Funcs[i].func, p, s) == Some(RotateX(angle))
              && Resolve(Funcs[j].func, p, s) == Negated(Resolve(Funcs[i].func, p, s)))
  {
  }

  /** `|` turns about z by 180 degrees, whatever the parameters and settings. */
  lemma HalfTurn(p: seq<Value>, s: Settings)
    ensures forall n :: 0 <= n < |Funcs| && Funcs[n].sym == "|" ==>
      Resolve(Funcs[n].func, p, s) == Some(RotateZ(180.0))
  {
  }

  /** The stack, orientation, box and colour commands. */
  lemma OtherDispatch(p: seq<Value>, s: Settings)
    requires Numeric(p, 3)
    ensures var x0, x1, x2 := ToNumber(p[0]).value, ToNumber(p[1]).value, ToNumber(p[2]).value;
      forall n :: 0 <= n < |Funcs| ==>
        var r := Resolve(Funcs[n].func, p, s);
        && (Funcs[n].sym == "[" ==> r == Some(Push))
        && (Funcs[n].sym == "]" ==> r == Some(Pop))
        && (Funcs[n].sym == "$" ==> r == Some(SetVertical))
        && (Funcs[n].sym == "Box" ==> r == Some(Cube(x0)))
        && (Funcs[n].sym == "Color" && Funcs[n].paramlength == 3 ==> r == Some(SetColor(x0, x1, x2)))
        && (Funcs[n].sym == "EmColor" ==> r == Some(SetEmissiveColor(x0, x1, x2)))
        && (Funcs[n].sym == "Color" && Funcs[n].paramlength == 0 ==> r == Some(ResetColors))
  {
  }

  /** Under produce's tie rule the entry with the most parameters wins: no action runs at a
      position where an entry for the same symbol with more parameters also matches. So in
      `F(2,1)` the two-parameter `F` runs, not the bare `F` that matches there too. */
  lemma HighestArityWins(axiom: string, ev: Evaluator, k: nat)
    ensures CommandSymbols(Funcs)
    ensures var es := Entries(Funcs, axiom);
      var r := RunCommands(Funcs, axiom, ev, k);
      forall j, e :: 0 <= j < |r.calls| && e in es && e.start == r.calls[j].entry.start ==>
        && r.calls[j].entry.index < |Funcs| && e.index < |Funcs|
        && (Funcs[e.index].sym == Funcs[r.calls[j].entry.index].sym ==>
              Funcs[e.index].paramlength <= Funcs[r.calls[j].entry.index].paramlength)
  {
    FuncsSymbols();
    TableOrdered();
    var es := Entries(Funcs, axiom);
    var r := RunCommands(Funcs, axiom, ev, k);
    EntriesSpec(Funcs, axiom);
    RunCommandsChosen(Funcs, axiom, ev, k);
    forall j, e | 0 <= j < |r.calls| && e in es && e.start == r.calls[j].entry.start
      ensures r.calls[j].entry.index < |Funcs| && e.index < |Funcs|
    {
      var c := r.calls[j].entry;
      var a :| 0 <= a < |es| && es[a] == c;
      var b :| 0 <= b < |es| && es[b] == e;
      assert EntryOf(es[a], Funcs, axiom, 0) && EntryOf(es[b], Funcs, axiom, 0);
    }
  }
}
