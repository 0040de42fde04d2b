/** The expression side of PLSystem: scopes, the injected evaluator and random source,
    condition checks, body substitution and parameter evaluation. */
module Expressions {
  import opened Common
  import opened JsStrings

  /** What an evaluation returns, as far as the engine looks at it: a boolean (conditions
      compare it with `true`), or any other result together with the text JavaScript
      would print for it (a number keeps its numeric value for the turtle). */
  datatype Value = Bool(b: bool) | Num(x: real, text: string) | Other(text: string)

  /** The text `output += value` appends for an evaluation result. */
  function Display(v: Value): string {
    match v
    case Bool(b) => if b then "true" else "false"
    case Num(_, text) => text
    case Other(text) => text
  }

  /** A scope entry: a raw captured parameter text, the random number, or `undefined`
      (a head parameter with no captured value). */
  datatype Binding = Raw(text: string) | Random(r: real) | Undefined

  type Scope = map<string, Binding>

  /** The expression evaluator (mathjs in the original), which may fail with a message, and
      the random source: `random(n)` is the value of the n-th call to `Math.random`. */
  datatype Evaluator = Evaluator(eval: (string, Scope) -> Result<Value, string>, random: nat -> real)

  /** PLSystem.extendScope: the scope with `rand` bound to a fresh random number; a parameter
      called `rand` is shadowed by it. */
  function ExtendScope(scope: Scope, r: real): Scope {
    scope["rand" := Random(r)]
  }

  /** The extended scope binds `rand` to the random number and keeps every other name. */
  lemma ExtendScopeSpec(scope: Scope, r: real)
    ensures var s := ExtendScope(scope, r);
      && s.Keys == scope.Keys + {"rand"} && s["rand"] == Random(r)
      && forall x :: x in scope && x != "rand" ==> s[x] == scope[x]
  {
  }

  /** PLSystem.evalFormula: one evaluation with a fresh `rand`; a failure is rethrown as a
      formula error naming the formula. */
  function EvalFormula(formula: string, scope: Scope, ev: Evaluator, k: nat): (r: Result<Drawn<Value>, PLError>)
    ensures r.Ok? <==> ev.eval(formula, ExtendScope(scope, ev.random(k))).Ok?
    ensures r.Ok? ==> r.value == Drawn(ev.eval(formula, ExtendScope(scope, ev.random(k))).value, k + 1)
    ensures r.Err? ==> r.error == FormulaError(formula, ev.eval(formula, ExtendScope(scope, ev.random(k))).error)
  {
    match ev.eval(formula, ExtendScope(scope, ev.random(k)))
    case Ok(v) => Ok(Drawn(v, k + 1))
    case Err(e) => Err(FormulaError(formula, e))
  }

  /** PLSystem.checkProductionCondition: an absent condition holds without drawing a random
      number; a present one holds only if it evaluates to exactly boolean true; an
      evaluation failure is an error, never `false`. */
  function CheckProductionCondition(condition: Option<string>, scope: Scope, ev: Evaluator, k: nat)
    : (r: Result<Drawn<bool>, PLError>)
    ensures condition.None? ==> r == Ok(Drawn(true, k))
    ensures condition.Some? ==>
      var res := ev.eval(condition.value, ExtendScope(scope, ev.random(k)));
      && (r.Ok? <==> res.Ok?)
      && (r.Ok? ==> r.value.next == k + 1 && (r.value.value <==> res.value == Bool(true)))
      && (r.Err? ==> r.error == ConditionError(condition.value, res.error))
  {
    match condition
    case None => Ok(Drawn(true, k))
    case Some(c) =>
      match ev.eval(c, ExtendScope(scope, ev.random(k)))
      case Ok(v) => Ok(Drawn(v == Bool(true), k + 1))
      case Err(e) => Err(ConditionError(c, e))
  }

  /** `values[i]` as a binding: `undefined` past the end. */
  function ValueAt(values: seq<string>, i: nat): Binding {
    if i < |values| then Raw(values[i]) else Undefined
  }

  /** PLSystem.zipObject: binds each key, in order, to the value at its position. */
  function ZipObject(keys: seq<string>, values: seq<string>): Scope
    decreases |keys|
  {
    if |keys| == 0 then map[]
    else ZipObject(keys[..|keys| - 1], values)[keys[|keys| - 1] := ValueAt(values, |keys| - 1)]
  }

  /** `keys[i]` does not occur again after position `i`. */
  predicate LastOccurrence(keys: seq<string>, i: nat)
    requires i < |keys|
  {
    forall j :: i < j < |keys| ==> keys[j] != keys[i]
  }

  /** The scope binds exactly the keys; a key is bound to the value at its last position
      (a repeated parameter name takes the later value). */
  lemma {:induction false} ZipObjectSpec(keys: seq<string>, values: seq<string>)
    ensures forall x :: x in ZipObject(keys, values) <==> x in keys
    ensures forall i :: 0 <= i < |keys| && LastOccurrence(keys, i) ==> ZipObject(keys, values)[keys[i]] == ValueAt(values, i)
    decreases |keys|
  {
    if |keys| > 0 {
      var n := |keys| - 1;
      var prefix := keys[..n];
      ZipObjectSpec(prefix, values);
      assert keys == prefix + [keys[n]];
      forall i | 0 <= i < |keys| && LastOccurrence(keys, i)
        ensures ZipObject(keys, values)[keys[i]] == ValueAt(values, i)
      {
        if i < n {
          assert keys[n] != keys[i];
          assert prefix[i] == keys[i];
          assert LastOccurrence(prefix, i);
        }
      }
    }
  }

  // ---------------------------------------------------------------------------------------
  // evalProduction

  predicate IsDelimiter(c: char) {
    c == '(' || c == ')' || c == ','
  }

  /** No parenthesis and no comma. */
  predicate Plain(s: string) {
    forall i :: 0 <= i < |s| ==> !IsDelimiter(s[i])
  }

  /** The character loop of PLSystem.evalProduction from index `i` on, with the loop state
      `output`, `formula` and `inFormula` and the next random draw `k`. */
  function SubstFrom(body: string, i: nat, output: string, formula: string, inFormula: bool,
                     scope: Scope, ev: Evaluator, k: nat): Result<Drawn<string>, PLError>
    requires i <= |body|
    decreases |body| - i
  {
    if i == |body| then Ok(Drawn(output, k))
    else
      var c := body[i];
      if c == '(' then SubstFrom(body, i + 1, output + "(", formula, true, scope, ev, k)
      else if c == ')' || c == ',' then
        match EvalFormula(formula, scope, ev, k)
        case Err(e) => Err(e)
        case Ok(d) =>
          SubstFrom(body, i + 1, output + Display(d.value) + [c], "", c == ',' && inFormula, scope, ev, d.next)
      else if inFormula then SubstFrom(body, i + 1, output, formula + [c], true, scope, ev, k)
      else SubstFrom(body, i + 1, output + [c], formula, false, scope, ev, k)
  }

  /** The text PLSystem.evalProduction makes of a production body. */
  function Substituted(body: string, scope: Scope, ev: Evaluator, k: nat): Result<Drawn<string>, PLError> {
    SubstFrom(body, 0, "", "", false, scope, ev, k)
  }

  /** PLSystem.evalProduction: copies text outside parentheses, copies `(` and `)`, and at each
      `,` or `)` emits the value of the formula gathered since the last `,` or `)`. */
  method EvalProduction(body: string, scope: Scope, ev: Evaluator, k: nat) returns (r: Result<Drawn<string>, PLError>)
    ensures r == Substituted(body, scope, ev, k)
  {
    var output, formula, isFormula, draws := "", "", false, k;
    for index := 0 to |body|
      invariant SubstFrom(body, index, output, formula, isFormula, scope, ev, draws) == Substituted(body, scope, ev, k)
    {
      var c := body[index];
      if c == '(' {
        output := output + "(";
        isFormula := true;
      } else if c == ')' || c == ',' {
        var v := EvalFormula(formula, scope, ev, draws);
        if v.Err? {
          return Err(v.error);
        }
        output := output + Display(v.value.value) + [c];
        formula := "";
        isFormula := c == ',' && isFormula;
        draws := v.value.next;
      } else if isFormula {
        formula := formula + [c];
      } else {
        output := output + [c];
      }
    }
    r := Ok(Drawn(output, draws));
  }

  /** Outside parentheses, a run of plain text is copied verbatim. */
  lemma {:induction false} TextRun(body: string, i: nat, j: nat, output: string, scope: Scope, ev: Evaluator, k: nat)
    requires i <= j <= |body| && Plain(body[i..j])
    ensures SubstFrom(body, i, output, "", false, scope, ev, k)
         == SubstFrom(body, j, output + body[i..j], "", false, scope, ev, k)
    decreases j - i
  {
    if i < j {
      assert body[i..j][0] == body[i];
      assert body[i + 1..j] == body[i..j][1..];
      TextRun(body, i + 1, j, output + [body[i]], scope, ev, k);
      assert output + [body[i]] + body[i + 1..j] == output + body[i..j];
    } else {
      assert output + body[i..j] == output;
    }
  }

  /** Inside parentheses, a run of plain text is gathered into the formula. */
  lemma {:induction false} FormulaRun(body: string, i: nat, j: nat, output: string, formula: string,
                                      scope: Scope, ev: Evaluator, k: nat)
    requires i <= j <= |body| && Plain(body[i..j])
    ensures SubstFrom(body, i, output, formula, true, scope, ev, k)
         == SubstFrom(body, j, output, formula + body[i..j], true, scope, ev, k)
    decreases j - i
  {
    if i < j {
      assert body[i..j][0] == body[i];
      assert body[i + 1..j] == body[i..j][1..];
      FormulaRun(body, i + 1, j, output, formula + [body[i]], scope, ev, k);
      assert formula + [body[i]] + body[i + 1..j] == formula + body[i..j];
    } else {
      assert formula + body[i..j] == formula;
    }
  }

  /** A body without parentheses and commas is returned unchanged, and nothing is evaluated. */
  lemma PlainBodyUnchanged(body: string, scope: Scope, ev: Evaluator, k: nat)
    requires Plain(body)
    ensures Substituted(body, scope, ev, k) == Ok(Drawn(body, k))
  {
    assert body[0..|body|] == body;
    TextRun(body, 0, |body|, "", scope, ev, k);
    assert "" + body == body;
  }

  /** The texts of a list of values. */
  function Displays(vs: seq<Value>): (ts: seq<string>)
    ensures |ts| == |vs| && forall i :: 0 <= i < |vs| ==> ts[i] == Display(vs[i])
  {
    seq(|vs|, i requires 0 <= i < |vs| => Display(vs[i]))
  }

  /** Every field of a parameter group is plain text, and field `n` evaluates to `vs[n]` with
      the n-th random draw after `k`. */
  ghost predicate FieldsEvaluate(fields: seq<string>, vs: seq<Value>, scope: Scope, ev: Evaluator, k: nat)
    decreases |fields|
  {
    && |vs| == |fields|
    && (fields != [] ==>
          && Plain(fields[0])
          && ev.eval(fields[0], ExtendScope(scope, ev.random(k))) == Ok(vs[0])
          && FieldsEvaluate(fields[1..], vs[1..], scope, ev, k + 1))
  }

  /** Inside parentheses, a plain field followed by `,` or `)` is replaced by its value. */
  lemma FieldStep(body: string, i: nat, output: string, f: string, d: char, v: Value, scope: Scope, ev: Evaluator, k: nat)
    requires i + |f| < |body| && body[i..i + |f|] == f && Plain(f)
    requires body[i + |f|] == d && (d == ',' || d == ')')
    requires ev.eval(f, ExtendScope(scope, ev.random(k))) == Ok(v)
    ensures SubstFrom(body, i, output, "", true, scope, ev, k)
         == SubstFrom(body, i + |f| + 1, output + Display(v) + [d], "", d == ',', scope, ev, k + 1)
  {
    FormulaRun(body, i, i + |f|, output, "", scope, ev, k);
    assert "" + f == f;
  }

  /** Where the first field, its comma and the remaining fields of a group lie. */
  lemma FieldsLayout(body: string, i: nat, fields: seq<string>)
    requires |fields| >= 2
    requires i + |Join(fields, ',')| < |body| && body[i..i + |Join(fields, ',')|] == Join(fields, ',')
    requires body[i + |Join(fields, ',')|] == ')'
    ensures i + |fields[0]| < |body| && body[i..i + |fields[0]|] == fields[0] && body[i + |fields[0]|] == ','
    ensures var e := i + |fields[0]| + 1;
      && e + |Join(fields[1..], ',')| < |body| && body[e..e + |Join(fields[1..], ',')|] == Join(fields[1..], ',')
      && body[e + |Join(fields[1..], ',')|] == ')'
      && e + |Join(fields[1..], ',')| == i + |Join(fields, ',')|
  {
    var f := fields[0];
    var J := Join(fields, ',');
    var rest := Join(fields[1..], ',');
    assert J == f + [','] + rest;
    assert body[i..i + |f|] == J[..|f|];
    assert body[i + |f|] == J[|f|];
    var e := i + |f| + 1;
    assert body[e..e + |rest|] == J[|f| + 1..];
  }

  /** The texts of two or more values joined with commas: the first, a comma, the rest. */
  lemma DisplaysCons(vs: seq<Value>)
    requires |vs| >= 2
    ensures Join(Displays(vs), ',') == Display(vs[0]) + [','] + Join(Displays(vs[1..]), ',')
  {
    assert Displays(vs[1..]) == Displays(vs)[1..];
  }

  /** Inside a parameter group, the comma fields up to the closing parenthesis are each
      replaced by their value, and the group is closed. */
  lemma {:induction false} GroupFields(body: string, i: nat, output: string, fields: seq<string>, vs: seq<Value>,
                                       scope: Scope, ev: Evaluator, k: nat)
    requires |fields| >= 1 && FieldsEvaluate(fields, vs, scope, ev, k)
    requires i + |Join(fields, ',')| < |body| && body[i..i + |Join(fields, ',')|] == Join(fields, ',')
    requires body[i + |Join(fields, ',')|] == ')'
    ensures SubstFrom(body, i, output, "", true, scope, ev, k)
         == SubstFrom(body, i + |Join(fields, ',')| + 1, output + Join(Displays(vs), ',') + ")", "", false, scope, ev, k + |fields|)
    decreases |fields|
  {
    if |fields| == 1 {
      assert Join(fields, ',') == fields[0];
      FieldStep(body, i, output, fields[0], ')', vs[0], scope, ev, k);
      assert Join(Displays(vs), ',') == Display(vs[0]);
    } else {
      FieldsLayout(body, i, fields);
      GroupFields(body, i + |fields[0]| + 1, output + Display(vs[0]) + [','], fields[1..], vs[1..], scope, ev, k + 1);
      GroupFieldsCons(body, i, output, fields, vs, scope, ev, k);
    }
  }

  /** The step of GroupFields: the first field, then the others by the induction hypothesis. */
  lemma GroupFieldsCons(body: string, i: nat, output: string, fields: seq<string>, vs: seq<Value>,
                        scope: Scope, ev: Evaluator, k: nat)
    requires |fields| >= 2 && FieldsEvaluate(fields, vs, scope, ev, k)
    requires i + |fields[0]| < |body| && body[i..i + |fields[0]|] == fields[0] && body[i + |fields[0]|] == ','
    requires i + |Join(fields, ',')| < |body|
    requires i + |fields[0]| + 1 + |Join(fields[1..], ',')| == i + |Join(fields, ',')|
    requires SubstFrom(body, i + |fields[0]| + 1, output + Display(vs[0]) + [','], "", true, scope, ev, k + 1)
          == SubstFrom(body, i + |fields[0]| + 1 + |Join(fields[1..], ',')| + 1,
                       output + Display(vs[0]) + [','] + Join(Displays(vs[1..]), ',') + ")", "", false,
                       scope, ev, k + 1 + |fields[1..]|)
    ensures SubstFrom(body, i, output, "", true, scope, ev, k)
         == SubstFrom(body, i + |Join(fields, ',')| + 1, output + Join(Displays(vs), ',') + ")", "", false, scope, ev, k + |fields|)
  {
    FieldStep(body, i, output, fields[0], ',', vs[0], scope, ev, k);
    DisplaysCons(vs);
    assert output + Display(vs[0]) + [','] + Join(Displays(vs[1..]), ',') + ")" == output + Join(Displays(vs), ',') + ")";
    assert k + 1 + |fields[1..]| == k + |fields|;
  }

  /** An opening parenthesis is copied and starts a formula. */
  lemma OpenParen(body: string, i: nat, output: string, scope: Scope, ev: Evaluator, k: nat)
    requires i < |body| && body[i] == '('
    ensures SubstFrom(body, i, output, "", false, scope, ev, k) == SubstFrom(body, i + 1, output + "(", "", true, scope, ev, k)
  {
  }

  /** `body` is laid out as `pre(inner)post`. */
  predicate Laid(body: string, pre: string, inner: string, post: string) {
    && |pre| + 1 + |inner| < |body|
    && body[0..|pre|] == pre && body[|pre|] == '('
    && body[|pre| + 1..|pre| + 1 + |inner|] == inner && body[|pre| + 1 + |inner|] == ')'
    && body[|pre| + 1 + |inner| + 1..|body|] == post
  }

  /** A body assembled from its pieces is laid out as those pieces. */
  lemma GroupPieces(pre: string, inner: string, post: string)
    ensures Laid(pre + "(" + inner + ")" + post, pre, inner, post)
  {
  }

  /** Plain text up to an opening parenthesis is copied along with it, and a formula starts. */
  lemma PrefixRun(body: string, pre: string, scope: Scope, ev: Evaluator, k: nat)
    requires Plain(pre) && |pre| < |body| && body[0..|pre|] == pre && body[|pre|] == '('
    ensures Substituted(body, scope, ev, k) == SubstFrom(body, |pre| + 1, pre + "(", "", true, scope, ev, k)
  {
    TextRun(body, 0, |pre|, "", scope, ev, k);
    assert "" + body[0..|pre|] == pre;
    OpenParen(body, |pre|, pre, scope, ev, k);
  }

  /** Plain text to the end of the body is copied, and the substitution ends. */
  lemma SuffixRun(body: string, j: nat, output: string, post: string, scope: Scope, ev: Evaluator, k: nat)
    requires j <= |body| && body[j..|body|] == post && Plain(post)
    ensures SubstFrom(body, j, output, "", false, scope, ev, k) == Ok(Drawn(output + post, k))
  {
    TextRun(body, j, |body|, output, scope, ev, k);
  }

  /** The plain text before the group of a laid-out body is copied, with its parenthesis. */
  lemma LaidPrefix(body: string, pre: string, inner: string, post: string, scope: Scope, ev: Evaluator, k: nat)
    requires Plain(pre) && Laid(body, pre, inner, post)
    ensures Substituted(body, scope, ev, k) == SubstFrom(body, |pre| + 1, pre + "(", "", true, scope, ev, k)
  {
    PrefixRun(body, pre, scope, ev, k);
  }

  /** The fields of the group of a laid-out body are replaced by their values. */
  lemma LaidFields(body: string, pre: string, fields: seq<string>, post: string, vs: seq<Value>,
                   scope: Scope, ev: Evaluator, k: nat)
    requires |fields| >= 1 && FieldsEvaluate(fields, vs, scope, ev, k)
    requires Laid(body, pre, Join(fields, ','), post)
    ensures SubstFrom(body, |pre| + 1, pre + "(", "", true, scope, ev, k)
         == SubstFrom(body, |pre| + 1 + |Join(fields, ',')| + 1, pre + "(" + Join(Displays(vs), ',') + ")", "", false,
                      scope, ev, k + |fields|)
  {
    GroupFields(body, |pre| + 1, pre + "(", fields, vs, scope, ev, k);
  }

  /** The plain text after the group of a laid-out body is copied, and the substitution ends. */
  lemma LaidSuffix(body: string, pre: string, inner: string, post: string, output: string,
                   scope: Scope, ev: Evaluator, k: nat)
    requires Plain(post) && Laid(body, pre, inner, post)
    ensures SubstFrom(body, |pre| + 1 + |inner| + 1, output, "", false, scope, ev, k) == Ok(Drawn(output + post, k))
  {
    SuffixRun(body, |pre| + 1 + |inner| + 1, output, post, scope, ev, k);
  }

  /** The run of `SubstFrom` over a body known to be laid out as `pre(f1,...,fn)post`. */
  lemma GroupLayout(body: string, pre: string, fields: seq<string>, post: string, vs: seq<Value>,
                    scope: Scope, ev: Evaluator, k: nat)
    requires Plain(pre) && Plain(post)
    requires |fields| >= 1 && FieldsEvaluate(fields, vs, scope, ev, k)
    requires Laid(body, pre, Join(fields, ','), post)
    ensures Substituted(body, scope, ev, k)
         == Ok(Drawn(pre + "(" + Join(Displays(vs), ',') + ")" + post, k + |fields|))
  {
    LaidPrefix(body, pre, Join(fields, ','), post, scope, ev, k);
    LaidFields(body, pre, fields, post, vs, scope, ev, k);
    LaidSuffix(body, pre, Join(fields, ','), post, pre + "(" + Join(Displays(vs), ',') + ")", scope, ev, k + |fields|);
  }

  /** A body `pre(f1,...,fn)post` whose fields all evaluate becomes `pre(v1,...,vn)post`, using
      one random draw per field. */
  lemma SubstitutedGroup(pre: string, fields: seq<string>, post: string, vs: seq<Value>,
                         scope: Scope, ev: Evaluator, k: nat)
    requires Plain(pre) && Plain(post)
    requires |fields| >= 1 && FieldsEvaluate(fields, vs, scope, ev, k)
    ensures Substituted(pre + "(" + Join(fields, ',') + ")" + post, scope, ev, k)
         == Ok(Drawn(pre + "(" + Join(Displays(vs), ',') + ")" + post, k + |fields|))
  {
    GroupPieces(pre, Join(fields, ','), post);
    GroupLayout(pre + "(" + Join(fields, ',') + ")" + post, pre, fields, post, vs, scope, ev, k);
  }

  /** If the first formula of a body fails to evaluate, the whole substitution fails with
      that formula's error. */
  lemma SubstitutedFirstFails(pre: string, f: string, d: char, post: string, scope: Scope, ev: Evaluator, k: nat)
    requires Plain(pre) && Plain(f) && (d == ',' || d == ')')
    requires ev.eval(f, ExtendScope(scope, ev.random(k))).Err?
    ensures Substituted(pre + "(" + f + [d] + post, scope, ev, k)
         == Err(FormulaError(f, ev.eval(f, ExtendScope(scope, ev.random(k))).error))
  {
    var body := pre + "(" + f + [d] + post;
    var p := |pre|;
    assert body[0..p] == pre;
    TextRun(body, 0, p, "", scope, ev, k);
    assert "" + pre == pre;
    assert body[p] == '(';
    assert body[p + 1..p + 1 + |f|] == f;
    FormulaRun(body, p + 1, p + 1 + |f|, pre + "(", "", scope, ev, k);
    assert "" + f == f;
    assert body[p + 1 + |f|] == d;
  }

  // ---------------------------------------------------------------------------------------
  // evalParamValues

  /** The loop of PLSystem.evalParamValues from index `i`, with the values so far in `acc`:
      every parameter text is evaluated in a scope holding only `rand`. The loop extends an
      empty scope and evalFormula extends it again, so each parameter takes two random draws
      and sees the second. */
  function ParamValuesFrom(params: seq<string>, i: nat, acc: seq<Value>, ev: Evaluator, k: nat)
    : Result<Drawn<seq<Value>>, PLError>
    requires i <= |params|
    decreases |params| - i
  {
    if i == |params| then Ok(Drawn(acc, k))
    else
      match EvalFormula(params[i], ExtendScope(map[], ev.random(k)), ev, k + 1)
      case Err(e) => Err(e)
      case Ok(d) => ParamValuesFrom(params, i + 1, acc + [d.value], ev, d.next)
  }

  /** The evaluation of parameter `j` when the loop reaches it at random draw `base + 2 * j`. */
  function ParamEval(params: seq<string>, j: nat, ev: Evaluator, base: nat): Result<Drawn<Value>, PLError>
    requires j < |params|
  {
    EvalFormula(params[j], ExtendScope(map[], ev.random(base + 2 * j)), ev, base + 2 * j + 1)
  }

  /** Parameter `j` evaluates to `vs[j]`. */
  ghost predicate ParamEvaluates(params: seq<string>, j: nat, ev: Evaluator, base: nat, vs: seq<Value>)
    requires j < |params| && j < |vs|
  {
    ParamEval(params, j, ev, base).Ok? && ParamEval(params, j, ev, base).value.value == vs[j]
  }

  /** Parameter `j` fails to evaluate. */
  ghost predicate ParamFails(params: seq<string>, j: nat, ev: Evaluator, base: nat)
    requires j < |params|
  {
    ParamEval(params, j, ev, base).Err?
  }

  /** Extending a scope twice leaves only the second `rand`. */
  lemma ExtendTwice(scope: Scope, r1: real, r2: real)
    ensures ExtendScope(ExtendScope(scope, r1), r2) == ExtendScope(scope, r2)
  {
  }

  lemma {:induction false} ParamValuesFromSpec(params: seq<string>, i: nat, acc: seq<Value>, ev: Evaluator, base: nat)
    requires i <= |params| && |acc| == i
    ensures var r := ParamValuesFrom(params, i, acc, ev, base + 2 * i);
      && (r.Ok? ==>
           && |r.value.value| == |params| && r.value.value[..i] == acc
           && r.value.next == base + 2 * |params|
           && forall j :: i <= j < |params| ==> ParamEvaluates(params, j, ev, base, r.value.value))
      && (r.Err? <==> exists j :: i <= j < |params| && ParamFails(params, j, ev, base))
    decreases |params| - i
  {
    var r := ParamValuesFrom(params, i, acc, ev, base + 2 * i);
    if i < |params| {
      var d := ParamEval(params, i, ev, base);
      if d.Err? {
        assert ParamFails(params, i, ev, base);
      } else {
        var acc' := acc + [d.value.value];
        ParamValuesFromSpec(params, i + 1, acc', ev, base);
        assert r == ParamValuesFrom(params, i + 1, acc', ev, base + 2 * (i + 1));
        assert !ParamFails(params, i, ev, base);
        if exists j :: i <= j < |params| && ParamFails(params, j, ev, base) {
          var j :| i <= j < |params| && ParamFails(params, j, ev, base);
          assert i + 1 <= j;
        }
        if r.Ok? {
          var vs := r.value.value;
          assert vs[..i] == vs[..i + 1][..i];
          assert vs[i] == vs[..i + 1][i];
          assert ParamEvaluates(params, i, ev, base, vs);
        }
      }
    }
  }

  /** The values PLSystem.evalParamValues computes for a command's parameter texts. */
  function ParamValues(params: seq<string>, ev: Evaluator, k: nat): Result<Drawn<seq<Value>>, PLError> {
    ParamValuesFrom(params, 0, [], ev, k)
  }

  /** PLSystem.evalParamValues: evaluates each parameter text in turn (the original overwrites
      the array in place; here the values are returned). */
  method EvalParamValues(params: seq<string>, ev: Evaluator, k: nat) returns (r: Result<Drawn<seq<Value>>, PLError>)
    ensures r == ParamValues(params, ev, k)
  {
    var values: seq<Value> := [];
    var draws := k;
    for i := 0 to |params|
      invariant ParamValuesFrom(params, i, values, ev, draws) == ParamValues(params, ev, k)
    {
      var v := EvalFormula(params[i], ExtendScope(map[], ev.random(draws)), ev, draws + 1);
      if v.Err? {
        return Err(v.error);
      }
      values := values + [v.value.value];
      draws := v.value.next;
    }
    r := Ok(Drawn(values, draws));
  }

  /** The evaluated parameters come out one per text, in order, parameter `j` evaluated with
      `rand` the random draw `k + 2 * j + 1`; evaluation fails exactly when some text fails to
      evaluate, and the errors are formula errors. */
  lemma ParamValuesSpec(params: seq<string>, ev: Evaluator, k: nat)
    ensures var r := ParamValues(params, ev, k);
      && (r.Ok? ==>
           && |r.value.value| == |params| && r.value.next == k + 2 * |params|
           && forall j :: 0 <= j < |params| ==> ev.eval(params[j], ExtendScope(map[], ev.random(k + 2 * j + 1))) == Ok(r.value.value[j]))
      && (r.Err? <==> exists j :: 0 <= j < |params| && ev.eval(params[j], ExtendScope(map[], ev.random(k + 2 * j + 1))).Err?)
      && (r.Err? ==> r.error.FormulaError?)
  {
    ParamValuesFromSpec(params, 0, [], ev, k);
    ParamValuesFormulaErrors(params, 0, [], ev, k);
    var r := ParamValues(params, ev, k);
    forall j | 0 <= j < |params|
      ensures ParamEval(params, j, ev, k).Ok? <==> ev.eval(params[j], ExtendScope(map[], ev.random(k + 2 * j + 1))).Ok?
      ensures ParamEval(params, j, ev, k).Ok? ==>
                ParamEval(params, j, ev, k).value.value == ev.eval(params[j], ExtendScope(map[], ev.random(k + 2 * j + 1))).value
    {
      ExtendTwice(map[], ev.random(k + 2 * j), ev.random(k + 2 * j + 1));
    }
    if r.Ok? {
      forall j | 0 <= j < |params| ensures ev.eval(params[j], ExtendScope(map[], ev.random(k + 2 * j + 1))) == Ok(r.value.value[j]) {
        assert ParamEvaluates(params, j, ev, k, r.value.value);
      }
    } else {
      var j :| 0 <= j < |params| && ParamFails(params, j, ev, k);
    }
    if exists j :: 0 <= j < |params| && ev.eval(params[j], ExtendScope(map[], ev.random(k + 2 * j + 1))).Err? {
      var j :| 0 <= j < |params| && ev.eval(params[j], ExtendScope(map[], ev.random(k + 2 * j + 1))).Err?;
      assert ParamFails(params, j, ev, k);
    }
  }

  /** The loop fails only with a formula error. */
  lemma {:induction false} ParamValuesFormulaErrors(params: seq<string>, i: nat, acc: seq<Value>, ev: Evaluator, k: nat)
    requires i <= |params|
    ensures var r := ParamValuesFrom(params, i, acc, ev, k); r.Err? ==> r.error.FormulaError?
    decreases |params| - i
  {
    if i < |params| {
      var d := EvalFormula(params[i], ExtendScope(map[], ev.random(k)), ev, k + 1);
      if d.Ok? {
        ParamValuesFormulaErrors(params, i + 1, acc + [d.value.value], ev, d.value.next);
      }
    }
  }
}
