/** Rule compilation in PLSystem.produce: dropping empty lines, the rule-line regular expression,
    PLSystem.splitParam for rule heads, and the loop that turns rule lines into productions. */
module Grammar {
  import opened Common
  import opened JsStrings

  // ---------------------------------------------------------------------------------------
  // filterEmpty

  /** PLSystem.filterEmpty: keeps the non-empty strings (`split` never yields `null`). */
  function FilterEmpty(list: seq<string>): (r: seq<string>)
    ensures forall i :: 0 <= i < |r| ==> r[i] != ""
    ensures forall s :: s != "" ==> multiset(r)[s] == multiset(list)[s]
    decreases |list|
  {
    if |list| == 0 then []
    else
      assert list == [list[0]] + list[1..];
      (if list[0] == "" then [] else [list[0]]) + FilterEmpty(list[1..])
  }

  /** Filtering works piecewise, so the kept strings stay in their original order. */
  lemma {:induction false} FilterEmptyAppend(a: seq<string>, b: seq<string>)
    ensures FilterEmpty(a + b) == FilterEmpty(a) + FilterEmpty(b)
    decreases |a|
  {
    if |a| == 0 {
      assert a + b == b;
    } else {
      assert (a + b)[0] == a[0];
      assert (a + b)[1..] == a[1..] + b;
      FilterEmptyAppend(a[1..], b);
    }
  }

  /** A list without empty strings is kept as it is. */
  lemma {:induction false} FilterEmptyKeeps(list: seq<string>)
    requires forall i :: 0 <= i < |list| ==> list[i] != ""
    ensures FilterEmpty(list) == list
    decreases |list|
  {
    if |list| > 0 {
      FilterEmptyKeeps(list[1..]);
      assert list == [list[0]] + list[1..];
    }
  }

  // ---------------------------------------------------------------------------------------
  // splitParam

  /** A rule head or command: the symbol and its parameter names. */
  datatype Head = Head(sym: string, params: seq<string>)

  /** PLSystem.splitParam: the symbol is the text before the first `(`; the parameters are the
      non-empty comma fields between that `(` and the last `)` after it, or none if no `)`
      follows. */
  function SplitParam(exp: string): (h: Head)
    ensures h.sym <= exp && '(' !in h.sym
    ensures |h.sym| < |exp| ==> exp[|h.sym|] == '('
    ensures forall i :: 0 <= i < |h.params| ==> h.params[i] != "" && ',' !in h.params[i]
  {
    var o := IndexOf(exp, "(", 0);
    IndexOfChar(exp, '(', 0);
    if o == -1 then Head(exp, [])
    else
      var close := LastIndexOf(exp, ")", |exp| - 1);
      var params := if close > o then FilterEmpty(Split(exp[o + 1..close], ',')) else [];
      assert forall i :: 0 <= i < |params| ==> params[i] in multiset(params);
      Head(exp[..o], params)
  }

  /** The text of a head: `A` or `A(x,y)`. */
  function HeadText(h: Head): string {
    if |h.params| == 0 then h.sym else h.sym + "(" + Join(h.params, ',') + ")"
  }

  /** Parsing the text of a head gives it back, whenever the symbol holds no `(` and the
      parameter names are non-empty and hold no `,`. */
  lemma SplitParamHeadText(h: Head)
    requires '(' !in h.sym
    requires forall i :: 0 <= i < |h.params| ==> h.params[i] != "" && ',' !in h.params[i]
    ensures SplitParam(HeadText(h)) == h
  {
    var exp := HeadText(h);
    IndexOfChar(exp, '(', 0);
    if |h.params| == 0 {
      assert IndexOf(exp, "(", 0) == -1;
    } else {
      var inner := Join(h.params, ',');
      var n := |h.sym|;
      assert exp[n] == '(';
      assert forall j :: 0 <= j < n ==> exp[j] == h.sym[j];
      assert IndexOf(exp, "(", 0) == n;
      LastIndexOfChar(exp, ')', |exp| - 1);
      assert exp[|exp| - 1] == ')';
      assert LastIndexOf(exp, ")", |exp| - 1) == |exp| - 1;
      assert exp[n + 1..|exp| - 1] == inner;
      SplitJoin(h.params, ',');
      FilterEmptyKeeps(h.params);
      assert exp[..n] == h.sym;
    }
  }

  // ---------------------------------------------------------------------------------------
  // The rule-line regular expression /(?<head>.*?)(:(?<condition>.*))?->(?<body>.*)/

  /** No `->` anywhere in `s`. */
  predicate Arrowless(s: string) {
    forall j :: 0 <= j < |s| ==> !OccursAt(s, "->", j)
  }

  /** The groups of a rule line: head, optional condition and body. */
  datatype RuleLine = RuleLine(head: string, condition: Option<string>, body: string)

  /** The text a match of the regular expression covers. */
  function LineText(l: RuleLine): string {
    l.head + (if l.condition.Some? then ":" + l.condition.value else "") + "->" + l.body
  }

  /** The groups the regular expression picks: the lazy head stops at the first `:` or `->`,
      and a condition, being greedy, runs to the last `->`. */
  predicate RegexGroups(l: RuleLine) {
    && ':' !in l.head && Arrowless(l.head)
    && (l.condition.Some? ==> Arrowless(l.body))
  }

  /** In `x + [d] + y` with no `->` in `x` and `d` not `>`, no `->` starts inside `x`. */
  lemma ArrowBoundary(x: string, d: char, y: string)
    requires Arrowless(x) && d != '>'
    ensures forall j :: j < |x| ==> !OccursAt(x + [d] + y, "->", j)
  {
    var s := x + [d] + y;
    forall j | j < |x|
      ensures !OccursAt(s, "->", j)
    {
      if 0 <= j && j + 2 <= |x| {
        OccursInSlice(s, "->", 0, |x|, j);
        assert s[..|x|] == x;
      } else if 0 <= j && j + 2 <= |s| {
        assert s[j..j + 2][1] == s[j + 1] == d;
      }
    }
  }

  /** A slice of a string with no `->` in the sliced range has no `->`. */
  lemma ArrowlessSlice(p: string, lo: nat, hi: nat)
    requires lo <= hi <= |p|
    requires forall j :: lo <= j && j + 2 <= hi ==> !OccursAt(p, "->", j)
    ensures Arrowless(p[lo..hi])
  {
    forall j | 0 <= j < hi - lo
      ensures !OccursAt(p[lo..hi], "->", j)
    {
      OccursInSlice(p, "->", lo, hi, j);
    }
  }

  /** The groups when a `:` at `c` comes before the first `->` at `a`, and `last` is the last `->`. */
  lemma ConditionGroups(p: string, c: nat, a: nat, last: nat)
    requires c < a <= last && OccursAt(p, "->", last)
    requires forall j :: 0 <= j < a ==> !OccursAt(p, "->", j)
    requires p[c] == ':' && forall j :: 0 <= j < c ==> p[j] != ':'
    requires forall j :: last < j <= |p| ==> !OccursAt(p, "->", j)
    ensures var l := RuleLine(p[..c], Some(p[c + 1..last]), p[last + 2..]);
      LineText(l) == p && RegexGroups(l)
  {
    ArrowlessSlice(p, 0, c);
    ArrowlessSlice(p, last + 2, |p|);
    assert p[last + 2..] == p[last + 2..|p|];
    assert p[last..last + 2] == "->";
    assert p == p[..c] + ([p[c]] + p[c + 1..last]) + p[last..last + 2] + p[last + 2..];
  }

  /** The groups when the first `->` is at `a` and no `:` comes before it. */
  lemma PlainGroups(p: string, a: nat)
    requires OccursAt(p, "->", a)
    requires forall j :: 0 <= j < a ==> !OccursAt(p, "->", j) && p[j] != ':'
    ensures var l := RuleLine(p[..a], None, p[a + 2..]);
      LineText(l) == p && RegexGroups(l)
  {
    ArrowlessSlice(p, 0, a);
    assert p[a..a + 2] == "->";
    assert p == p[..a] + p[a..a + 2] + p[a + 2..];
  }

  /** The match of the rule-line regular expression on a space-free line (`.` is taken to
      match every character): none without `->`; otherwise, if a `:` comes before the first
      `->`, the head ends there and the condition runs to the last `->`, else the head ends at
      the first `->` and there is no condition. */
  function MatchRule(p: string): (r: Option<RuleLine>)
    ensures r.None? <==> Arrowless(p)
    ensures r.Some? ==> LineText(r.value) == p && RegexGroups(r.value)
  {
    var a := IndexOf(p, "->", 0);
    IndexOfFirst(p, "->", 0);
    if a == -1 then None
    else
      var c := IndexOf(p, ":", 0);
      IndexOfChar(p, ':', 0);
      if c != -1 && c < a then
        var last := LastIndexOf(p, "->", |p|);
        ConditionGroups(p, c, a, last);
        Some(RuleLine(p[..c], Some(p[c + 1..last]), p[last + 2..]))
      else
        PlainGroups(p, a);
        Some(RuleLine(p[..a], None, p[a + 2..]))
  }

  /** After an `->` at `m` followed by text without `->`, no `->` starts. */
  lemma ArrowlessAfter(p: string, m: nat)
    requires OccursAt(p, "->", m) && Arrowless(p[m + 2..])
    ensures forall j :: m < j <= |p| ==> !OccursAt(p, "->", j)
  {
    forall j | m < j <= |p|
      ensures !OccursAt(p, "->", j)
    {
      if j == m + 1 && j + 2 <= |p| {
        assert p[m..m + 2][1] == p[j] == '>';
        assert p[j..j + 2][0] == p[j];
      } else if j + 2 <= |p| {
        assert p[m + 2..] == p[m + 2..|p|];
        OccursInSlice(p, "->", m + 2, |p|, j - (m + 2));
      }
    }
  }

  /** A line without a condition is read back as head and body. */
  lemma MatchRulePlain(head: string, body: string)
    requires ':' !in head && Arrowless(head)
    ensures MatchRule(LineText(RuleLine(head, None, body))) == Some(RuleLine(head, None, body))
  {
    var p := LineText(RuleLine(head, None, body));
    var h := |head|;
    assert p == head + ['-'] + (['>'] + body);
    ArrowBoundary(head, '-', ['>'] + body);
    assert OccursAt(p, "->", h) by { assert p[h..h + 2] == "->"; }
    IndexOfFirst(p, "->", 0);
    assert IndexOf(p, "->", 0) == h;
    IndexOfChar(p, ':', 0);
    assert forall j :: 0 <= j < h ==> p[j] == head[j];
    assert p[h] == '-';
    assert IndexOf(p, ":", 0) == -1 || IndexOf(p, ":", 0) >= h;
    assert p[..h] == head;
    assert p[h + 2..] == body;
  }

  /** A line whose first `:` at `h` precedes every `->`, and whose last `->` is at `m`, is
      read as head, condition and body around them. */
  lemma ConditionalAt(p: string, h: nat, m: nat)
    requires h < m && OccursAt(p, "->", m) && p[h] == ':'
    requires forall j :: 0 <= j < h ==> p[j] != ':'
    requires forall j :: 0 <= j <= h ==> !OccursAt(p, "->", j)
    requires forall j :: m < j <= |p| ==> !OccursAt(p, "->", j)
    ensures MatchRule(p) == Some(RuleLine(p[..h], Some(p[h + 1..m]), p[m + 2..]))
  {
    IndexOfChar(p, ':', 0);
    assert IndexOf(p, ":", 0) == h;
    IndexOfFirst(p, "->", 0);
    var a := IndexOf(p, "->", 0);
    assert a != -1 && a > h;
    assert LastIndexOf(p, "->", |p|) == m;
  }

  /** The same reading, stated with the head, condition and body the positions delimit. */
  lemma ConditionalRead(p: string, head: string, cond: string, body: string)
    requires |head| + 1 + |cond| + 2 <= |p|
    requires p[|head|] == ':' && forall j :: 0 <= j < |head| ==> p[j] != ':'
    requires forall j :: 0 <= j <= |head| ==> !OccursAt(p, "->", j)
    requires OccursAt(p, "->", |head| + 1 + |cond|)
    requires forall j :: |head| + 1 + |cond| < j <= |p| ==> !OccursAt(p, "->", j)
    requires p[|head| + 1 + |cond| + 2..] == body
    requires p[..|head|] == head && p[|head| + 1..|head| + 1 + |cond|] == cond
    ensures MatchRule(p) == Some(RuleLine(head, Some(cond), body))
  {
    var m := |head| + 1 + |cond|;
    assert RuleLine(p[..|head|], Some(p[|head| + 1..m]), p[m + 2..]) == RuleLine(head, Some(cond), body);
    ConditionalAt(p, |head|, m);
  }

  /** Where the head, the `:`, the condition, the `->` and the body of a conditional line lie. */
  lemma ConditionalLayout(p: string, head: string, cond: string, body: string)
    requires p == head + [':'] + (cond + "->" + body)
    requires ':' !in head && Arrowless(head)
    ensures p[|head|] == ':' && forall j :: 0 <= j < |head| ==> p[j] != ':'
    ensures forall j :: 0 <= j <= |head| ==> !OccursAt(p, "->", j)
    ensures OccursAt(p, "->", |head| + 1 + |cond|)
    ensures p[|head| + 1 + |cond| + 2..] == body
    ensures p[..|head|] == head && p[|head| + 1..|head| + 1 + |cond|] == cond
  {
    var h := |head|;
    var m := h + 1 + |cond|;
    ArrowBoundary(head, ':', cond + "->" + body);
    assert forall j :: 0 <= j < h ==> p[j] == head[j];
    assert !OccursAt(p, "->", h) by { assert p[h..h + 2][0] == ':'; }
    assert p[m..m + 2] == "->";
  }

  /** A line with a condition is read back as head, condition and body. */
  lemma MatchRuleConditional(head: string, cond: string, body: string)
    requires ':' !in head && Arrowless(head) && Arrowless(body)
    ensures MatchRule(LineText(RuleLine(head, Some(cond), body))) == Some(RuleLine(head, Some(cond), body))
  {
    var p := LineText(RuleLine(head, Some(cond), body));
    assert p == head + [':'] + (cond + "->" + body);
    ConditionalLayout(p, head, cond, body);
    ArrowlessAfter(p, |head| + 1 + |cond|);
    ConditionalRead(p, head, cond, body);
  }

  /** The regular expression decomposes a line in exactly one way: any head, condition and body
      that spell the line and obey the lazy/greedy rules are the ones it picks. */
  lemma MatchRuleUnique(l: RuleLine)
    requires RegexGroups(l)
    ensures MatchRule(LineText(l)) == Some(l)
  {
    match l.condition
    case None => MatchRulePlain(l.head, l.body);
    case Some(cond) => MatchRuleConditional(l.head, cond, l.body);
  }

  // ---------------------------------------------------------------------------------------
  // Productions

  /** A compiled rule: its head, its condition (absent when the line has none) and its body. */
  datatype Production = Production(head: Head, condition: Option<string>, body: string)

  /** The rule-line step of PLSystem.produce for line `i`: spaces are removed, the line is
      matched, the head is split; a line without `->` or with an empty head symbol is
      rejected naming its index. */
  function ParseProduction(line: string, i: nat): (r: Result<Production, PLError>)
    ensures r.Err? ==> r.error == InvalidProduction(i)
    ensures r.Ok? ==> r.value.head.sym != "" && '(' !in r.value.head.sym && ':' !in r.value.head.sym
    ensures r.Ok? ==> ' ' !in r.value.body && Arrowless(r.value.head.sym)
  {
    var p := RemoveSpaces(line);
    match MatchRule(p)
    case None => Err(InvalidProduction(i))
    case Some(l) =>
      var h := SplitParam(l.head);
      if h.sym == "" then Err(InvalidProduction(i))
      else
        assert Arrowless(h.sym) by {
          forall j | 0 <= j < |h.sym| ensures !OccursAt(h.sym, "->", j) {
            assert h.sym == l.head[..|h.sym|];
            OccursInSlice(l.head, "->", 0, |h.sym|, j);
          }
        }
        assert forall j :: 0 <= j < |h.sym| ==> h.sym[j] == l.head[j];
        assert forall j :: 0 <= j < |l.body| ==> l.body[j] == p[|p| - |l.body| + j];
        Ok(Production(h, l.condition, l.body))
  }

  /** The text of a production, `head[:condition]->body`. */
  function ProductionText(prod: Production): string {
    LineText(RuleLine(HeadText(prod.head), prod.condition, prod.body))
  }

  /** A production whose text the rule-line syntax reads back: no spaces anywhere, a non-empty
      symbol without `(`, parameter names that are non-empty and hold no `,`, a head text
      without `:` or `->`, and with a condition a body without `->`. */
  predicate Printable(prod: Production) {
    && ' ' !in ProductionText(prod)
    && prod.head.sym != "" && '(' !in prod.head.sym
    && (forall i :: 0 <= i < |prod.head.params| ==> prod.head.params[i] != "" && ',' !in prod.head.params[i])
    && RegexGroups(RuleLine(HeadText(prod.head), prod.condition, prod.body))
  }

  /** Compiling the text of a printable production gives that production back. */
  lemma ParseProductionText(prod: Production, i: nat)
    requires Printable(prod)
    ensures ParseProduction(ProductionText(prod), i) == Ok(prod)
  {
    RemoveSpacesNoSpace(ProductionText(prod));
    MatchRuleUnique(RuleLine(HeadText(prod.head), prod.condition, prod.body));
    SplitParamHeadText(prod.head);
  }

  /** A rule line is rejected exactly when, with spaces removed, it has no `->` or its head
      symbol is empty: it starts with `(`, `:` or `->`. */
  lemma ParseProductionFails(line: string, i: nat)
    ensures var p := RemoveSpaces(line);
      ParseProduction(line, i).Err?
      <==> Arrowless(p) || (|p| > 0 && (p[0] == '(' || p[0] == ':')) || OccursAt(p, "->", 0)
  {
    var p := RemoveSpaces(line);
    var m := MatchRule(p);
    if m.Some? {
      var l := m.value;
      var h := SplitParam(l.head);
      assert |p| > 0 by { assert OccursAt(p, "->", IndexOf(p, "->", 0)); }
      if |l.head| == 0 {
        assert h.sym == "";
        if l.condition.Some? {
          assert p[0] == ':';
        } else {
          assert p[..2] == "->";
        }
      } else {
        assert p[0] == l.head[0];
        assert p[0] != ':';
        if |l.head| == 1 {
          assert p[1] == ':' || p[1] == '-';
        } else {
          assert !OccursAt(l.head, "->", 0);
          assert l.head[..2] == p[..2];
        }
        assert !OccursAt(p, "->", 0);
        assert h.sym == "" <==> l.head[0] == '(';
      }
    }
  }

  // ---------------------------------------------------------------------------------------
  // The compile loop of PLSystem.produce

  /** The results in order from index `i` on, with the values so far in `acc`: the first
      error, or all the values. */
  function AllOkFrom<T, E>(rs: seq<Result<T, E>>, i: nat, acc: seq<T>): Result<seq<T>, E>
    requires i <= |rs|
    decreases |rs| - i
  {
    if i == |rs| then Ok(acc)
    else
      match rs[i]
      case Err(e) => Err(e)
      case Ok(v) => AllOkFrom(rs, i + 1, acc + [v])
  }

  lemma {:induction false} AllOkFromSpec<T, E>(rs: seq<Result<T, E>>, i: nat, acc: seq<T>)
    requires i <= |rs| && |acc| == i
    ensures var r := AllOkFrom(rs, i, acc);
      && (r.Ok? <==> forall j :: i <= j < |rs| ==> rs[j].Ok?)
      && (r.Ok? ==> |r.value| == |rs| && r.value[..i] == acc
                    && forall j :: i <= j < |rs| ==> rs[j] == Ok(r.value[j]))
      && (r.Err? ==> exists j :: i <= j < |rs| && rs[j] == Err(r.error)
                                && forall n :: i <= n < j ==> rs[n].Ok?)
    decreases |rs| - i
  {
    var r := AllOkFrom(rs, i, acc);
    if i < |rs| && rs[i].Ok? {
      var acc' := acc + [rs[i].value];
      AllOkFromSpec(rs, i + 1, acc');
      if r.Ok? {
        assert r.value[..i] == r.value[..i + 1][..i];
        assert r.value[i] == r.value[..i + 1][i];
      } else {
        var j :| i + 1 <= j < |rs| && rs[j] == Err(r.error) && forall n :: i + 1 <= n < j ==> rs[n].Ok?;
        assert forall n :: i <= n < j ==> rs[n].Ok?;
      }
    }
  }

  /** The parse result of each rule line, in order. */
  function ParsedLines(lines: seq<string>): seq<Result<Production, PLError>> {
    seq(|lines|, j requires 0 <= j < |lines| => ParseProduction(lines[j], j))
  }

  /** The productions compiled from the (non-empty) rule lines. */
  function Compiled(lines: seq<string>): Result<seq<Production>, PLError> {
    AllOkFrom(ParsedLines(lines), 0, [])
  }

  /** Compilation succeeds exactly when every line parses, giving one production per line in
      order; otherwise it fails with the error of the first line that does not parse. */
  lemma CompiledSpec(lines: seq<string>)
    ensures var r := Compiled(lines);
      && (r.Ok? <==> forall j :: 0 <= j < |lines| ==> ParseProduction(lines[j], j).Ok?)
      && (r.Ok? ==> |r.value| == |lines| && forall j :: 0 <= j < |lines| ==> ParseProduction(lines[j], j) == Ok(r.value[j]))
      && (r.Err? ==> exists j :: 0 <= j < |lines| && r.error == InvalidProduction(j)
                                && ParseProduction(lines[j], j).Err?
                                && forall n :: 0 <= n < j ==> ParseProduction(lines[n], n).Ok?)
  {
    var rs := ParsedLines(lines);
    AllOkFromSpec(rs, 0, []);
    assert forall j :: 0 <= j < |lines| ==> rs[j] == ParseProduction(lines[j], j);
  }

  /** The compile loop of PLSystem.produce (lines 42-60): each line is parsed in turn and the
      first bad line aborts with its error. */
  method CompileProductions(lines: seq<string>) returns (r: Result<seq<Production>, PLError>)
    ensures r == Compiled(lines)
  {
    var prods: seq<Production> := [];
    for i := 0 to |lines|
      invariant AllOkFrom(ParsedLines(lines), i, prods) == Compiled(lines)
    {
      var prod := ParseProduction(lines[i], i);
      if prod.Err? {
        return Err(prod.error);
      }
      prods := prods + [prod.value];
    }
    r := Ok(prods);
  }
}
