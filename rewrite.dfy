/** One rewriting pass of PLSystem.produce: every production is matched against the axiom,
    the matches whose condition holds become replacement parts, the parts are sorted by
    position and spliced into the axiom. */
module Rewrite {
  import opened Common
  import opened JsStrings
  import opened Grammar
  import opened Expressions
  import opened Scanner
  import opened Sorting

  /** A replacement: the text replacing `axiom[start..end]`, from production `prodindex`. */
  datatype Part = Part(start: nat, end: nat, text: string, prodindex: nat)

  /** The order the pass sorts its parts in: by position, then by production. */
  function PartKey(p: Part): Key {
    (p.start, p.prodindex)
  }

  /** Every part replaces a non-empty span of the axiom. */
  predicate PartsWithin(parts: seq<Part>, axiom: string) {
    forall n :: 0 <= n < |parts| ==> parts[n].start < parts[n].end <= |axiom|
  }

  // ---------------------------------------------------------------------------------------
  // Collecting the parts

  /** Every rule has a non-empty symbol, as rule compilation guarantees. */
  predicate Symbols(prods: seq<Production>) {
    forall n :: 0 <= n < |prods| ==> |prods[n].head.sym| > 0
  }

  /** The inner loop of the pass for production `prod` (number `prodindex`) from its `n`-th
      match on, with the parts so far in `acc` and the next random draw `k`: each match's
      captured values are bound to the head's parameter names, the condition is checked and,
      when it holds, the body is filled in. Any evaluation error ends the pass. */
  function RulePartsFrom(prod: Production, prodindex: nat, ms: seq<Match>, n: nat, acc: seq<Part>,
                         ev: Evaluator, k: nat): Result<Drawn<seq<Part>>, PLError>
    requires n <= |ms|
    decreases |ms| - n
  {
    if n == |ms| then Ok(Drawn(acc, k))
    else
      var m := ms[n];
      var scope := ZipObject(prod.head.params, m.paramvalues);
      match CheckProductionCondition(prod.condition, scope, ev, k)
      case Err(e) => Err(e)
      case Ok(c) =>
        if !c.value then RulePartsFrom(prod, prodindex, ms, n + 1, acc, ev, c.next)
        else
          match Substituted(prod.body, scope, ev, c.next)
          case Err(e) => Err(e)
          case Ok(t) => RulePartsFrom(prod, prodindex, ms, n + 1, acc + [Part(m.begin, m.end, t.value, prodindex)], ev, t.next)
  }

  /** The outer loop of the pass from production `prodindex` on: every production is
      matched against the same axiom. */
  function PassPartsFrom(prods: seq<Production>, axiom: string, prodindex: nat, acc: seq<Part>,
                         ev: Evaluator, k: nat): Result<Drawn<seq<Part>>, PLError>
    requires Symbols(prods) && prodindex <= |prods|
    decreases |prods| - prodindex, 0
  {
    if prodindex == |prods| then Ok(Drawn(acc, k))
    else
      var prod := prods[prodindex];
      var ms := Matches(prod.head.sym, |prod.head.params|, axiom);
      NextRule(prods, axiom, prodindex + 1, RulePartsFrom(prod, prodindex, ms, 0, acc, ev, k), ev)
  }

  /** Goes on with production `prodindex` after the previous one's result, unless it failed. */
  function NextRule(prods: seq<Production>, axiom: string, prodindex: nat, r: Result<Drawn<seq<Part>>, PLError>,
                    ev: Evaluator): Result<Drawn<seq<Part>>, PLError>
    requires Symbols(prods) && prodindex <= |prods|
    decreases |prods| - prodindex, 1
  {
    match r
    case Err(e) => Err(e)
    case Ok(d) => PassPartsFrom(prods, axiom, prodindex, d.value, ev, d.next)
  }

  /** The parts one pass collects, in collection order. */
  function PassParts(prods: seq<Production>, axiom: string, ev: Evaluator, k: nat): Result<Drawn<seq<Part>>, PLError>
    requires Symbols(prods)
  {
    PassPartsFrom(prods, axiom, 0, [], ev, k)
  }

  /** The collecting loops of PLSystem.produce for one pass. */
  method CollectParts(prods: seq<Production>, axiom: string, ev: Evaluator, k: nat)
    returns (r: Result<Drawn<seq<Part>>, PLError>)
    requires Symbols(prods)
    ensures r == PassParts(prods, axiom, ev, k)
  {
    var newParts := [];
    var draws := k;
    for prodindex := 0 to |prods|
      invariant PassPartsFrom(prods, axiom, prodindex, newParts, ev, draws) == PassParts(prods, axiom, ev, k)
    {
      var prod := prods[prodindex];
      var ms := FindProduction(prod.head.sym, |prod.head.params|, axiom);
      for n := 0 to |ms|
        invariant NextRule(prods, axiom, prodindex + 1, RulePartsFrom(prod, prodindex, ms, n, newParts, ev, draws), ev)
               == PassParts(prods, axiom, ev, k)
      {
        var m := ms[n];
        var scope := ZipObject(prod.head.params, m.paramvalues);
        var c := CheckProductionCondition(prod.condition, scope, ev, draws);
        if c.Err? {
          return Err(c.error);
        }
        draws := c.value.next;
        if c.value.value {
          var t := EvalProduction(prod.body, scope, ev, draws);
          if t.Err? {
            return Err(t.error);
          }
          newParts := newParts + [Part(m.begin, m.end, t.value.value, prodindex)];
          draws := t.value.next;
        }
      }
    }
    r := Ok(Drawn(newParts, draws));
  }
  /** Part `p` replaces the span of one of the matches `ms[lo..]`. */
  ghost predicate SpanOf(p: Part, ms: seq<Match>, lo: nat) {
    exists j :: lo <= j < |ms| && ms[j].begin == p.start && ms[j].end == p.end
  }

  /** Matches in strictly increasing order of position, as findProduction reports them. */
  predicate Increasing(ms: seq<Match>) {
    forall a, b :: 0 <= a < b < |ms| ==> ms[a].begin < ms[b].begin
  }

  /** What one production adds to the parts: parts of that production, each replacing the
      span of one of its matches from `lo` on, in increasing order of position. */
  ghost predicate RuleAdds(x: seq<Part>, prodindex: nat, ms: seq<Match>, lo: nat) {
    && (forall i :: 0 <= i < |x| ==> x[i].prodindex == prodindex && SpanOf(x[i], ms, lo))
    && (forall i, j :: 0 <= i < j < |x| ==> x[i].start < x[j].start)
  }

  /** Additions from the matches after `n` are also additions from the matches from `n` on. */
  lemma RuleAddsWiden(x: seq<Part>, prodindex: nat, ms: seq<Match>, n: nat)
    requires RuleAdds(x, prodindex, ms, n + 1)
    ensures RuleAdds(x, prodindex, ms, n)
  {
    forall i | 0 <= i < |x|
      ensures SpanOf(x[i], ms, n)
    {
      assert SpanOf(x[i], ms, n + 1);
      var j :| n + 1 <= j < |ms| && ms[j].begin == x[i].start && ms[j].end == x[i].end;
    }
  }

  /** A part for match `n` followed by additions from the later matches is an addition from
      the matches from `n` on. */
  lemma RuleAddsCons(p: Part, y: seq<Part>, prodindex: nat, ms: seq<Match>, n: nat)
    requires Increasing(ms) && n < |ms|
    requires p == Part(ms[n].begin, ms[n].end, p.text, prodindex)
    requires RuleAdds(y, prodindex, ms, n + 1)
    ensures RuleAdds([p] + y, prodindex, ms, n)
  {
    var x := [p] + y;
    forall i | 0 <= i < |x|
      ensures x[i].prodindex == prodindex && SpanOf(x[i], ms, n)
    {
      if i > 0 {
        assert x[i] == y[i - 1] && SpanOf(y[i - 1], ms, n + 1);
        var j :| n + 1 <= j < |ms| && ms[j].begin == x[i].start && ms[j].end == x[i].end;
      }
    }
    forall i, j | 0 <= i < j < |x|
      ensures x[i].start < x[j].start
    {
      assert x[j] == y[j - 1];
      if i > 0 {
        assert x[i] == y[i - 1];
      } else {
        assert SpanOf(y[j - 1], ms, n + 1);
        var h :| n + 1 <= h < |ms| && ms[h].begin == y[j - 1].start && ms[h].end == y[j - 1].end;
      }
    }
  }

  /** The inner loop only appends, and what it appends is RuleAdds. */
  lemma {:induction false} RulePartsFromSpec(prod: Production, prodindex: nat, ms: seq<Match>, n: nat, acc: seq<Part>,
                                             ev: Evaluator, k: nat)
    requires n <= |ms| && Increasing(ms)
    ensures RulePartsFrom(prod, prodindex, ms, n, acc, ev, k).Ok? ==>
              var all := RulePartsFrom(prod, prodindex, ms, n, acc, ev, k).value.value;
              |acc| <= |all| && all[..|acc|] == acc && RuleAdds(all[|acc|..], prodindex, ms, n)
    decreases |ms| - n
  {
    var r := RulePartsFrom(prod, prodindex, ms, n, acc, ev, k);
    if n < |ms| && r.Ok? {
      var m := ms[n];
      var scope := ZipObject(prod.head.params, m.paramvalues);
      var c := CheckProductionCondition(prod.condition, scope, ev, k).value;
      if !c.value {
        RulePartsFromSpec(prod, prodindex, ms, n + 1, acc, ev, c.next);
        RuleAddsWiden(r.value.value[|acc|..], prodindex, ms, n);
      } else {
        var t := Substituted(prod.body, scope, ev, c.next).value;
        var p := Part(m.begin, m.end, t.value, prodindex);
        RulePartsFromSpec(prod, prodindex, ms, n + 1, acc + [p], ev, t.next);
        var all := r.value.value;
        ExtendsTwice(acc, acc + [p], all);
        assert (acc + [p])[|acc|..] == [p];
        RuleAddsCons(p, all[|acc| + 1..], prodindex, ms, n);
      }
    }
  }

  /** Parts of productions from `lo` on, each replacing the span of one of its production's
      matches in the axiom, ordered by production and then by position. */
  ghost predicate PassAdds(x: seq<Part>, prods: seq<Production>, axiom: string, lo: nat)
    requires Symbols(prods)
  {
    && (forall i :: 0 <= i < |x| ==>
          && lo <= x[i].prodindex < |prods|
          && var head := prods[x[i].prodindex].head;
             SpanOf(x[i], Matches(head.sym, |head.params|, axiom), 0))
    && (forall i, j :: 0 <= i < j < |x| ==>
          x[i].prodindex < x[j].prodindex || (x[i].prodindex == x[j].prodindex && x[i].start < x[j].start))
  }

  /** Joining one production's additions to the later productions' keeps PassAdds. */
  lemma JoinAdds(x1: seq<Part>, x2: seq<Part>, prods: seq<Production>, axiom: string, lo: nat)
    requires Symbols(prods) && lo < |prods|
    requires var head := prods[lo].head; RuleAdds(x1, lo, Matches(head.sym, |head.params|, axiom), 0)
    requires PassAdds(x2, prods, axiom, lo + 1)
    ensures PassAdds(x1 + x2, prods, axiom, lo)
  {
    var x := x1 + x2;
    forall i | 0 <= i < |x|
      ensures lo <= x[i].prodindex < |prods|
      ensures var head := prods[x[i].prodindex].head; SpanOf(x[i], Matches(head.sym, |head.params|, axiom), 0)
    {
      if i < |x1| {
        assert x[i] == x1[i];
      } else {
        assert x[i] == x2[i - |x1|];
      }
    }
    forall i, j | 0 <= i < j < |x|
      ensures x[i].prodindex < x[j].prodindex || (x[i].prodindex == x[j].prodindex && x[i].start < x[j].start)
    {
      if j < |x1| {
        assert x[i] == x1[i] && x[j] == x1[j];
      } else if i < |x1| {
        assert x[i] == x1[i] && x[j] == x2[j - |x1|];
      } else {
        assert x[i] == x2[i - |x1|] && x[j] == x2[j - |x1|];
      }
    }
  }

  /** The pass goes on after a production only when that production's loop succeeded. */
  lemma NextRuleOk(prods: seq<Production>, axiom: string, prodindex: nat, r: Result<Drawn<seq<Part>>, PLError>,
                   ev: Evaluator)
    requires Symbols(prods) && prodindex <= |prods|
    ensures NextRule(prods, axiom, prodindex, r, ev).Ok? ==>
              r.Ok? && NextRule(prods, axiom, prodindex, r, ev) == PassPartsFrom(prods, axiom, prodindex, r.value.value, ev, r.value.next)
  {
  }

  /** One production's additions followed by the later productions' additions extend the
      parts collected before that production. */
  lemma PassStep(acc: seq<Part>, mid: seq<Part>, all: seq<Part>, prods: seq<Production>, axiom: string, lo: nat)
    requires Symbols(prods) && lo < |prods|
    requires |acc| <= |mid| && mid[..|acc|] == acc
    requires var head := prods[lo].head; RuleAdds(mid[|acc|..], lo, Matches(head.sym, |head.params|, axiom), 0)
    requires |mid| <= |all| && all[..|mid|] == mid && PassAdds(all[|mid|..], prods, axiom, lo + 1)
    ensures |acc| <= |all| && all[..|acc|] == acc && PassAdds(all[|acc|..], prods, axiom, lo)
  {
    ExtendsTwice(acc, mid, all);
    JoinAdds(mid[|acc|..], all[|mid|..], prods, axiom, lo);
  }

  /** The outer loop only appends, and what it appends is PassAdds. */
  lemma {:induction false} PassPartsFromSpec(prods: seq<Production>, axiom: string, prodindex: nat, acc: seq<Part>,
                                             ev: Evaluator, k: nat)
    requires Symbols(prods) && prodindex <= |prods|
    ensures PassPartsFrom(prods, axiom, prodindex, acc, ev, k).Ok? ==>
              var all := PassPartsFrom(prods, axiom, prodindex, acc, ev, k).value.value;
              |acc| <= |all| && all[..|acc|] == acc && PassAdds(all[|acc|..], prods, axiom, prodindex)
    decreases |prods| - prodindex
  {
    var r := PassPartsFrom(prods, axiom, prodindex, acc, ev, k);
    if prodindex < |prods| && r.Ok? {
      var head := prods[prodindex].head;
      var ms := Matches(head.sym, |head.params|, axiom);
      assert Increasing(ms) by {
        MatchesSpec(head.sym, |head.params|, axiom);
      }
      var r1 := RulePartsFrom(prods[prodindex], prodindex, ms, 0, acc, ev, k);
      RulePartsFromSpec(prods[prodindex], prodindex, ms, 0, acc, ev, k);
      NextRuleOk(prods, axiom, prodindex + 1, r1, ev);
      var d := r1.value;
      PassPartsFromSpec(prods, axiom, prodindex + 1, d.value, ev, d.next);
      PassStep(acc, d.value, r.value.value, prods, axiom, prodindex);
    }
  }

  // ---------------------------------------------------------------------------------------
  // Splicing the parts into the axiom

  /** The first index from `k` on whose part does not start at `start` (the merge loop skips
      the other parts at a position it has just replaced). */
  function SkipStart(parts: seq<Part>, k: nat, start: nat): (r: nat)
    requires k <= |parts|
    ensures k <= r <= |parts|
    ensures forall n :: k <= n < r ==> parts[n].start == start
    ensures r < |parts| ==> parts[r].start != start
    decreases |parts| - k
  {
    if k < |parts| && parts[k].start == start then SkipStart(parts, k + 1, start) else k
  }

  /** The merge loop of PLSystem.produce from axiom position `i` with part index `k`: at the
      start of part `k` its text replaces its span and the later parts at the same position
      are skipped; elsewhere the axiom's character is copied. */
  function MergeFrom(axiom: string, parts: seq<Part>, i: nat, k: nat): string
    requires PartsWithin(parts, axiom) && i <= |axiom| && k <= |parts|
    decreases |axiom| - i
  {
    if i == |axiom| then ""
    else if k < |parts| && i == parts[k].start then
      parts[k].text + MergeFrom(axiom, parts, parts[k].end, SkipStart(parts, k + 1, parts[k].start))
    else [axiom[i]] + MergeFrom(axiom, parts, i + 1, k)
  }

  /** The axiom the merge loop builds. */
  function Merged(axiom: string, parts: seq<Part>): string
    requires PartsWithin(parts, axiom)
  {
    MergeFrom(axiom, parts, 0, 0)
  }

  /** The generating loop of PLSystem.produce over sorted parts. */
  method MergeParts(axiom: string, parts: seq<Part>) returns (newaxiom: string)
    requires PartsWithin(parts, axiom)
    ensures newaxiom == Merged(axiom, parts)
  {
    newaxiom := "";
    var newPartiter := 0;
    var i := 0;
    while i < |axiom|
      invariant i <= |axiom| && newPartiter <= |parts|
      invariant newaxiom + MergeFrom(axiom, parts, i, newPartiter) == Merged(axiom, parts)
      decreases |axiom| - i
    {
      if newPartiter < |parts| && i == parts[newPartiter].start {
        var newPart := parts[newPartiter];
        var next := SkipStart(parts, newPartiter + 1, newPart.start);
        AppendAssoc(newaxiom, newPart.text, MergeFrom(axiom, parts, newPart.end, next));
        newaxiom := newaxiom + newPart.text;
        i := newPart.end;
        newPartiter := newPartiter + 1;
        while newPartiter < |parts| && parts[newPartiter].start == newPart.start
          invariant newPartiter <= |parts|
          invariant SkipStart(parts, newPartiter, newPart.start) == next
          decreases |parts| - newPartiter
        {
          newPartiter := newPartiter + 1;
        }
      } else {
        AppendAssoc(newaxiom, [axiom[i]], MergeFrom(axiom, parts, i + 1, newPartiter));
        newaxiom := newaxiom + [axiom[i]];
        i := i + 1;
      }
    }
    assert newaxiom + "" == newaxiom;
  }

  /** The text with each of `used` (in order, non-overlapping, none before `i`) replacing its
      span, from position `i` on. */
  function Splice(axiom: string, used: seq<Part>, i: nat): string
    requires i <= |axiom| && PartsWithin(used, axiom)
    requires forall n :: 0 <= n < |used| ==> i <= used[n].start
    requires forall m, n :: 0 <= m < n < |used| ==> used[m].end <= used[n].start
    decreases |used|
  {
    if |used| == 0 then axiom[i..]
    else axiom[i..used[0].start] + used[0].text + Splice(axiom, used[1..], used[0].end)
  }

  /** The parts the merge loop applies from position `i` with part index `k`: part `k` when
      the cursor has not passed its start, then the next part at another position, and so
      on; the first part that starts before the cursor ends the applied parts, since the
      cursor never comes back to it. The applied parts start at or after `i` and do not
      overlap. */
  function Used(axiom: string, parts: seq<Part>, i: nat, k: nat): (used: seq<Part>)
    requires PartsWithin(parts, axiom) && k <= |parts|
    ensures PartsWithin(used, axiom)
    ensures forall n :: 0 <= n < |used| ==> i <= used[n].start
    ensures forall m, n :: 0 <= m < n < |used| ==> used[m].end <= used[n].start
    decreases |parts| - k
  {
    if k == |parts| || parts[k].start < i then []
    else [parts[k]] + Used(axiom, parts, parts[k].end, SkipStart(parts, k + 1, parts[k].start))
  }

  /** Before the first applied part, splicing copies the character at the cursor. */
  lemma SpliceCopy(axiom: string, used: seq<Part>, i: nat)
    requires i < |axiom| && PartsWithin(used, axiom)
    requires forall n :: 0 <= n < |used| ==> i + 1 <= used[n].start
    requires forall m, n :: 0 <= m < n < |used| ==> used[m].end <= used[n].start
    ensures Splice(axiom, used, i) == [axiom[i]] + Splice(axiom, used, i + 1)
  {
    if |used| == 0 {
      assert axiom[i..] == [axiom[i]] + axiom[i + 1..];
    } else {
      SpliceCopyBefore(axiom, used, i);
    }
  }

  /** SpliceCopy when a part is still to come. */
  lemma SpliceCopyBefore(axiom: string, used: seq<Part>, i: nat)
    requires i < |axiom| && PartsWithin(used, axiom) && |used| > 0
    requires forall n :: 0 <= n < |used| ==> i + 1 <= used[n].start
    requires forall m, n :: 0 <= m < n < |used| ==> used[m].end <= used[n].start
    ensures Splice(axiom, used, i) == [axiom[i]] + Splice(axiom, used, i + 1)
  {
    var s := used[0].start;
    var t := used[0].text + Splice(axiom, used[1..], used[0].end);
    assert Splice(axiom, used, i) == axiom[i..s] + t;
    assert Splice(axiom, used, i + 1) == axiom[i + 1..s] + t;
    assert axiom[i..s] == [axiom[i]] + axiom[i + 1..s];
  }

  /** At the start of part `k` the merge applies it, as splicing does. */
  lemma MergeApplied(axiom: string, parts: seq<Part>, i: nat, k: nat)
    requires PartsWithin(parts, axiom) && i < |axiom| && k < |parts| && i == parts[k].start
    requires var q := SkipStart(parts, k + 1, parts[k].start);
      MergeFrom(axiom, parts, parts[k].end, q) == Splice(axiom, Used(axiom, parts, parts[k].end, q), parts[k].end)
    ensures MergeFrom(axiom, parts, i, k) == Splice(axiom, Used(axiom, parts, i, k), i)
  {
    var q := SkipStart(parts, k + 1, parts[k].start);
    UsedStep(axiom, parts, i, k);
    var rest := Used(axiom, parts, parts[k].end, q);
    var used := [parts[k]] + rest;
    assert used[0] == parts[k] && used[1..] == rest;
    assert Splice(axiom, used, i) == axiom[i..i] + parts[k].text + Splice(axiom, rest, parts[k].end);
    assert axiom[i..i] + parts[k].text == parts[k].text;
  }

  /** Elsewhere the merge copies the axiom's character, as splicing does. */
  lemma MergeCopied(axiom: string, parts: seq<Part>, i: nat, k: nat)
    requires PartsWithin(parts, axiom) && i < |axiom| && k <= |parts|
    requires !(k < |parts| && i == parts[k].start)
    requires MergeFrom(axiom, parts, i + 1, k) == Splice(axiom, Used(axiom, parts, i + 1, k), i + 1)
    ensures MergeFrom(axiom, parts, i, k) == Splice(axiom, Used(axiom, parts, i, k), i)
  {
    var used := Used(axiom, parts, i + 1, k);
    assert Used(axiom, parts, i, k) == used;
    SpliceCopy(axiom, used, i);
  }

  /** The merge loop splices exactly the parts Used selects. */
  lemma {:induction false} MergeIsSplice(axiom: string, parts: seq<Part>, i: nat, k: nat)
    requires PartsWithin(parts, axiom) && i <= |axiom| && k <= |parts|
    ensures MergeFrom(axiom, parts, i, k) == Splice(axiom, Used(axiom, parts, i, k), i)
    decreases |axiom| - i
  {
    if i == |axiom| {
      assert Used(axiom, parts, i, k) == [];
    } else if k < |parts| && i == parts[k].start {
      MergeIsSplice(axiom, parts, parts[k].end, SkipStart(parts, k + 1, parts[k].start));
      MergeApplied(axiom, parts, i, k);
    } else {
      MergeIsSplice(axiom, parts, i + 1, k);
      MergeCopied(axiom, parts, i, k);
    }
  }

  /** Without parts the merge copies the axiom. */
  lemma MergedNoParts(axiom: string)
    ensures Merged(axiom, []) == axiom
  {
    MergeIsSplice(axiom, [], 0, 0);
    assert axiom[0..] == axiom;
  }

  /** Once the part at the cursor's index starts before the cursor, the merge never applies
      a part again: the rest of the axiom is copied. */
  lemma {:induction false} MergeStuck(axiom: string, parts: seq<Part>, i: nat, k: nat)
    requires PartsWithin(parts, axiom) && i <= |axiom| && k < |parts| && parts[k].start < i
    ensures MergeFrom(axiom, parts, i, k) == axiom[i..]
    decreases |axiom| - i
  {
    if i < |axiom| {
      MergeStuck(axiom, parts, i + 1, k);
      assert axiom[i..] == [axiom[i]] + axiom[i + 1..];
    }
  }

  /** A part the cursor has not passed is applied, and the merge goes on after its span. */
  lemma UsedStep(axiom: string, parts: seq<Part>, i: nat, k: nat)
    requires PartsWithin(parts, axiom) && k < |parts| && i <= parts[k].start
    ensures Used(axiom, parts, i, k)
         == [parts[k]] + Used(axiom, parts, parts[k].end, SkipStart(parts, k + 1, parts[k].start))
  {
  }

  /** When the part after part `k` starts at or after part `k`'s end, part `k` is applied and
      the merge goes on with the next part. */
  lemma UsedNext(axiom: string, parts: seq<Part>, i: nat, k: nat)
    requires PartsWithin(parts, axiom) && k < |parts| && i <= parts[k].start
    requires k + 1 < |parts| ==> parts[k].end <= parts[k + 1].start
    ensures Used(axiom, parts, i, k) == [parts[k]] + Used(axiom, parts, parts[k].end, k + 1)
  {
    assert SkipStart(parts, k + 1, parts[k].start) == k + 1;
    UsedStep(axiom, parts, i, k);
  }

  /** From part `k` on, each part starts at or after the cursor `i` or the previous part's end. */
  predicate Spaced(parts: seq<Part>, i: nat, k: nat)
    requires k <= |parts|
    decreases |parts| - k
  {
    k == |parts| || (i <= parts[k].start && Spaced(parts, parts[k].end, k + 1))
  }

  /** Parts in increasing order whose spans do not overlap are Spaced. */
  lemma {:induction false} SpacedFrom(parts: seq<Part>, i: nat, k: nat)
    requires k <= |parts|
    requires forall n :: k <= n < |parts| ==> i <= parts[n].start
    requires forall m, n :: k <= m < n < |parts| ==> parts[m].end <= parts[n].start
    ensures Spaced(parts, i, k)
    decreases |parts| - k
  {
    if k < |parts| {
      assert forall n :: k + 1 <= n < |parts| ==> parts[k].end <= parts[n].start;
      SpacedFrom(parts, parts[k].end, k + 1);
    }
  }

  /** Spaced parts are all applied. */
  lemma {:induction false} UsedSpaced(axiom: string, parts: seq<Part>, i: nat, k: nat)
    requires PartsWithin(parts, axiom) && k <= |parts| && Spaced(parts, i, k)
    ensures Used(axiom, parts, i, k) == parts[k..]
    decreases |parts| - k
  {
    if k < |parts| {
      UsedNext(axiom, parts, i, k);
      UsedSpaced(axiom, parts, parts[k].end, k + 1);
      assert parts[k..] == [parts[k]] + parts[k + 1..];
    }
  }

  /** Parts in increasing order whose spans do not overlap are all applied. */
  lemma UsedAll(axiom: string, parts: seq<Part>, i: nat, k: nat)
    requires PartsWithin(parts, axiom) && k <= |parts|
    requires forall n :: k <= n < |parts| ==> i <= parts[n].start
    requires forall m, n :: k <= m < n < |parts| ==> parts[m].end <= parts[n].start
    ensures Used(axiom, parts, i, k) == parts[k..]
  {
    SpacedFrom(parts, i, k);
    UsedSpaced(axiom, parts, i, k);
  }

  /** Part `k` is the first part at its position (or there is no part `k`). */
  predicate FirstAtStart(parts: seq<Part>, k: nat) {
    k == 0 || k >= |parts| || parts[k - 1].start != parts[k].start
  }

  /** In sorted parts, the first part at a position has the lowest production index there. */
  lemma LowestAtStart(parts: seq<Part>, k: nat)
    requires Sorted(parts, PartKey) && k < |parts| && FirstAtStart(parts, k)
    ensures forall j :: 0 <= j < |parts| && parts[j].start == parts[k].start
                        ==> parts[k].prodindex <= parts[j].prodindex
  {
    forall j | 0 <= j < |parts| && parts[j].start == parts[k].start
      ensures parts[k].prodindex <= parts[j].prodindex
    {
      if j > k {
        assert KeyLe(PartKey(parts[k]), PartKey(parts[j]));
      }
    }
  }

  /** With the parts sorted by position and production, every applied part has the lowest
      production index among the parts at its position. */
  lemma {:induction false} UsedLowestRule(axiom: string, parts: seq<Part>, i: nat, k: nat)
    requires PartsWithin(parts, axiom) && k <= |parts|
    requires Sorted(parts, PartKey) && FirstAtStart(parts, k)
    ensures var used := Used(axiom, parts, i, k);
      forall n, j :: 0 <= n < |used| && 0 <= j < |parts| && parts[j].start == used[n].start
                     ==> used[n].prodindex <= parts[j].prodindex
    decreases |parts| - k
  {
    if k < |parts| && i <= parts[k].start {
      var q := SkipStart(parts, k + 1, parts[k].start);
      assert FirstAtStart(parts, q) by {
        if 0 < q < |parts| {
          assert parts[q - 1].start == parts[k].start;
        }
      }
      UsedLowestRule(axiom, parts, parts[k].end, q);
      LowestAtStart(parts, k);
      UsedStep(axiom, parts, i, k);
      var used := Used(axiom, parts, i, k);
      var rest := Used(axiom, parts, parts[k].end, q);
      forall n, j | 0 <= n < |used| && 0 <= j < |parts| && parts[j].start == used[n].start
        ensures used[n].prodindex <= parts[j].prodindex
      {
        if n > 0 {
          assert used[n] == rest[n - 1];
        }
      }
    }
  }

  /** A part inside an already replaced span blocks the rest of the pass: with the rules
      `AB->x` and `BC->y` on `ABCBC`, the `BC` at 1 overlaps the replaced `AB`, so the `BC`
      at 3 is not replaced either. */
  lemma BlockedPass()
    ensures Merged("ABCBC", [Part(0, 2, "x", 0), Part(1, 3, "y", 1), Part(3, 5, "y", 1)]) == "xCBC"
  {
    var parts := [Part(0, 2, "x", 0), Part(1, 3, "y", 1), Part(3, 5, "y", 1)];
    assert SkipStart(parts, 1, 0) == 1;
    MergeStuck("ABCBC", parts, 2, 1);
    assert "ABCBC"[2..] == "CBC";
  }

  // ---------------------------------------------------------------------------------------
  // The pass and the iterations

  /** Reordering parts keeps them within the axiom. */
  lemma WithinPermutation(a: seq<Part>, b: seq<Part>, axiom: string)
    requires multiset(a) == multiset(b) && PartsWithin(a, axiom)
    ensures PartsWithin(b, axiom)
  {
    forall n | 0 <= n < |b| ensures b[n].start < b[n].end <= |axiom| {
      assert b[n] in multiset(a);
      var j :| 0 <= j < |a| && a[j] == b[n];
    }
  }

  /** A pass that succeeds collects parts that each replace the span of a match, in the
      axiom the pass started from, of its own production, and no two of them have both the
      same position and the same production: so the order the sort gives them is the only
      one by position and production. */
  lemma PassPartsSpec(prods: seq<Production>, axiom: string, ev: Evaluator, k: nat)
    requires Symbols(prods)
    ensures var r := PassParts(prods, axiom, ev, k);
      r.Ok? ==> && PassAdds(r.value.value, prods, axiom, 0)
                && PartsWithin(r.value.value, axiom)
                && DistinctKeys(r.value.value, PartKey)
  {
    var r := PassParts(prods, axiom, ev, k);
    PassPartsFromSpec(prods, axiom, 0, [], ev, k);
    if r.Ok? {
      var parts := r.value.value;
      assert parts[0..] == parts;
      forall n | 0 <= n < |parts| ensures parts[n].start < parts[n].end <= |axiom| {
        var head := prods[parts[n].prodindex].head;
        var ms := Matches(head.sym, |head.params|, axiom);
        MatchesSpec(head.sym, |head.params|, axiom);
        var j :| 0 <= j < |ms| && ms[j].begin == parts[n].start && ms[j].end == parts[n].end;
        assert MatchAt(head.sym, |head.params|, axiom, ms[j].begin) == Some(ms[j]);
      }
    }
  }

  /** Every sort of a successful pass's parts by position and production, stable or not,
      gives the order SortBy gives. */
  lemma PassOrderUnique(prods: seq<Production>, axiom: string, ev: Evaluator, k: nat, sorted: seq<Part>)
    requires Symbols(prods) && PassParts(prods, axiom, ev, k).Ok?
    requires multiset(sorted) == multiset(PassParts(prods, axiom, ev, k).value.value)
    requires Sorted(sorted, PartKey)
    ensures sorted == SortBy(PassParts(prods, axiom, ev, k).value.value, PartKey)
  {
    var parts := PassParts(prods, axiom, ev, k).value.value;
    PassPartsSpec(prods, axiom, ev, k);
    SortBySpec(parts, PartKey);
    var s := SortBy(parts, PartKey);
    DistinctKeysPermutation(parts, s, PartKey);
    SortedUnique(s, sorted, PartKey);
  }

  /** The parts of a successful pass, sorted, still replace spans of the axiom. */
  lemma SortedWithin(prods: seq<Production>, axiom: string, ev: Evaluator, k: nat)
    requires Symbols(prods) && PassParts(prods, axiom, ev, k).Ok?
    ensures PartsWithin(SortBy(PassParts(prods, axiom, ev, k).value.value, PartKey), axiom)
  {
    var parts := PassParts(prods, axiom, ev, k).value.value;
    PassPartsSpec(prods, axiom, ev, k);
    SortBySpec(parts, PartKey);
    WithinPermutation(parts, SortBy(parts, PartKey), axiom);
  }

  /** One pass of PLSystem.produce: the parts collected from the axiom, sorted by position and
      production, spliced into it. An evaluation error ends the pass. */
  function RewritePass(prods: seq<Production>, axiom: string, ev: Evaluator, k: nat)
    : (r: Result<Drawn<string>, PLError>)
    requires Symbols(prods)
    ensures r.Err? <==> PassParts(prods, axiom, ev, k).Err?
  {
    match PassParts(prods, axiom, ev, k)
    case Err(e) => Err(e)
    case Ok(d) =>
      SortedWithin(prods, axiom, ev, k);
      Ok(Drawn(Merged(axiom, SortBy(d.value, PartKey)), d.next))
  }

  /** `n` passes, each on the previous pass's result. */
  function Iterate(prods: seq<Production>, axiom: string, n: nat, ev: Evaluator, k: nat)
    : Result<Drawn<string>, PLError>
    requires Symbols(prods)
    decreases n
  {
    if n == 0 then Ok(Drawn(axiom, k))
    else
      match RewritePass(prods, axiom, ev, k)
      case Err(e) => Err(e)
      case Ok(d) => Iterate(prods, d.value, n - 1, ev, d.next)
  }

  /** A pass in which no condition holds, or no production matches, leaves the axiom as it
      was. */
  lemma NoPartsNoChange(prods: seq<Production>, axiom: string, ev: Evaluator, k: nat)
    requires Symbols(prods)
    requires PassParts(prods, axiom, ev, k).Ok? && PassParts(prods, axiom, ev, k).value.value == []
    ensures RewritePass(prods, axiom, ev, k) == Ok(Drawn(axiom, PassParts(prods, axiom, ev, k).value.next))
  {
    assert SortBy([], PartKey) == [];
    MergedNoParts(axiom);
  }

  /** Without productions every pass leaves the axiom as it was, however many passes run. */
  lemma {:induction false} IterateNoRules(axiom: string, n: nat, ev: Evaluator, k: nat)
    ensures Iterate([], axiom, n, ev, k) == Ok(Drawn(axiom, k))
    decreases n
  {
    if n > 0 {
      assert PassParts([], axiom, ev, k) == Ok(Drawn([], k));
      NoPartsNoChange([], axiom, ev, k);
      IterateNoRules(axiom, n - 1, ev, k);
    }
  }

  /** `n + m` passes are `n` passes followed by `m` more on their result. */
  lemma {:induction false} IterateSplit(prods: seq<Production>, axiom: string, n: nat, m: nat, ev: Evaluator, k: nat)
    requires Symbols(prods)
    ensures Iterate(prods, axiom, n + m, ev, k)
         == match Iterate(prods, axiom, n, ev, k)
            case Err(e) => Err(e)
            case Ok(d) => Iterate(prods, d.value, m, ev, d.next)
    decreases n
  {
    if n > 0 {
      match RewritePass(prods, axiom, ev, k)
      case Err(e) =>
      case Ok(d) =>
        IterateSplit(prods, d.value, n - 1, m, ev, d.next);
    }
  }
}
