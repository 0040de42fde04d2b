/** PLSystem.findProduction: the occurrences of a symbol with a given number of parameters. */
module Scanner {
  import opened Common
  import opened JsStrings
  import opened Grammar

  /** One occurrence: where it begins, where it ends (exclusive) and the raw parameter texts. */
  datatype Match = Match(begin: nat, end: nat, paramvalues: seq<string>)

  /** The match findProduction reports for the occurrence of `sym` at `index`, if any. With no
      parameters the occurrence itself matches, whatever follows. With parameters, `(` must
      follow the symbol, a `)` must come later, and the non-empty comma fields between the `(`
      and the first such `)` must number exactly `paramlength`; the match then ends after
      that `)`. */
  function MatchAt(sym: string, paramlength: nat, axiom: string, index: nat): (m: Option<Match>)
    requires |sym| > 0 && OccursAt(axiom, sym, index)
    ensures m.Some? ==> m.value.begin == index && index < m.value.end <= |axiom| && |m.value.paramvalues| == paramlength
    ensures paramlength == 0 ==> m == Some(Match(index, index + |sym|, []))
  {
    var endIndex := index + |sym|;
    if paramlength == 0 then Some(Match(index, endIndex, []))
    else if endIndex >= |axiom| || axiom[endIndex] != '(' then None
    else
      var close := IndexOf(axiom, ")", endIndex + 1);
      if close == -1 then None
      else
        var paramvalues := FilterEmpty(Split(axiom[endIndex + 1..close], ','));
        if |paramvalues| != paramlength then None
        else Some(Match(index, close + 1, paramvalues))
  }

  /** A match with parameters: `(` follows the symbol, the match ends just after the first
      `)` after it, and its parameter texts are the non-empty comma fields in between. */
  lemma MatchAtShape(sym: string, paramlength: nat, axiom: string, index: nat)
    requires |sym| > 0 && OccursAt(axiom, sym, index) && paramlength > 0
    requires MatchAt(sym, paramlength, axiom, index).Some?
    ensures var m := MatchAt(sym, paramlength, axiom, index).value;
      var open := index + |sym|;
      && open < m.end - 1 && axiom[open] == '(' && axiom[m.end - 1] == ')'
      && (forall j :: open < j < m.end - 1 ==> axiom[j] != ')')
      && m.paramvalues == FilterEmpty(Split(axiom[open + 1..m.end - 1], ','))
  {
    IndexOfChar(axiom, ')', index + |sym| + 1);
  }

  /** An occurrence followed by `(`, a later `)` with none in between, and exactly
      `paramlength` non-empty comma fields between them, is a match ending after that `)`. */
  lemma MatchAtParams(sym: string, paramlength: nat, axiom: string, index: nat, close: nat)
    requires |sym| > 0 && OccursAt(axiom, sym, index) && paramlength > 0
    requires index + |sym| < close < |axiom| && axiom[index + |sym|] == '(' && axiom[close] == ')'
    requires forall j :: index + |sym| < j < close ==> axiom[j] != ')'
    requires |FilterEmpty(Split(axiom[index + |sym| + 1..close], ','))| == paramlength
    ensures MatchAt(sym, paramlength, axiom, index)
         == Some(Match(index, close + 1, FilterEmpty(Split(axiom[index + |sym| + 1..close], ','))))
  {
    IndexOfChar(axiom, ')', index + |sym| + 1);
  }

  /** The matches the search loop reports from search position `start` on. */
  function Scan(sym: string, paramlength: nat, axiom: string, start: nat): seq<Match>
    requires |sym| > 0
    decreases |axiom| + 1 - start
  {
    var index := IndexOf(axiom, sym, start);
    if index == -1 then []
    else
      (match MatchAt(sym, paramlength, axiom, index)
       case None => []
       case Some(m) => [m])
      + Scan(sym, paramlength, axiom, index + 1)
  }

  /** All matches of `sym` with `paramlength` parameters in `axiom`. */
  function Matches(sym: string, paramlength: nat, axiom: string): seq<Match>
    requires |sym| > 0
  {
    Scan(sym, paramlength, axiom, 0)
  }

  /** The body of findProduction's search loop for the occurrence at `index`: with parameters,
      checks the `(`, finds the closing `)` and counts the non-empty comma fields. */
  method MatchOccurrence(sym: string, paramlength: nat, axiom: string, index: nat) returns (m: Option<Match>)
    requires |sym| > 0 && OccursAt(axiom, sym, index)
    ensures m == MatchAt(sym, paramlength, axiom, index)
  {
    var paramvalues := [];
    var endIndex := index + |sym|;
    if paramlength > 0 {
      if endIndex >= |axiom| || axiom[endIndex] != '(' {
        return None;
      }
      var indexBracket := IndexOf(axiom, ")", endIndex + 1);
      if indexBracket == -1 {
        return None;
      }
      paramvalues := Split(axiom[endIndex + 1..indexBracket], ',');
      endIndex := indexBracket + 1;
      paramvalues := FilterEmpty(paramvalues);
      if |paramvalues| != paramlength {
        return None;
      }
    }
    m := Some(Match(index, endIndex, paramvalues));
  }

  /** PLSystem.findProduction: searches for `sym` from `start`, resuming one past each
      occurrence found (so occurrences may overlap), and keeps the occurrences that match.
      The symbol is never empty: the engine rejects empty rule heads and the command table has
      none (with an empty symbol the original loop would not stop). */
  method FindProduction(sym: string, paramlength: nat, axiom: string) returns (matches: seq<Match>)
    requires |sym| > 0
    ensures matches == Matches(sym, paramlength, axiom)
  {
    var start := 0;
    matches := [];
    ScanFromSpec(sym, paramlength, axiom, 0, []);
    assert [] + Scan(sym, paramlength, axiom, 0) == Matches(sym, paramlength, axiom);
    while true
      invariant 0 <= start <= |axiom|
      invariant ScanFrom(sym, paramlength, axiom, start, matches) == Matches(sym, paramlength, axiom)
      decreases |axiom| + 1 - start
    {
      var index := IndexOf(axiom, sym, start);
      if index == -1 {
        break;
      }
      var found := MatchOccurrence(sym, paramlength, axiom, index);
      if found.Some? {
        matches := matches + [found.value];
      }
      start := index + 1;
    }
  }

  /** The search loop as a function: `acc` holds the matches found before `start`. */
  function ScanFrom(sym: string, paramlength: nat, axiom: string, start: nat, acc: seq<Match>): seq<Match>
    requires |sym| > 0
    decreases |axiom| + 1 - start
  {
    var index := IndexOf(axiom, sym, start);
    if index == -1 then acc
    else
      var found := MatchAt(sym, paramlength, axiom, index);
      ScanFrom(sym, paramlength, axiom, index + 1, if found.Some? then acc + [found.value] else acc)
  }

  /** The loop's accumulation appends the scan from `start` to what it already holds. */
  lemma {:induction false} ScanFromSpec(sym: string, paramlength: nat, axiom: string, start: nat, acc: seq<Match>)
    requires |sym| > 0
    ensures ScanFrom(sym, paramlength, axiom, start, acc) == acc + Scan(sym, paramlength, axiom, start)
    decreases |axiom| + 1 - start
  {
    var index := IndexOf(axiom, sym, start);
    if index == -1 {
      assert acc + [] == acc;
    } else {
      var found := MatchAt(sym, paramlength, axiom, index);
      var x := if found.Some? then [found.value] else [];
      assert acc + x == if found.Some? then acc + [found.value] else acc;
      ScanStep(sym, paramlength, axiom, start);
      ScanFromSpec(sym, paramlength, axiom, index + 1, acc + x);
      AppendAssoc(acc, x, Scan(sym, paramlength, axiom, index + 1));
    }
  }

  /** One step of the scan: the match at the next occurrence, if any, then the rest. */
  lemma ScanStep(sym: string, paramlength: nat, axiom: string, start: nat)
    requires |sym| > 0 && IndexOf(axiom, sym, start) != -1
    ensures var index := IndexOf(axiom, sym, start);
      var found := MatchAt(sym, paramlength, axiom, index);
      Scan(sym, paramlength, axiom, start)
        == (if found.Some? then [found.value] else []) + Scan(sym, paramlength, axiom, index + 1)
  {
  }

  /** A scan from `start` reports matches at occurrences from `start` on, each as MatchAt
      makes it, in strictly increasing order of their begin. */
  lemma {:induction false} ScanSound(sym: string, paramlength: nat, axiom: string, start: nat)
    requires |sym| > 0
    ensures var ms := Scan(sym, paramlength, axiom, start);
      && (forall i, j :: 0 <= i < j < |ms| ==> ms[i].begin < ms[j].begin)
      && (forall i :: 0 <= i < |ms| ==> start <= ms[i].begin && OccursAt(axiom, sym, ms[i].begin)
                                        && MatchAt(sym, paramlength, axiom, ms[i].begin) == Some(ms[i]))
    decreases |axiom| + 1 - start
  {
    var index := IndexOf(axiom, sym, start);
    if index != -1 {
      ScanSound(sym, paramlength, axiom, index + 1);
      assert var r := Scan(sym, paramlength, axiom, index + 1); forall n :: 0 <= n < |r| ==> index + 1 <= r[n].begin;
      var found := MatchAt(sym, paramlength, axiom, index);
      if found.Some? {
        var rest := Scan(sym, paramlength, axiom, index + 1);
        var ms := Scan(sym, paramlength, axiom, start);
        assert ms == [found.value] + rest;
        assert ms[0] == found.value && found.value.begin == index;
        forall i, j | 0 <= i < j < |ms|
          ensures ms[i].begin < ms[j].begin
        {
          assert ms[j] == rest[j - 1];
          if i > 0 {
            assert ms[i] == rest[i - 1];
          }
        }
        forall i | 0 <= i < |ms|
          ensures start <= ms[i].begin && OccursAt(axiom, sym, ms[i].begin)
                  && MatchAt(sym, paramlength, axiom, ms[i].begin) == Some(ms[i])
        {
          if i > 0 {
            assert ms[i] == rest[i - 1];
          }
        }
      }
    }
  }

  /** A scan from `start` reports every occurrence from `start` on that matches. */
  lemma {:induction false} ScanComplete(sym: string, paramlength: nat, axiom: string, start: nat, index: nat)
    requires |sym| > 0 && start <= index && OccursAt(axiom, sym, index)
    requires MatchAt(sym, paramlength, axiom, index).Some?
    ensures MatchAt(sym, paramlength, axiom, index).value in Scan(sym, paramlength, axiom, start)
    decreases |axiom| + 1 - start
  {
    var first := IndexOf(axiom, sym, start);
    IndexOfFirst(axiom, sym, start);
    assert first != -1 && first <= index;
    ScanStep(sym, paramlength, axiom, start);
    if first < index {
      ScanComplete(sym, paramlength, axiom, first + 1, index);
    }
  }

  /** Matches come out with strictly increasing begins, each at an occurrence of the symbol
      and exactly as MatchAt makes it; and every occurrence that matches is reported. */
  lemma MatchesSpec(sym: string, paramlength: nat, axiom: string)
    requires |sym| > 0
    ensures var ms := Matches(sym, paramlength, axiom);
      && (forall i, j :: 0 <= i < j < |ms| ==> ms[i].begin < ms[j].begin)
      && (forall i :: 0 <= i < |ms| ==> OccursAt(axiom, sym, ms[i].begin)
                                        && MatchAt(sym, paramlength, axiom, ms[i].begin) == Some(ms[i]))
      && (forall index :: OccursAt(axiom, sym, index) && MatchAt(sym, paramlength, axiom, index).Some?
                          ==> MatchAt(sym, paramlength, axiom, index).value in ms)
  {
    assert Matches(sym, paramlength, axiom) == Scan(sym, paramlength, axiom, 0);
    ScanSound(sym, paramlength, axiom, 0);
    forall index | OccursAt(axiom, sym, index) && MatchAt(sym, paramlength, axiom, index).Some?
      ensures MatchAt(sym, paramlength, axiom, index).value in Matches(sym, paramlength, axiom)
    {
      ScanComplete(sym, paramlength, axiom, 0, index);
    }
  }

  /** Occurrences may overlap: in `AAA` the symbol `AA` matches at 0 and again at 1. */
  lemma OverlappingMatches()
    ensures Matches("AA", 0, "AAA") == [Match(0, 2, []), Match(1, 3, [])]
  {
    assert OccursAt("AAA", "AA", 0) by { assert "AAA"[0..2] == "AA"; }
    assert OccursAt("AAA", "AA", 1) by { assert "AAA"[1..3] == "AA"; }
    assert !OccursAt("AAA", "AA", 2);
    assert IndexOf("AAA", "AA", 0) == 0;
    assert IndexOf("AAA", "AA", 1) == 1;
    assert IndexOf("AAA", "AA", 2) == -1;
  }
}
