/** PLSystem.produce as a whole: the rule lines are compiled, the axiom is rewritten for the
    given number of passes, and the final axiom is scanned for the commands of the table;
    the commands are sorted by position and one command runs at each position. */
module Engine {
  import opened Common
  import opened JsStrings
  import opened Grammar
  import opened Expressions
  import opened Scanner
  import opened Sorting
  import opened Rewrite

  /** An entry of the command table handed to PLSystem: a symbol, its number of parameters
      and the action to run. */
  datatype Command<F> = Command(sym: string, paramlength: nat, func: F)

  /** Every command symbol is non-empty (with an empty symbol the search loop never ends). */
  predicate CommandSymbols<F>(funcs: seq<Command<F>>) {
    forall n :: 0 <= n < |funcs| ==> |funcs[n].sym| > 0
  }

  /** A command occurrence in the final axiom: its position, the place in the table of the
      entry it belongs to, that entry's action and the raw parameter texts. (The original's
      records do not store the table place; it is the order in which they are pushed.) */
  datatype Entry<F> = Entry(start: nat, index: nat, func: F, paramvalues: seq<string>)

  /** An action run: the occurrence and the evaluated parameters the action received. */
  datatype Call<F> = Call(entry: Entry<F>, args: seq<Value>)

  /** What produce did: the actions it ran, in order, and the exception that ended it. */
  datatype Outcome<F> = Outcome(calls: seq<Call<F>>, error: Option<PLError>)

  /** The iteration count as it reaches produce: a number, or NaN. */
  datatype Count = Number(n: int) | NaN

  // ---------------------------------------------------------------------------------------
  // Scanning the final axiom for commands

  /** The occurrences `ms` of table entry `index` as command occurrences. */
  function Tagged<F>(c: Command<F>, index: nat, ms: seq<Match>): (es: seq<Entry<F>>)
    ensures |es| == |ms|
    ensures forall j :: 0 <= j < |ms| ==> es[j] == Entry(ms[j].begin, index, c.func, ms[j].paramvalues)
    decreases |ms|
  {
    if |ms| == 0 then []
    else
      var last := ms[|ms| - 1];
      Tagged(c, index, ms[..|ms| - 1]) + [Entry(last.begin, index, c.func, last.paramvalues)]
  }

  /** The scanning loops from table entry `fi` on, with the occurrences so far in `acc`. */
  function EntriesFrom<F>(funcs: seq<Command<F>>, axiom: string, fi: nat, acc: seq<Entry<F>>): seq<Entry<F>>
    requires CommandSymbols(funcs) && fi <= |funcs|
    decreases |funcs| - fi
  {
    if fi == |funcs| then acc
    else
      var c := funcs[fi];
      EntriesFrom(funcs, axiom, fi + 1, acc + Tagged(c, fi, Matches(c.sym, c.paramlength, axiom)))
  }

  /** All command occurrences in `axiom`, table entry by table entry. */
  function Entries<F>(funcs: seq<Command<F>>, axiom: string): seq<Entry<F>>
    requires CommandSymbols(funcs)
  {
    EntriesFrom(funcs, axiom, 0, [])
  }

  /** `e` is an occurrence, in `axiom`, of table entry `e.index` (at least `lo`). */
  ghost predicate EntryOf<F>(e: Entry<F>, funcs: seq<Command<F>>, axiom: string, lo: nat)
    requires CommandSymbols(funcs)
  {
    && lo <= e.index < |funcs| && e.func == funcs[e.index].func
    && var c := funcs[e.index];
       var ms := Matches(c.sym, c.paramlength, axiom);
       exists j :: 0 <= j < |ms| && ms[j].begin == e.start && ms[j].paramvalues == e.paramvalues
  }

  /** Occurrences ordered by table place, then by position. */
  predicate TableOrder<F>(es: seq<Entry<F>>) {
    forall i, j :: 0 <= i < j < |es| ==>
      es[i].index < es[j].index || (es[i].index == es[j].index && es[i].start < es[j].start)
  }

  /** What the scan appends from table entry `lo` on: occurrences of those entries, in table
      order, holding every match of every one of them. */
  ghost predicate ScanAdds<F>(x: seq<Entry<F>>, funcs: seq<Command<F>>, axiom: string, lo: nat)
    requires CommandSymbols(funcs)
  {
    && (forall i :: 0 <= i < |x| ==> EntryOf(x[i], funcs, axiom, lo))
    && TableOrder(x)
    && (forall fi, j :: lo <= fi < |funcs| && 0 <= j < |Matches(funcs[fi].sym, funcs[fi].paramlength, axiom)| ==>
          var m := Matches(funcs[fi].sym, funcs[fi].paramlength, axiom)[j];
          Entry(m.begin, fi, funcs[fi].func, m.paramvalues) in x)
  }

  /** One table entry's occurrences are occurrences of it, in increasing position. */
  lemma TaggedSpec<F>(funcs: seq<Command<F>>, axiom: string, fi: nat, x1: seq<Entry<F>>)
    requires CommandSymbols(funcs) && fi < |funcs|
    requires x1 == Tagged(funcs[fi], fi, Matches(funcs[fi].sym, funcs[fi].paramlength, axiom))
    ensures forall i :: 0 <= i < |x1| ==> x1[i].index == fi && EntryOf(x1[i], funcs, axiom, fi)
    ensures forall i, j :: 0 <= i < j < |x1| ==> x1[i].start < x1[j].start
  {
    var c := funcs[fi];
    var ms := Matches(c.sym, c.paramlength, axiom);
    MatchesSpec(c.sym, c.paramlength, axiom);
    forall i | 0 <= i < |x1| ensures EntryOf(x1[i], funcs, axiom, fi) {
      assert ms[i].begin == x1[i].start && ms[i].paramvalues == x1[i].paramvalues;
    }
  }

  /** One table entry's occurrences followed by the later entries' keep ScanAdds. */
  lemma JoinScan<F>(funcs: seq<Command<F>>, axiom: string, fi: nat, x2: seq<Entry<F>>)
    requires CommandSymbols(funcs) && fi < |funcs|
    requires ScanAdds(x2, funcs, axiom, fi + 1)
    ensures var c := funcs[fi];
      ScanAdds(Tagged(c, fi, Matches(c.sym, c.paramlength, axiom)) + x2, funcs, axiom, fi)
  {
    var c := funcs[fi];
    var ms := Matches(c.sym, c.paramlength, axiom);
    var x1 := Tagged(c, fi, ms);
    TaggedSpec(funcs, axiom, fi, x1);
    assert forall i :: 0 <= i < |x2| ==> fi < x2[i].index by {
      forall i | 0 <= i < |x2| ensures fi < x2[i].index {
        assert EntryOf(x2[i], funcs, axiom, fi + 1);
      }
    }
    var x := x1 + x2;
    forall i | 0 <= i < |x| ensures EntryOf(x[i], funcs, axiom, fi) {
      if i < |x1| {
        assert x[i] == x1[i];
      } else {
        assert x[i] == x2[i - |x1|];
      }
    }
    JoinOrder(x1, x2, fi);
    forall g, j | fi <= g < |funcs| && 0 <= j < |Matches(funcs[g].sym, funcs[g].paramlength, axiom)|
      ensures var m := Matches(funcs[g].sym, funcs[g].paramlength, axiom)[j];
        Entry(m.begin, g, funcs[g].func, m.paramvalues) in x
    {
      if g == fi {
        assert x[j] == x1[j];
      } else {
        var m := Matches(funcs[g].sym, funcs[g].paramlength, axiom)[j];
        assert Entry(m.begin, g, funcs[g].func, m.paramvalues) in x2;
      }
    }
  }

  /** Occurrences of entry `fi` in increasing position, followed by table-ordered occurrences
      of later entries, are in table order. */
  lemma JoinOrder<F>(x1: seq<Entry<F>>, x2: seq<Entry<F>>, fi: nat)
    requires forall i :: 0 <= i < |x1| ==> x1[i].index == fi
    requires forall i, j :: 0 <= i < j < |x1| ==> x1[i].start < x1[j].start
    requires forall i :: 0 <= i < |x2| ==> fi < x2[i].index
    requires TableOrder(x2)
    ensures TableOrder(x1 + x2)
  {
    var x := x1 + x2;
    forall i, j | 0 <= i < j < |x|
      ensures x[i].index < x[j].index || (x[i].index == x[j].index && x[i].start < x[j].start)
    {
      if j < |x1| {
        assert x[i] == x1[i] && x[j] == x1[j];
      } else if i < |x1| {
        assert x[i] == x1[i] && x[j] == x2[j - |x1|];
      } else {
        assert x[i] == x2[i - |x1|] && x[j] == x2[j - |x1|];
      }
    }
  }

  /** One table entry's occurrences followed by the later entries' extend the occurrences
      found before that entry. */
  lemma ScanStep<F>(acc: seq<Entry<F>>, x1: seq<Entry<F>>, all: seq<Entry<F>>, funcs: seq<Command<F>>,
                    axiom: string, fi: nat)
    requires CommandSymbols(funcs) && fi < |funcs|
    requires x1 == Tagged(funcs[fi], fi, Matches(funcs[fi].sym, funcs[fi].paramlength, axiom))
    requires |acc + x1| <= |all| && all[..|acc + x1|] == acc + x1
    requires ScanAdds(all[|acc + x1|..], funcs, axiom, fi + 1)
    ensures |acc| <= |all| && all[..|acc|] == acc && ScanAdds(all[|acc|..], funcs, axiom, fi)
  {
    ExtendsTwice(acc, acc + x1, all);
    assert (acc + x1)[|acc|..] == x1;
    JoinScan(funcs, axiom, fi, all[|acc + x1|..]);
  }

  /** The scanning loops only append, and what they append is ScanAdds. */
  lemma {:induction false} EntriesFromSpec<F>(funcs: seq<Command<F>>, axiom: string, fi: nat, acc: seq<Entry<F>>)
    requires CommandSymbols(funcs) && fi <= |funcs|
    ensures var r := EntriesFrom(funcs, axiom, fi, acc);
      |acc| <= |r| && r[..|acc|] == acc && ScanAdds(r[|acc|..], funcs, axiom, fi)
    decreases |funcs| - fi
  {
    if fi == |funcs| {
      assert EntriesFrom(funcs, axiom, fi, acc)[|acc|..] == [];
    } else {
      var c := funcs[fi];
      var x1 := Tagged(c, fi, Matches(c.sym, c.paramlength, axiom));
      EntriesFromSpec(funcs, axiom, fi + 1, acc + x1);
      ScanStep(acc, x1, EntriesFrom(funcs, axiom, fi, acc), funcs, axiom, fi);
    }
  }

  /** The occurrences found are exactly the matches of the table's entries: each is a match
      of its own entry, every match of every entry is there, and they come table entry by
      table entry, each entry's in increasing position. */
  lemma EntriesSpec<F>(funcs: seq<Command<F>>, axiom: string)
    requires CommandSymbols(funcs)
    ensures var es := Entries(funcs, axiom);
      && (forall i :: 0 <= i < |es| ==> EntryOf(es[i], funcs, axiom, 0))
      && TableOrder(es)
      && (forall fi, j :: 0 <= fi < |funcs| && 0 <= j < |Matches(funcs[fi].sym, funcs[fi].paramlength, axiom)| ==>
            var m := Matches(funcs[fi].sym, funcs[fi].paramlength, axiom)[j];
            Entry(m.begin, fi, funcs[fi].func, m.paramvalues) in es)
  {
    EntriesFromSpec(funcs, axiom, 0, []);
    var es := Entries(funcs, axiom);
    assert es[0..] == es;
  }

  // ---------------------------------------------------------------------------------------
  // Sorting and running the commands

  /** The order the command sort uses: by position only. The records carry no
      `paramlength`, so the comparator's tie-break computes NaN, which the sort treats as 0:
      occurrences at one position compare equal. */
  function StartKey<F>(e: Entry<F>): Key {
    (e.start, 0)
  }

  /** By position, then by place in the table. */
  function EntryKey<F>(e: Entry<F>): Key {
    (e.start, e.index)
  }

  /** Array.prototype.sort is stable, so occurrences at one position keep the order they were
      pushed in, which is table order: sorting by position is sorting by position and table
      place. */
  lemma CommandOrder<F>(funcs: seq<Command<F>>, axiom: string)
    requires CommandSymbols(funcs)
    ensures SortBy(Entries(funcs, axiom), StartKey) == SortBy(Entries(funcs, axiom), EntryKey)
    ensures Sorted(SortBy(Entries(funcs, axiom), StartKey), EntryKey)
  {
    var es := Entries(funcs, axiom);
    EntriesSpec(funcs, axiom);
    forall i, j | 0 <= i < j < |es|
      ensures KeyLt(StartKey(es[j]), StartKey(es[i])) <==> KeyLt(EntryKey(es[j]), EntryKey(es[i]))
    {
    }
    SortBySameOrder(es, StartKey, EntryKey);
    SortBySpec(es, EntryKey);
  }

  /** The first index from `i` on whose occurrence is not at `start`. */
  function NextStart<F>(fs: seq<Entry<F>>, i: nat, start: nat): (r: nat)
    requires i <= |fs|
    ensures i <= r <= |fs|
    ensures forall n :: i <= n < r ==> fs[n].start == start
    ensures r < |fs| ==> fs[r].start != start
    decreases |fs| - i
  {
    if i < |fs| && fs[i].start == start then NextStart(fs, i + 1, start) else i
  }

  /** The calling loop of produce from index `i` of the sorted occurrences, with the actions
      run so far in `acc`: the occurrence's parameters are evaluated, its action runs, and
      the other occurrences at its position are skipped. An evaluation error ends it. */
  function RunFrom<F>(fs: seq<Entry<F>>, i: nat, acc: seq<Call<F>>, ev: Evaluator, k: nat): Outcome<F>
    requires i <= |fs|
    decreases |fs| - i
  {
    if i == |fs| then Outcome(acc, None)
    else
      match ParamValues(fs[i].paramvalues, ev, k)
      case Err(e) => Outcome(acc, Some(e))
      case Ok(d) => RunFrom(fs, NextStart(fs, i + 1, fs[i].start), acc + [Call(fs[i], d.value)], ev, d.next)
  }

  /** The command stage on the final axiom. */
  function RunCommands<F>(funcs: seq<Command<F>>, axiom: string, ev: Evaluator, k: nat): Outcome<F>
    requires CommandSymbols(funcs)
  {
    RunFrom(SortBy(Entries(funcs, axiom), StartKey), 0, [], ev, k)
  }

  /** Occurrence `p` is the first of `fs` at its position. */
  predicate Leader<F>(fs: seq<Entry<F>>, p: nat) {
    p < |fs| && (p == 0 || fs[p - 1].start != fs[p].start)
  }

  /** The action received what its parameter texts evaluate to, from some random draw on. */
  ghost predicate Evaluated<F>(c: Call<F>, ev: Evaluator) {
    exists kk: nat :: ParamValues(c.entry.paramvalues, ev, kk) == Ok(Drawn(c.args, kk + 2 * |c.args|))
  }

  /** One step of the calling loop. */
  lemma RunStep<F>(fs: seq<Entry<F>>, i: nat, acc: seq<Call<F>>, ev: Evaluator, k: nat)
    requires i < |fs|
    ensures var pv := ParamValues(fs[i].paramvalues, ev, k);
      && (pv.Err? ==> RunFrom(fs, i, acc, ev, k) == Outcome(acc, Some(pv.error)))
      && (pv.Ok? ==> RunFrom(fs, i, acc, ev, k)
                     == RunFrom(fs, NextStart(fs, i + 1, fs[i].start), acc + [Call(fs[i], pv.value.value)], ev, pv.value.next))
  {
  }

  /** After skipping the occurrences at one position, the loop is at a leader or at the end. */
  lemma NextLeader<F>(fs: seq<Entry<F>>, i: nat)
    requires i < |fs|
    ensures var q := NextStart(fs, i + 1, fs[i].start); q == |fs| || Leader(fs, q)
  {
    var q := NextStart(fs, i + 1, fs[i].start);
    if 0 < q < |fs| {
      assert fs[q - 1].start == fs[i].start;
    }
  }

  /** An action that receives its evaluated parameters is Evaluated. */
  lemma CallEvaluated<F>(f: Entry<F>, ev: Evaluator, k: nat)
    ensures var pv := ParamValues(f.paramvalues, ev, k);
      && (pv.Ok? ==> Evaluated(Call(f, pv.value.value), ev))
      && (pv.Err? ==> pv.error.FormulaError?)
  {
    ParamValuesSpec(f.paramvalues, ev, k);
  }

  /** The calling loop only appends actions, and fails only with a formula error. */
  lemma {:induction false} RunFromPrefix<F>(fs: seq<Entry<F>>, i: nat, acc: seq<Call<F>>, ev: Evaluator, k: nat)
    requires i <= |fs|
    ensures var r := RunFrom(fs, i, acc, ev, k);
      && |acc| <= |r.calls| && r.calls[..|acc|] == acc
      && (r.error.Some? ==> r.error.value.FormulaError?)
    decreases |fs| - i
  {
    if i < |fs| {
      var pv := ParamValues(fs[i].paramvalues, ev, k);
      RunStep(fs, i, acc, ev, k);
      CallEvaluated(fs[i], ev, k);
      if pv.Ok? {
        var q := NextStart(fs, i + 1, fs[i].start);
        var acc' := acc + [Call(fs[i], pv.value.value)];
        RunFromPrefix(fs, q, acc', ev, pv.value.next);
        var r := RunFrom(fs, q, acc', ev, pv.value.next);
        assert r.calls[..|acc|] == r.calls[..|acc'|][..|acc|];
      }
    }
  }

  /** Every action the loop runs from a leader `i` on belongs to a leader at or after `i`
      and receives its evaluated parameters. */
  lemma {:induction false} RunFromLeaders<F>(fs: seq<Entry<F>>, i: nat, acc: seq<Call<F>>, ev: Evaluator, k: nat)
    requires i <= |fs| && (i == |fs| || Leader(fs, i))
    ensures var r := RunFrom(fs, i, acc, ev, k);
      && |acc| <= |r.calls|
      && forall j :: |acc| <= j < |r.calls| ==>
           && (exists p :: i <= p < |fs| && Leader(fs, p) && r.calls[j].entry == fs[p])
           && Evaluated(r.calls[j], ev)
    decreases |fs| - i
  {
    RunFromPrefix(fs, i, acc, ev, k);
    if i < |fs| {
      var pv := ParamValues(fs[i].paramvalues, ev, k);
      RunStep(fs, i, acc, ev, k);
      if pv.Ok? {
        var q := NextStart(fs, i + 1, fs[i].start);
        var c := Call(fs[i], pv.value.value);
        var acc' := acc + [c];
        CallEvaluated(fs[i], ev, k);
        NextLeader(fs, i);
        RunFromLeaders(fs, q, acc', ev, pv.value.next);
        RunFromPrefix(fs, q, acc', ev, pv.value.next);
        var r := RunFrom(fs, q, acc', ev, pv.value.next);
        assert r.calls[|acc|] == r.calls[..|acc'|][|acc|] == c;
      }
    }
  }

  /** The positions of the actions run from a leader `i` on strictly increase, from the
      position of `i` on. */
  lemma {:induction false} RunFromIncreasing<F>(fs: seq<Entry<F>>, i: nat, acc: seq<Call<F>>, ev: Evaluator, k: nat)
    requires Sorted(fs, StartKey) && i <= |fs| && (i == |fs| || Leader(fs, i))
    ensures var r := RunFrom(fs, i, acc, ev, k);
      && |acc| <= |r.calls|
      && (forall j :: |acc| <= j < |r.calls| ==> i < |fs| && fs[i].start <= r.calls[j].entry.start)
      && (forall j1, j2 :: |acc| <= j1 < j2 < |r.calls| ==> r.calls[j1].entry.start < r.calls[j2].entry.start)
    decreases |fs| - i
  {
    RunFromPrefix(fs, i, acc, ev, k);
    if i < |fs| {
      var pv := ParamValues(fs[i].paramvalues, ev, k);
      RunStep(fs, i, acc, ev, k);
      if pv.Ok? {
        var q := NextStart(fs, i + 1, fs[i].start);
        var c := Call(fs[i], pv.value.value);
        var acc' := acc + [c];
        NextLeader(fs, i);
        RunFromIncreasing(fs, q, acc', ev, pv.value.next);
        RunFromPrefix(fs, q, acc', ev, pv.value.next);
        var r := RunFrom(fs, q, acc', ev, pv.value.next);
        assert r.calls[|acc|] == r.calls[..|acc'|][|acc|] == c;
        if q < |fs| {
          assert KeyLe(StartKey(fs[i]), StartKey(fs[q]));
        }
      }
    }
  }

  /** With no error, every position that holds an occurrence from a leader `i` on gets an
      action. */
  lemma {:induction false} RunFromComplete<F>(fs: seq<Entry<F>>, i: nat, acc: seq<Call<F>>, ev: Evaluator, k: nat)
    requires i <= |fs| && (i == |fs| || Leader(fs, i))
    ensures var r := RunFrom(fs, i, acc, ev, k);
      r.error.None? ==> (|acc| <= |r.calls| &&
        forall p :: i <= p < |fs| ==> exists j :: |acc| <= j < |r.calls| && r.calls[j].entry.start == fs[p].start)
    decreases |fs| - i
  {
    RunFromPrefix(fs, i, acc, ev, k);
    if i < |fs| {
      var pv := ParamValues(fs[i].paramvalues, ev, k);
      RunStep(fs, i, acc, ev, k);
      if pv.Ok? {
        var q := NextStart(fs, i + 1, fs[i].start);
        var c := Call(fs[i], pv.value.value);
        var acc' := acc + [c];
        NextLeader(fs, i);
        RunFromComplete(fs, q, acc', ev, pv.value.next);
        RunFromPrefix(fs, q, acc', ev, pv.value.next);
        var r := RunFrom(fs, q, acc', ev, pv.value.next);
        if r.error.None? {
          assert r.calls[|acc|] == r.calls[..|acc'|][|acc|] == c;
          forall p | i <= p < |fs|
            ensures exists j :: |acc| <= j < |r.calls| && r.calls[j].entry.start == fs[p].start
          {
            if p < q {
              assert r.calls[|acc|].entry.start == fs[p].start;
            }
          }
        }
      }
    }
  }

  /** In occurrences sorted by position and table place, a leader has the lowest table place
      among the occurrences at its position. */
  lemma LeaderLowest<F>(fs: seq<Entry<F>>, p: nat)
    requires Sorted(fs, EntryKey) && Leader(fs, p)
    ensures forall q :: 0 <= q < |fs| && fs[q].start == fs[p].start ==> fs[p].index <= fs[q].index
  {
    forall q | 0 <= q < p ensures fs[q].start < fs[p].start {
      assert KeyLe(EntryKey(fs[q]), EntryKey(fs[p - 1]));
      assert KeyLe(EntryKey(fs[p - 1]), EntryKey(fs[p]));
    }
    forall q | p < q < |fs| && fs[q].start == fs[p].start ensures fs[p].index <= fs[q].index {
      assert KeyLe(EntryKey(fs[p]), EntryKey(fs[q]));
    }
  }

  /** The sorted occurrences are in position order and in position-and-table order, and
      they are the occurrences found. */
  lemma SortedEntries<F>(funcs: seq<Command<F>>, axiom: string)
    requires CommandSymbols(funcs)
    ensures var fs := SortBy(Entries(funcs, axiom), StartKey);
      && Sorted(fs, StartKey) && Sorted(fs, EntryKey)
      && multiset(fs) == multiset(Entries(funcs, axiom))
  {
    var fs := SortBy(Entries(funcs, axiom), StartKey);
    CommandOrder(funcs, axiom);
    SortBySpec(Entries(funcs, axiom), StartKey);
  }

  /** The command stage runs actions at strictly increasing positions, at most one per
      position. */
  lemma RunCommandsIncreasing<F>(funcs: seq<Command<F>>, axiom: string, ev: Evaluator, k: nat)
    requires CommandSymbols(funcs)
    ensures var r := RunCommands(funcs, axiom, ev, k);
      forall j1, j2 :: 0 <= j1 < j2 < |r.calls| ==> r.calls[j1].entry.start < r.calls[j2].entry.start
  {
    SortedEntries(funcs, axiom);
    RunFromIncreasing(SortBy(Entries(funcs, axiom), StartKey), 0, [], ev, k);
  }

  /** Actions run for leaders of a reordering `fs` of `es`, sorted by position and table
      place, belong to occurrences of `es` and have the lowest table place at their position. */
  lemma LeadersChosen<F>(es: seq<Entry<F>>, fs: seq<Entry<F>>, calls: seq<Call<F>>)
    requires multiset(fs) == multiset(es) && Sorted(fs, EntryKey)
    requires forall j :: 0 <= j < |calls| ==> exists p :: 0 <= p < |fs| && Leader(fs, p) && calls[j].entry == fs[p]
    ensures forall j :: 0 <= j < |calls| ==>
      && calls[j].entry in es
      && forall e :: e in es && e.start == calls[j].entry.start ==> calls[j].entry.index <= e.index
  {
    forall j | 0 <= j < |calls|
      ensures calls[j].entry in es
      ensures forall e :: e in es && e.start == calls[j].entry.start ==> calls[j].entry.index <= e.index
    {
      assert exists p :: 0 <= p < |fs| && Leader(fs, p) && calls[j].entry == fs[p];
      var p :| 0 <= p < |fs| && Leader(fs, p) && calls[j].entry == fs[p];
      assert fs[p] in multiset(es);
      LeaderLowest(fs, p);
      forall e | e in es && e.start == fs[p].start ensures fs[p].index <= e.index {
        assert e in multiset(fs);
      }
    }
  }

  /** Each action run belongs to an occurrence found in the axiom, receives that
      occurrence's evaluated parameters, and of the occurrences at its position it is the one
      whose table entry comes first (the first registered arity wins). */
  lemma RunCommandsChosen<F>(funcs: seq<Command<F>>, axiom: string, ev: Evaluator, k: nat)
    requires CommandSymbols(funcs)
    ensures var es := Entries(funcs, axiom);
      var r := RunCommands(funcs, axiom, ev, k);
      forall j :: 0 <= j < |r.calls| ==>
        && r.calls[j].entry in es
        && Evaluated(r.calls[j], ev)
        && forall e :: e in es && e.start == r.calls[j].entry.start ==> r.calls[j].entry.index <= e.index
  {
    var es := Entries(funcs, axiom);
    var fs := SortBy(es, StartKey);
    SortedEntries(funcs, axiom);
    RunFromLeaders(fs, 0, [], ev, k);
    LeadersChosen(es, fs, RunCommands(funcs, axiom, ev, k).calls);
  }

  /** Without an error, every position holding a command occurrence gets an action, even
      where occurrences overlap; the only error is a formula error. */
  lemma RunCommandsComplete<F>(funcs: seq<Command<F>>, axiom: string, ev: Evaluator, k: nat)
    requires CommandSymbols(funcs)
    ensures var es := Entries(funcs, axiom);
      var r := RunCommands(funcs, axiom, ev, k);
      && (r.error.None? ==> forall e :: e in es ==> exists j :: 0 <= j < |r.calls| && r.calls[j].entry.start == e.start)
      && (r.error.Some? ==> r.error.value.FormulaError?)
  {
    var es := Entries(funcs, axiom);
    var fs := SortBy(es, StartKey);
    var r := RunCommands(funcs, axiom, ev, k);
    SortedEntries(funcs, axiom);
    RunFromPrefix(fs, 0, [], ev, k);
    RunFromComplete(fs, 0, [], ev, k);
    if r.error.None? {
      forall e | e in es ensures exists j :: 0 <= j < |r.calls| && r.calls[j].entry.start == e.start {
        assert e in multiset(fs);
        var p :| 0 <= p < |fs| && fs[p] == e;
      }
    }
  }

  // ---------------------------------------------------------------------------------------
  // produce

  /** Compiled rules have non-empty symbols. */
  lemma CompiledSymbols(lines: seq<string>)
    ensures Compiled(lines).Ok? ==> Symbols(Compiled(lines).value)
  {
    CompiledSpec(lines);
  }

  /** PLSystem.produce: the productions text is split into non-empty lines; a NaN or negative
      iteration count is rejected, then the lines are compiled, the passes run, and the
      commands of the final axiom are run. An exception before the command stage means no
      action ran. */
  function Produced<F>(funcs: seq<Command<F>>, axiom: string, productions: string, iterations: Count,
                       ev: Evaluator, k: nat): Outcome<F>
    requires CommandSymbols(funcs)
  {
    var lines := FilterEmpty(Split(productions, '\n'));
    if iterations.NaN? || iterations.n < 0 then Outcome([], Some(InvalidIterations))
    else
      match Compiled(lines)
      case Err(e) => Outcome([], Some(e))
      case Ok(prods) =>
        CompiledSymbols(lines);
        match Iterate(prods, axiom, iterations.n, ev, k)
        case Err(e) => Outcome([], Some(e))
        case Ok(d) => RunCommands(funcs, d.value, ev, d.next)
  }

  /** The exceptions raised before the command stage: a bad iteration count, then the first
      rule line that does not compile (naming its index); in both cases no action ran. */
  lemma ProducedRejects<F>(funcs: seq<Command<F>>, axiom: string, productions: string, iterations: Count,
                           ev: Evaluator, k: nat)
    requires CommandSymbols(funcs)
    ensures var r := Produced(funcs, axiom, productions, iterations, ev, k);
      var lines := FilterEmpty(Split(productions, '\n'));
      && ((iterations.NaN? || iterations.n < 0) ==> r == Outcome([], Some(InvalidIterations)))
      && (iterations.Number? && iterations.n >= 0 && (exists j :: 0 <= j < |lines| && ParseProduction(lines[j], j).Err?) ==>
            && r.calls == []
            && exists j :: 0 <= j < |lines| && r.error == Some(InvalidProduction(j))
                           && ParseProduction(lines[j], j).Err?
                           && forall n :: 0 <= n < j ==> ParseProduction(lines[n], n).Ok?)
  {
    CompiledSpec(FilterEmpty(Split(productions, '\n')));
  }

  /** When compilation and the passes succeed, the outcome is the command stage on the
      final axiom; when a pass fails, no action ran. */
  lemma ProducedRuns<F>(funcs: seq<Command<F>>, axiom: string, productions: string, n: nat,
                        ev: Evaluator, k: nat)
    requires CommandSymbols(funcs)
    requires Compiled(FilterEmpty(Split(productions, '\n'))).Ok?
    ensures var prods := Compiled(FilterEmpty(Split(productions, '\n'))).value;
      var r := Produced(funcs, axiom, productions, Number(n), ev, k);
      && Symbols(prods)
      && var it := Iterate(prods, axiom, n, ev, k);
         && (it.Err? ==> r == Outcome([], Some(it.error)))
         && (it.Ok? ==> r == RunCommands(funcs, it.value.value, ev, it.value.next))
  {
    CompiledSymbols(FilterEmpty(Split(productions, '\n')));
  }

  /** The iteration loop of produce: `n` rewriting passes. */
  method RunPasses(prods: seq<Production>, axiom: string, n: nat, ev: Evaluator, k: nat)
    returns (r: Result<Drawn<string>, PLError>)
    requires Symbols(prods)
    ensures r == Iterate(prods, axiom, n, ev, k)
  {
    var current := axiom;
    var draws := k;
    for iter := 0 to n
      invariant Iterate(prods, current, n - iter, ev, draws) == Iterate(prods, axiom, n, ev, k)
    {
      var parts := CollectParts(prods, current, ev, draws);
      if parts.Err? {
        return Err(parts.error);
      }
      SortedWithin(prods, current, ev, draws);
      var sorted := SortBy(parts.value.value, PartKey);
      assert RewritePass(prods, current, ev, draws) == Ok(Drawn(Merged(current, sorted), parts.value.next));
      current := MergeParts(current, sorted);
      draws := parts.value.next;
    }
    r := Ok(Drawn(current, draws));
  }

  /** The scanning loops of produce: the occurrences of every command of the table. */
  method ScanCommands<F>(funcs: seq<Command<F>>, axiom: string) returns (fs: seq<Entry<F>>)
    requires CommandSymbols(funcs)
    ensures fs == Entries(funcs, axiom)
  {
    fs := [];
    for fi := 0 to |funcs|
      invariant EntriesFrom(funcs, axiom, fi, fs) == Entries(funcs, axiom)
    {
      var c := funcs[fi];
      var ms := FindProduction(c.sym, c.paramlength, axiom);
      var before := fs;
      for n := 0 to |ms|
        invariant fs == before + Tagged(c, fi, ms[..n])
      {
        assert ms[..n + 1][..n] == ms[..n];
        fs := fs + [Entry(ms[n].begin, fi, c.func, ms[n].paramvalues)];
      }
      assert ms[..|ms|] == ms;
    }
  }

  /** The calling loop of produce over the sorted occurrences. */
  method CallCommands<F>(fs: seq<Entry<F>>, ev: Evaluator, k: nat) returns (out: Outcome<F>)
    ensures out == RunFrom(fs, 0, [], ev, k)
  {
    var calls: seq<Call<F>> := [];
    var draws := k;
    var i := 0;
    while i < |fs|
      invariant i <= |fs|
      invariant RunFrom(fs, i, calls, ev, draws) == RunFrom(fs, 0, [], ev, k)
      decreases |fs| - i
    {
      var f := fs[i];
      var pv := EvalParamValues(f.paramvalues, ev, draws);
      if pv.Err? {
        return Outcome(calls, Some(pv.error));
      }
      calls := calls + [Call(f, pv.value.value)];
      draws := pv.value.next;
      ghost var next := NextStart(fs, i + 1, f.start);
      while i + 1 < |fs| && f.start == fs[i + 1].start
        invariant i < |fs| && NextStart(fs, i + 1, f.start) == next
        decreases |fs| - i
      {
        i := i + 1;
      }
      i := i + 1;
    }
    out := Outcome(calls, None);
  }

  /** The engine object: the command table is fixed when it is made. */
  class PLSystem<F> {
    const funcs: seq<Command<F>>

    constructor(funcs: seq<Command<F>>)
      requires CommandSymbols(funcs)
      ensures this.funcs == funcs
    {
      this.funcs := funcs;
    }

    /** PLSystem.produce. */
    method Produce(axiom: string, productions: string, iterations: Count, ev: Evaluator, k: nat)
      returns (out: Outcome<F>)
      requires CommandSymbols(funcs)
      ensures out == Produced(funcs, axiom, productions, iterations, ev, k)
    {
      var lines := FilterEmpty(Split(productions, '\n'));
      if iterations.NaN? || iterations.n < 0 {
        return Outcome([], Some(InvalidIterations));
      }
      var compiled := CompileProductions(lines);
      if compiled.Err? {
        return Outcome([], Some(compiled.error));
      }
      var prods := compiled.value;
      CompiledSymbols(lines);
      var rewritten := RunPasses(prods, axiom, iterations.n, ev, k);
      if rewritten.Err? {
        return Outcome([], Some(rewritten.error));
      }
      var fs := ScanCommands(funcs, rewritten.value.value);
      fs := SortBy(fs, StartKey);
      out := CallCommands(fs, ev, rewritten.value.next);
    }
  }
}
