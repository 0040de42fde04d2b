/** Option, Result, random-draw bookkeeping and the exceptions raised by the L-system engine. */
module Common {

  datatype Option<+T> = None | Some(value: T)

  datatype Result<+T, +E> = Ok(value: T) | Err(error: E)

  /** A value together with the index of the next unused random draw: every evaluation
      extends its scope with one fresh `rand`, so the draw index advances by one per evaluation. */
  datatype Drawn<+T> = Drawn(value: T, next: nat)

  /** The cases of plSystemException raised by PLSystem.produce; each carries what its message names. */
  datatype PLError =
    | InvalidIterations                               // "Please enter a valid iteration number"
    | InvalidProduction(line: nat)                    // "Invalid Production <line>: ..."
    | ConditionError(condition: string, cause: string) // "Condition error: <condition> <cause>"
    | FormulaError(formula: string, cause: string)     // "Formula error: <formula> <cause>"

  /** Concatenation regroups; stated once so that proofs about accumulated results can cite it. */
  lemma AppendAssoc<T>(a: seq<T>, b: seq<T>, c: seq<T>)
    ensures (a + b) + c == a + (b + c)
  {
  }

  /** If `mid` extends `acc` and `all` extends `mid`, then `all` extends `acc`, and what `all`
      adds to `acc` is what `mid` adds followed by what `all` adds to `mid`. */
  lemma ExtendsTwice<T>(acc: seq<T>, mid: seq<T>, all: seq<T>)
    requires |acc| <= |mid| && mid[..|acc|] == acc
    requires |mid| <= |all| && all[..|mid|] == mid
    ensures all[..|acc|] == acc
    ensures all[|acc|..] == mid[|acc|..] + all[|mid|..]
  {
    assert all[..|acc|] == all[..|mid|][..|acc|];
    assert all == mid + all[|mid|..];
    assert mid == acc + mid[|acc|..];
  }
}
