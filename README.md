# Parametric L-system and 3D turtle

A model of the core of a browser application that draws three-dimensional plants with a
parametric Lindenmayer system (L-system). The core has three parts:

- **`PLSystem.produce`** works in three stages:
  - it compiles rule lines of the form `A(x,y):cond->body` into productions;
  - it rewrites an axiom for a number of passes;
  - it then scans the final axiom for turtle commands and calls each one.

  Conditions and parameter formulas are handed to an expression evaluator. Each evaluation
  sees a scope extended with a fresh random number `rand`.
- **The turtle** is a class with a position, a heading, a rotation, a current material, a stack of
  saved states, the meshes, materials and lights it has created, and an open line.
  - A cylinder extends the open line when the line ends at the turtle's position and has the
    same diameter.
  - A cylinder that does not extend the line, every material change, and `finalize` first turn
    the open line into one mesh.
  - `cube`, `forward`, the rotations, `push` and `pop` do not. `pop` replaces the open line with
    the saved one without emitting a mesh.
- **The main component** holds the command table, which maps symbols and arities to turtle calls.
  It also holds the redraw driver and the glue between a configuration's list of rule lines
  and the editor's text.

The Dafny modules follow this structure:

| module | what it holds |
|---|---|
| `Common` | `Option`, `Result` and `Drawn`, a value with the index of the next random draw, plus the produce errors |
| `JsStrings` | `indexOf`, `lastIndexOf`, `split`, `join`, and the removal of spaces |
| `Grammar` | `filterEmpty`, `splitParam`, the rule-line regular expression, and rule compilation |
| `Scanner` | `findProduction` |
| `Expressions` | the evaluator interface, `extendScope`, `evalFormula`, `checkProductionCondition`, `zipObject`, `evalProduction` and `evalParamValues` |
| `Sorting` | the stable sort that `Array.prototype.sort` performs |
| `Rewrite` | one rewrite pass (collect, sort, merge) and the iteration |
| `Engine` | the command stage and `produce` |
| `Commands` | the command table |
| `Turtles` | the turtle class and light creation |
| `MainComponent` | `processConfigData`, `handleSave`'s productions and `paramChanged` |

How the external parts are represented:

- **The evaluator** is the record `Evaluator(eval, random)`.
  - `eval(formula, scope)` returns a value or an error message. It stands in for mathjs.
  - `random(n)` is the n-th number `Math.random` returns.
  - Every function that evaluates threads the index of the next draw.
  - `evalParamValues` takes two draws per parameter, because it extends the scope once itself
    and `evalFormula` extends it again.
- **Trigonometry** is the injected record `Trig(radians, sin, cos)`.
- **Meshes, materials and lights** are records appended to sequences.
- **The turtle's state** as a value is `TurtleState`. Each turtle method's contract gives its new
  state as a function of the old one (`Cylindered`, `Popped`, `Recolored` and so on), and
  `Step` maps a table action to the method it calls.

## Model

| member | source | states |
|---|---|---|
| `JsStrings.IndexOfFirst` | src/PLSystem.js:162 | `indexOf(pat, from)` returns the first occurrence at or after `from`, or -1 when there is none |
| `JsStrings.JoinSplit` | src/MainComponent.jsx:264 | joining the pieces of `split(sep)` with `sep` gives the text back |
| `JsStrings.SplitJoin` | src/MainComponent.jsx:174 | splitting a join of pieces that hold no separator gives the pieces back |
| `JsStrings.RemoveSpaces` | src/PLSystem.js:43 | `replace(/ /g, "")` leaves no space and keeps every other character, with its multiplicity |
| `JsStrings.RemoveSpacesNoSpace` | src/PLSystem.js:43 | a line without spaces is unchanged; only spaces are stripped |
| `Grammar.FilterEmpty` | src/PLSystem.js:265-267 | the result has no empty element, and each non-empty string occurs in it as often as in the input |
| `Grammar.FilterEmptyAppend` | src/PLSystem.js:265-267 | filtering distributes over concatenation, so order is kept |
| `Grammar.FilterEmptyKeeps` | src/PLSystem.js:265-267 | a list without empty elements comes back unchanged |
| `Grammar.SplitParam` | src/PLSystem.js:136-148 | the symbol is the prefix of the expression before its first `(`; the parameter names are non-empty and hold no `,` |
| `Grammar.SplitParamHeadText` | src/PLSystem.js:136-148 | parsing the text `sym(p1,...,pn)` of a head gives that head back, for a symbol without `(` and non-empty names without `,` |
| `Grammar.MatchRule` | src/PLSystem.js:41-47 | a line fails the rule expression exactly when it holds no `->`; otherwise the groups put together give the line back, with a lazy head and a greedy condition |
| `Grammar.MatchRulePlain` | src/PLSystem.js:41 | for `head->body`, the expression picks exactly that head and body and no condition |
| `Grammar.MatchRuleConditional` | src/PLSystem.js:41 | for `head:cond->body` with no `->` in the body, it picks that head, condition and body |
| `Grammar.MatchRuleUnique` | src/PLSystem.js:41 | any groups that satisfy the expression's constraints are the ones it picks from their text |
| `Grammar.ParseProduction` | src/PLSystem.js:43-59 | a rule line either fails with `InvalidProduction(i)`, or yields a non-empty symbol without `(`, `:` or `->` and a body without spaces |
| `Grammar.ParseProductionText` | src/PLSystem.js:43-59 | compiling the text of a printable production gives that production back |
| `Grammar.ParseProductionFails` | src/PLSystem.js:44-58 | a line is rejected exactly when, after spaces are removed, it has no `->`, starts with `(` or `:`, or starts with `->`, which are the empty-symbol cases |
| `Grammar.AllOkFromSpec` | src/PLSystem.js:42-60 | the compile loop succeeds exactly when every line does, and otherwise stops at the first failing line |
| `Grammar.CompiledSpec` | src/PLSystem.js:42-60 | compilation gives one production per line, in order, or the error of the first bad line |
| `Grammar.CompileProductions` | src/PLSystem.js:40-60 | the loop that pushes productions computes `Compiled` |
| `Scanner.MatchAt` | src/PLSystem.js:164-175 | a match begins at the occurrence, ends within the axiom and has exactly `paramlength` values; for arity 0 it ends right after the symbol, whatever follows |
| `Scanner.MatchAtShape` | src/PLSystem.js:166-173 | a match of arity > 0 has `(` right after the symbol and ends after the first `)` that follows; its values are the non-empty comma fields between them |
| `Scanner.MatchAtParams` | src/PLSystem.js:166-175 | conversely, such a `(`, first `)` and field count always make a match |
| `Scanner.FindProduction` | src/PLSystem.js:157-178 | the `while(true)` loop returns `Matches`, the scan resumed at `index + 1` |
| `Scanner.ScanFromSpec` | src/PLSystem.js:159-176 | the accumulating loop appends exactly the recursive scan |
| `Scanner.ScanSound` | src/PLSystem.js:157-176 | the matches have strictly increasing `begin`; each begins at an occurrence of the symbol and is the match found there |
| `Scanner.ScanComplete` | src/PLSystem.js:162-163 | every occurrence at or after the start that makes a match is reported |
| `Scanner.MatchesSpec` | src/PLSystem.js:157-178 | `findProduction` reports exactly the matches at occurrences, in increasing order |
| `Scanner.OverlappingMatches` | src/PLSystem.js:163 | matches overlap: `AA` in `AAA` is found at 0 and at 1 |
| `Expressions.ExtendScopeSpec` | src/PLSystem.js:274-276 | the extended scope binds `rand` to the random number and keeps every other name |
| `Expressions.EvalFormula` | src/PLSystem.js:241-247 | the result is the evaluator's value with one draw used; an evaluator failure becomes `FormulaError(formula, message)` |
| `Expressions.CheckProductionCondition` | src/PLSystem.js:226-233 | an absent condition holds without a draw; a present one holds exactly when the value is boolean `true`; an evaluator failure is a `ConditionError`, never false |
| `Expressions.ZipObjectSpec` | src/PLSystem.js:254-258 | the object's keys are exactly the head's names; each name is bound to the captured value at its last position, or `undefined` past the values |
| `Expressions.EvalProduction` | src/PLSystem.js:186-218 | the character loop computes `Substituted`, its recursive specification |
| `Expressions.TextRun` | src/PLSystem.js:208-213 | outside a formula, plain text is copied verbatim |
| `Expressions.FormulaRun` | src/PLSystem.js:208-210 | inside a formula, plain text is gathered into the formula |
| `Expressions.PlainBodyUnchanged` | src/PLSystem.js:186-218 | a body without `(`, `)` or `,` comes back unchanged and uses no draw |
| `Expressions.FieldStep` | src/PLSystem.js:197-207 | at `,` or `)` the gathered formula's value is emitted, followed by the delimiter |
| `Expressions.GroupFields` | src/PLSystem.js:193-207 | a parenthesised list of formulas becomes the list of their values, one draw each, in order |
| `Expressions.SubstitutedGroup` | src/PLSystem.js:186-218 | `pre(f1,...,fn)post` with plain `pre` and `post` becomes `pre(v1,...,vn)post` when every formula evaluates |
| `Expressions.SubstitutedFirstFails` | src/PLSystem.js:197-207 | a failing first formula makes the whole body fail with its `FormulaError` |
| `Expressions.EvalParamValues` | src/PLSystem.js:283-289 | the loop computes `ParamValues` |
| `Expressions.ParamValuesFromSpec` | src/PLSystem.js:284-287 | the loop from `i` on keeps the values already computed and evaluates each later text with its two draws, or fails exactly when one of them fails |
| `Expressions.ParamValuesSpec` | src/PLSystem.js:283-289 | on success each value is the evaluation of its text under `{rand}`, using two draws per text; failure happens exactly when some text fails, and it is a `FormulaError` |
| `Sorting.Insert` | src/PLSystem.js:81-84 | insertion keeps the elements and adds one |
| `Sorting.InsertSorted` | src/PLSystem.js:81-84 | insertion keeps a sequence sorted |
| `Sorting.SortBySpec` | src/PLSystem.js:81-84 | the sort returns a sorted permutation of its input (for the parts here, and for the commands at lines 115-118) |
| `Sorting.SortedUnique` | src/PLSystem.js:81-84 | with distinct keys there is only one sorted permutation, so every correct sort agrees |
| `Sorting.SortBySameOrder` | src/PLSystem.js:115-118 | two keys that order every pair alike give the same stable sort |
| `Sorting.DistinctKeysPermutation` | src/PLSystem.js:81-84 | distinct keys survive any permutation |
| `Rewrite.CollectParts` | src/PLSystem.js:68-78 | the nested loops over productions and matches compute `PassParts` |
| `Rewrite.RulePartsFromSpec` | src/PLSystem.js:71-77 | one production adds parts of its own index, one per accepted match, in increasing position |
| `Rewrite.PassPartsFromSpec` | src/PLSystem.js:69-78 | the loop from a production on appends what each later production adds, in production order |
| `Rewrite.PassPartsSpec` | src/PLSystem.js:68-78 | every part comes from a match of its production against the same pre-pass axiom, lies within the axiom, and no two parts share (start, prodindex) |
| `Rewrite.PassOrderUnique` | src/PLSystem.js:81-84 | any sorted permutation of the parts is the one the model's sort returns, so the comparator fixes the order |
| `Rewrite.SortedWithin` | src/PLSystem.js:81-84 | the sorted parts still lie within the axiom |
| `Rewrite.MergeParts` | src/PLSystem.js:89-103 | the cursor walk computes `Merged` |
| `Rewrite.SkipStart` | src/PLSystem.js:97-99 | the cursor skips exactly the parts with the same start |
| `Rewrite.Used` | src/PLSystem.js:91-99 | the parts the walk applies lie within the axiom, start at or after the position, and do not overlap |
| `Rewrite.MergeIsSplice` | src/PLSystem.js:89-103 | the merged axiom is the axiom with the applied parts spliced in and every other character copied |
| `Rewrite.MergedNoParts` | src/PLSystem.js:89-103 | with no parts the axiom is unchanged |
| `Rewrite.MergeStuck` | src/PLSystem.js:92-101 | once the next part starts before the cursor, no later part is applied and the rest is copied |
| `Rewrite.UsedAll` | src/PLSystem.js:91-99 | parts that are spaced apart are all applied |
| `Rewrite.LowestAtStart` | src/PLSystem.js:81-84 | in sorted parts the first part at a position has the lowest production index there |
| `Rewrite.UsedLowestRule` | src/PLSystem.js:81-99 | every applied part has the lowest production index among the parts at its position |
| `Rewrite.BlockedPass` | src/PLSystem.js:93-101 | a part inside a replaced span blocks every later part of the pass (`ABCBC` becomes `xCBC`) |
| `Rewrite.WithinPermutation` | src/PLSystem.js:81-84 | sorting keeps parts within the axiom |
| `Rewrite.RewritePass` | src/PLSystem.js:68-104 | a pass fails exactly when collecting the parts fails |
| `Rewrite.NoPartsNoChange` | src/PLSystem.js:89-104 | a pass that accepts no match leaves the axiom unchanged |
| `Rewrite.IterateNoRules` | src/PLSystem.js:65-106 | without productions the axiom never changes and no draw is used |
| `Rewrite.IterateSplit` | src/PLSystem.js:65-106 | n + m passes are n passes followed by m passes, and an error stops the iteration |
| `Engine.Tagged` | src/PLSystem.js:110-111 | each match becomes one command occurrence, carrying its position, table place, action and values |
| `Engine.EntriesFromSpec` | src/PLSystem.js:108-113 | the scan from a table entry on appends, in table order, every match of every later entry |
| `Engine.EntriesSpec` | src/PLSystem.js:108-113 | the occurrences are in table order, come from matches of their entries, and include every match of every entry |
| `Engine.ScanCommands` | src/PLSystem.js:108-113 | the loops compute `Entries` |
| `Engine.CommandOrder` | src/PLSystem.js:111-118 | the comparator only sees starts (paramlength is undefined, so ties are NaN); the stable sort orders by start and then by table place |
| `Engine.SortedEntries` | src/PLSystem.js:115-118 | the sorted occurrences are a permutation, ordered by start and by (start, table place) |
| `Engine.NextStart` | src/PLSystem.js:125-127 | the call loop skips exactly the occurrences with the same start |
| `Engine.RunStep` | src/PLSystem.js:120-128 | each step evaluates the parameters and then calls, or stops with the evaluation error |
| `Engine.RunFromPrefix` | src/PLSystem.js:120-128 | calls are only appended, and an error can only be a formula error |
| `Engine.RunFromLeaders` | src/PLSystem.js:120-128 | each call is the first occurrence at its start and received its evaluated parameters |
| `Engine.RunFromIncreasing` | src/PLSystem.js:120-128 | calls are made at strictly increasing starts |
| `Engine.RunFromComplete` | src/PLSystem.js:120-128 | without an error, every start gets a call, even when spans overlap |
| `Engine.LeaderLowest` | src/PLSystem.js:115-127 | the first occurrence at a start has the lowest table place there |
| `Engine.CallCommands` | src/PLSystem.js:120-128 | the loop computes `RunFrom` |
| `Engine.RunCommandsChosen` | src/PLSystem.js:108-128 | each call is an occurrence found by the scan, with its evaluated parameters, and has the lowest table place at its start |
| `Engine.RunCommandsIncreasing` | src/PLSystem.js:115-128 | at most one call per start, in increasing order of start |
| `Engine.RunCommandsComplete` | src/PLSystem.js:120-128 | without an error every occurrence's start gets a call; an error is a formula error |
| `Engine.CompiledSymbols` | src/PLSystem.js:55-58 | compiled productions have non-empty symbols |
| `Engine.ProducedRejects` | src/PLSystem.js:35-60 | a NaN or negative count, or a bad rule line, ends produce before any rewriting or call; the error names the first bad line |
| `Engine.ProducedRuns` | src/PLSystem.js:32-129 | with valid rules and a count n, produce is n passes followed by the command stage, and a pass error stops it before any call |
| `Engine.RunPasses` | src/PLSystem.js:65-106 | the iteration loop computes `Iterate` |
| `Engine.PLSystem.Produce` | src/PLSystem.js:32-129 | the method computes `Produced` |
| `Commands.FuncsSymbols` | src/MainComponent.jsx:25-57 | every symbol of the table is non-empty |
| `Commands.TableOrdered` | src/MainComponent.jsx:25-57 | a symbol with several entries lists them by strictly decreasing arity, so no (symbol, arity) pair appears twice |
| `Commands.TableResolves` | src/MainComponent.jsx:25-57 | every entry makes its turtle call when its parameters are numbers |
| `Commands.DrawDispatch` | src/MainComponent.jsx:26-30 | `F`/2, `F`/1 and `F`/0 call `cylinder` with the parameters or the default length and diameter; `f`/1 and `f`/0 call `forward` |
| `Commands.TurnDispatch` | src/MainComponent.jsx:38-51 | `-`, `^` and `\` make the call of `+`, `&` and `/` (Z, Y, X) with the angle negated, both for a parameter and for the default angle |
| `Commands.HalfTurn` | src/MainComponent.jsx:53 | the vertical-bar symbol is `rotateZ(180)` |
| `Commands.OtherDispatch` | src/MainComponent.jsx:32-56 | `[` pushes, `]` pops and `$` sets vertical; `Box`/1 makes a cube; `Color`/3 and `EmColor`/3 set the colours; `Color`/0 resets them |
| `Commands.HighestArityWins` | src/MainComponent.jsx:25-57 | at a shared start, the call made is the highest-arity entry of its symbol that matched there |
| `Turtles.LineMesh` | src/Turtle.js:139-149 | the open line becomes a tube when the diameter is positive, a polyline otherwise, with the given material |
| `Turtles.Flushed` | src/Turtle.js:135-155 | flushing emits one mesh, or none exactly when the diameter is negative |
| `Turtles.NewMaterial` | src/Turtle.js:248-255 | a new material's specular colour is its diffuse colour, and white and black are the defaults |
| `Turtles.TurnBackX` | src/Turtle.js:169-176 | with exact trigonometry, turning about X by an angle and then by its negation restores the heading |
| `Turtles.TurnBackY` | src/Turtle.js:182-189 | the same for Y |
| `Turtles.TurnBackZ` | src/Turtle.js:195-202 | the same for Z |
| `Turtles.CreatedMembers` | src/Turtle.js:299-322 | without a failing entry, a light is created exactly for each entry that makes one |
| `Turtles.CreatedCount` | src/Turtle.js:299-322 | at most one light per entry, and one for each entry exactly when every entry makes one |
| `Turtles.DefaultLightsCreated` | src/Turtle.js:278-298 | an absent or empty list creates the hemispheric, directional and point defaults, with their intensities |
| `Turtles.Turtle.constructor` | src/Turtle.js:30-36 | a new turtle is in the reset state |
| `Turtles.Turtle.Reset` | src/Turtle.js:41-64 | origin, heading up, no rotation, empty stack, no open line, no meshes or lights, and exactly one default material |
| `Turtles.Turtle.SetVertical` | src/Turtle.js:69-72 | rotation cleared and heading up; the invariant is kept |
| `Turtles.Turtle.Push` | src/Turtle.js:77-86 | the stack grows by a snapshot of position, heading, rotation, material and open line; nothing else changes |
| `Turtles.PopUndoesPush` | src/Turtle.js:77-100 | pop right after push gives back the whole state, meshes included |
| `Turtles.PopAfterChanges` | src/Turtle.js:77-100 | whatever happens between push and pop, pop restores the saved position, heading, rotation, material and open line, and keeps the meshes, materials and lights made in between |
| `Turtles.Turtle.Pop` | src/Turtle.js:91-100 | the last snapshot is restored and removed, without flushing the open line or touching the meshes; with an empty stack nothing changes |
| `Turtles.Turtle.Cylinder` | src/Turtle.js:108-121 | a negative length or diameter changes nothing; otherwise the position advances, and the open line is extended exactly when the diameter matches and the line ends at the old position, or else is flushed and restarted |
| `Turtles.Turtle.Line` | src/Turtle.js:128-130 | a cylinder of diameter 0 |
| `Turtles.Turtle.FinishCurrentLine` | src/Turtle.js:135-155 | the open line is flushed into at most one mesh with the current material, and the line is closed |
| `Turtles.Turtle.Forward` | src/Turtle.js:161-163 | the position advances by the heading times the length |
| `Turtles.Turtle.RotateX` | src/Turtle.js:169-176 | the rotation's X component grows by the angle in radians, and the heading turns about X |
| `Turtles.Turtle.RotateY` | src/Turtle.js:182-189 | the same about Y |
| `Turtles.Turtle.RotateZ` | src/Turtle.js:195-202 | the same about Z |
| `Turtles.Turtle.Cube` | src/Turtle.js:208-214 | one box is appended at the position with the current rotation and material; the position and the open line are untouched |
| `Turtles.Turtle.SetColor` | src/Turtle.js:222-224 | the open line is flushed with the old material, then one new material with that colour is appended and made current |
| `Turtles.Turtle.SetEmissiveColor` | src/Turtle.js:232-234 | the same, with an emissive colour |
| `Turtles.Turtle.ResetColors` | src/Turtle.js:239-241 | the same, with the default material |
| `Turtles.Turtle.SetMaterial` | src/Turtle.js:248-255 | flush, then append and select the new material |
| `Turtles.Turtle.Finalize` | src/Turtle.js:269-271 | the open line is flushed |
| `Turtles.Turtle.AddLights` | src/Turtle.js:277-323 | the lights created from the list, or from the defaults when it is absent or empty, are appended; it reports whether an entry failed |
| `Turtles.Turtle.AddEach` | src/Turtle.js:299-322 | the loop appends the lights of the entries up to the first that fails |
| `MainComponent.ConfigData.constructor` | src/MainComponent.jsx:168 | the configuration fields as loaded |
| `MainComponent.ProcessConfigData` | src/MainComponent.jsx:168-180 | a list of rule lines becomes one text joined with line breaks; the configuration is named; a falsy `autorotate` becomes false; missing lights become an empty list |
| `MainComponent.SavedProductions` | src/MainComponent.jsx:264 | the saved rule lines are non-empty and hold no line break |
| `MainComponent.ProductionsRoundTrip` | src/MainComponent.jsx:173-174 | a list of non-empty lines without line breaks, joined when loaded and split and filtered when saved (line 264), comes back unchanged |
| `MainComponent.TextRoundTrip` | src/MainComponent.jsx:264 | a text without empty lines, saved (split and filtered) and loaded again (joined at line 174), comes back unchanged |
| `MainComponent.Perform` | src/MainComponent.jsx:25-57 | running a table action changes the turtle's whole state exactly as `Step` says: the turtle method it names, applied to the old state |
| `MainComponent.StepSound` | src/MainComponent.jsx:25-57 | every turtle call keeps the open-line invariant, never touches the lights, and only appends meshes and materials |
| `MainComponent.AppliedSound` | src/PLSystem.js:120-128 | a whole sequence of calls, applied in order, keeps the invariant and the lights and only appends meshes and materials |
| `MainComponent.Draw` | src/PLSystem.js:120-128 | making produce's calls in order leaves the turtle in `Applied`, the state after each resolved call's `Step` in turn |
| `MainComponent.Redraw` | src/MainComponent.jsx:228-254 | reset, add lights, produce, apply produce's calls in order, then flush only when produce reported no error; a failing light entry ends it after reset and the lights; the outcome is produce's |
| `MainComponent.RedrawLights` | src/MainComponent.jsx:228-234 | after a redraw the state is sound, its lights are exactly the created ones, and the default material comes first |

## Left out

- mathjs and `Math.random` are abstract: `Evaluator.eval` and `Evaluator.random` are parameters.
  The arithmetic and the formatting of results are not modelled. `Display` gives the text a value
  has when it is concatenated into the body.
- The browser check and the `=` to `==` replacement (src/PLSystem.js:50-53) are not modelled.
  Outside Safari, the original rewrites the first literal `/=/` in a condition to `==`: the pattern
  has no `g` flag, and it is built from a string that contains the slashes. The model passes
  every condition to the evaluator unchanged, so a condition holding that literal text is not
  modelled.
- The rule regular expression's `.` does not match line terminators. Lines are split on `\n`
  only, and a `\r` or other terminator inside a line is treated as an ordinary character.
- The floating-point rotations and `degtorad` are abstract: `Trig` supplies radians, sine and
  cosine. `Turtles.TurnBackX`, `TurnBackY` and `TurnBackZ` hold only under the exact identities
  of `Exact`.
- Babylon meshes, materials, lights, the scene, and `dispose` in `reset`: meshes, materials and
  lights are records in sequences, and `reset` empties them. Vectors and colours are records,
  not arrays.
- Aliasing: the original clones the vectors and slices the open line when it saves a
  snapshot. In the model these are values, so a snapshot cannot be altered later by
  construction.
- The camera, framing, auto-rotation, `setState`, file upload and download, and the rest of the
  user interface are not modelled. `src/App.js` is not part of this model.
- `MainComponent.Redraw`: the error text shown to the user is not modelled. A directional light
  without a direction makes the light constructor throw an exception that is not a
  `plSystemException`. The model reports that as `None`, which ends the redraw before
  `produce`.
- `MainComponent.Redraw`: produce's turtle calls run in the original while produce runs. The model
  records them and applies them afterwards. This is equivalent, because parameter evaluation
  never reads the turtle and turtle calls never fail.
- `Commands.Resolve`: a parameter that is not a number (or boolean) leaves the call unmade. The
  original still makes the call, with JavaScript's coercion of the argument. A numeric string
  such as `"3"` then moves or turns the turtle; other values give NaN.
- `MainComponent.ProcessConfigData`: `autorotate` is `Option<bool>`. A truthy value other than
  `true` (a number or a string, say) is not modelled.
- Iteration counts are integers or NaN. String input and non-integer counts, which run the
  rounded-up number of passes, are not modelled.
- `Expressions.EvalParamValues` returns the evaluated values instead of overwriting the array in
  place. Nothing else reads that array.
- `Array.prototype.sort` is modelled by its result, a stable sort. Which sorting algorithm the
  engine runs is not modelled.
- `Grammar.SplitParam`: the `sym === undefined` check (src/PLSystem.js:140-142) cannot fail,
  because the symbol group always matches, so it has no error path.
