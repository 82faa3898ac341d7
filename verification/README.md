# Model of the expression evaluator

This project models the parts of the evaluator in `src/libexpr` where a compiled, cached,
in-place or otherwise fast form has to agree with a simple one, and proves that it does.

* **Lexical addressing.** `Scope` says which (level, displacement) pair or `with` chain a name
  resolves to; `BindVars` and `BindTree` are the pass that writes these numbers into the nodes
  of the parser's tree and are proved to leave exactly what `Scope` says. `NamedEval` evaluates
  by name and `AddressedEval` follows the numbers blindly, both lazily, with a heap of cells that
  are overwritten when forced, black holes, closures, `rec`, `inherit (src)`, `with`,
  `__overrides`, formals with defaults and functors; `EvalLoops` has the loops that climb and fill
  environments. `Correspondence` and `Simulation` relate the two machine states step by step,
  `LexicalAddressing`, `EnclosingWiths` and `Programs` state the results, and `Observation` says
  what can be seen of a value. Fuel bounds the depth of evaluation; the two evaluators use it in
  the same way, so a theorem for every amount of fuel covers results, errors and divergence.
* **Meaning.** `BigStep` has the rules of a semantics without fuel and their derivations,
  `Adequacy` shows that the evaluator by name computes what can be derived and nothing else,
  `Laws` reads off which expressions mean the same, when a path is found and what `//` denotes,
  `SortedSets` that every rule keeps sets sorted, and `Frames` what environments hold and which
  one a name belongs to.
* **Reuse by `maybeThunk`.** `Sharing` and `SharingSim` relate a run that suspends every
  expression to one that hands out environment slots and constants, with the same fuel;
  `SharingEnds` shows that the first ends, given more fuel, whenever the second does; `FuelMono`
  shows that more fuel changes no outcome, and `Reuse` states the results, with a program that
  tells the two runs apart when `__overrides` replaces a slot that was handed out.
* **The evaluation cache.** `EvalCache` has the row table with fresh ids, the writing and reading
  methods, and any number of cursor objects that share it. A ghost trace records the path that
  every id was issued for, stale ids included.
* **Attribute sets.** `SortedAttrs` relates sorted arrays to finite maps. `LayeredSets` is the
  layered representation (a sorted array on top of a base, lookup newest first, iteration by
  k-way merge) and `//` over whole trees of operands; `AttrsEval` is the construction of a set
  from static, overriding and dynamic attributes; `ListToAttrs` sorts and unpacks in one shared array;
  `ZipAttrs` counts and then fills.
* **Equality, order, closure.** `Equality` has both comparisons of the source, `Ordering` the
  key order, `KeyEquality` connects the two and says what equal values, sets and derivations
  among them, have in common, and `Closure` is the worklist of `genericClosure` with
  its search tree of keys.
* **Application and deep forcing.** `Application` is `callFunction` against one-at-a-time
  application; `DeepForce` walks a possibly cyclic graph.
* **Traversal, selection, parsing.** `AttrPath` and `GetDrvs` relate the paths a search
  reports to the selection that follows them; `JsonSax` relates the event-driven parser state to
  a nested conversion.

Results that hold only under a condition come with a concrete counterexample: integers in the
cache (`ReadTwice`, `SecondReadIsTruncated`), list indices in paths (`PathsCanBeFollowed`), primops that
return unevaluated values (`CallsSplitExactlyWhenEvaluated`, `DelayedResultDiffers`), paths of different accessors
(`PathsNeedOneAccessor`), the last call level of the two comparisons (`SameDepthExactly`,
`LastCallDiffers`), reuse
under `__overrides` (`OverridesMakeReuseVisible`).

Where comments and code differ the code was followed: the comment in `assertEqValues`
(`src/libexpr/eval.cc:2757`) promises to follow `eqValues` literally, but comparing two numbers
nests one call deeper there.

## Model

| member | source | states |
|---|---|---|
| `Programs.BindProgram` | src/libexpr/nixexpr.cc:315-554 | End to end: when the in-place pass succeeds, evaluating by the numbers it left in the nodes shows what evaluating by name shows, in every part of the result (any path of list positions and attribute names, forced as it is looked at), for every base environment, in corresponding heaps whose values and suspended code may live in any further environments, and every amount of fuel; otherwise its error is the one scoping prescribes |
| `LexicalAddressing.AddressingPreservesMeaning` | src/libexpr/eval.cc:889-920 | Compiler correctness: a bound expression run by (level, displacement) in a matching environment has the outcome of the named one (corresponding value and state, same error, or no fuel), for every construct, and the machine never gets stuck |
| `LexicalAddressing.ForcingAgrees` | src/libexpr/eval.cc:1369-1374 | The same for forcing any cell of corresponding heaps, so for every suspended value |
| `LexicalAddressing.ProgramsAgree` | src/libexpr/eval.cc:1157-1160 | Whatever part of the result of a program is looked at, from any corresponding states, what is seen does not depend on how variables are found, and no stuck machine is ever seen |
| `LexicalAddressing.UndefinedExactlyWhenUnbound` | src/libexpr/nixexpr.cc:340-346 | `bindVars` reports an undefined variable if and only if no scope declares the name and no `with` encloses it |
| `LexicalAddressing.LexicalBeatsWith` | src/libexpr/nixexpr.cc:323-338 | A lexical binding at any depth is what a variable denotes, whatever `with` sets enclose it, and the lookup yields it with the state unchanged: no set is forced |
| `LexicalAddressing.WithVisitsAll` | src/libexpr/nixexpr.cc:529-554 | The frames `lookupVar` passes are exactly the enclosing `with` frames, innermost first, each once: every `prevWith` hop lands on the frame of `parentWith` |
| `LexicalAddressing.TrailFrom` | src/libexpr/eval.cc:902-919 | From the frame of any `with` node the recorded hops enumerate the `with` frames from there outwards |
| `EnclosingWiths.WithOutcome` | src/libexpr/eval.cc:901-920 | A `with` lookup asks the sets that enclosed the variable at the start, innermost first, each forced only when those before it lack the name, whatever the forcing does to the heap; undefined when none has it |
| `EnclosingWiths.WithLookup` | src/libexpr/eval.cc:889-920 | The lookup by level and `prevWith` hops has the outcome of asking those sets in turn |
| `EnclosingWiths.EvaluatedOutcome` | src/libexpr/eval.cc:901-920 | When the sets are evaluated already, the attribute is that of the first that has the name, undefined if and only if none has it, and nothing changes |
| `EnclosingWiths.EvalStays` | src/libexpr/eval.cc:1195-1374 | Over every evaluation, no environment gets another outer one and no `with` another set |
| `Simulation.SimEval` | src/libexpr/eval.cc:1195-1374 | Lock step simulation of the two evaluators over every expression form |
| `Simulation.SimWith` | src/libexpr/eval.cc:904-919 | The runtime walk over `with` frames by hops is the walk over enclosing scopes |
| `Simulation.SimPattern` | src/libexpr/eval.cc:1556-1600 | Matching a set against formals fills the frame slot by slot as binding the names one by one does, with the same missing or unexpected argument |
| `Simulation.SimOverrides` | src/libexpr/eval.cc:1264-1291 | Writing `__overrides` into slots by displacement redefines exactly the overridden names |
| `Correspondence.FindIsSlot` | src/libexpr/nixexpr.cc:315-338 | The (level, displacement) that scoping assigns to a name leads to the slot the walk by name finds |
| `Correspondence.FillRel` | src/libexpr/eval.cc:1243-1262 | Filling the slots of a `let` or `rec` frame in order is declaring the names, including slots that are still empty while earlier ones are filled |
| `Correspondence.CountDecides` | src/libexpr/eval.cc:1559-1600 | Comparing the count of used arguments with the size of the set decides whether an argument is unexpected; the search for its name then always finds one |
| `BindVars.Find` | src/libexpr/include/nix/expr/nixexpr.hh:921-928 | The binary search over a sorted frame finds the displacement of a name if and only if the frame binds it |
| `BindVars.ClimbFrames` | src/libexpr/nixexpr.cc:323-338 | The loop over `up` finds the innermost frame that binds the name, and otherwise the level of the nearest `with` |
| `BindVars.NearestWith` | src/libexpr/nixexpr.cc:346-347 | The loop that sets `fromWith` and `parentWith` finds the nearest enclosing `with` node |
| `BindVars.PreviousWith` | src/libexpr/nixexpr.cc:541-550 | The level stored in `prevWith` is the distance to the next `with` frame, 0 if there is none |
| `BindVars.BindVar` | src/libexpr/nixexpr.cc:315-349 | The fields written into a variable node are its scoping address, or the error is that it is undefined |
| `BindVars.BindWithNode` | src/libexpr/nixexpr.cc:529-550 | The fields written into a `with` node are the distance and the parent node that scoping prescribes |
| `BindVars.FirstNodeStands` | src/libexpr/nixexpr.cc:529-550 | Following `parentWith` and `prevWith` from node to node gives the chain that scoping prescribes |
| `BindVars.DefsFrame` | src/libexpr/nixexpr.cc:508-516 | The table built with a running displacement is the sorted table of the defined names |
| `BindVars.LamFrame` | src/libexpr/nixexpr.cc:466-479 | Argument first, formals after it, then sorted: the table still maps each name to its slot |
| `BindTree.Bind` | src/libexpr/nixexpr.cc:286-598 | The whole in-place walk: afterwards the nodes, with every chain followed field by field, hold what the scoping function computes for the erased tree, or the walk stopped with its error; only nodes of the tree are written |
| `BindTree.BindWith` | src/libexpr/nixexpr.cc:529-554 | The node, its attribute expression outside and its body inside the new frame |
| `Adequacy.GivesExactlyDerived` | src/libexpr/eval.cc:1195-1374 | The evaluator by name, given enough fuel, ends with an outcome if and only if a big-step derivation, one rule for each form, ends in it: for every expression, environment, state, value and error |
| `Adequacy.OneOutcome` | src/libexpr/eval.cc:1195-1374 | An expression has at most one outcome |
| `Laws.IfTrue` | src/libexpr/eval.cc:1836-1840 | `if true then a else b` has exactly the outcomes of `a` |
| `Laws.IfFalse` | src/libexpr/eval.cc:1836-1840 | `if false then a else b` has exactly the outcomes of `b` |
| `Laws.IfNot` | src/libexpr/eval.cc:1867-1870 | `if !c then a else b` has exactly the outcomes of `if c then b else a` |
| `Laws.NotIsIf` | src/libexpr/eval.cc:1867-1870 | `!c` has exactly the outcomes of `if c then false else true` |
| `Laws.OperatorIsIf` | src/libexpr/eval.cc:1890-1908 | `&&`, `\|\|` and `->` have exactly the outcomes of the conditionals they abbreviate, with the second operand evaluated only where it decides |
| `Laws.AssertIsIf` | src/libexpr/eval.cc:1842-1865 | `assert c; e` is `e` under the condition `c`; a false condition is an assertion error, whatever `e` is |
| `Laws.UpdateMeans` | src/libexpr/eval.cc:1911-1996 | `a // b` evaluates `b`, then `a`; the result is sorted, and each name has what `b` has for it, and else what `a` has |
| `Laws.UpdateGives` | src/libexpr/eval.cc:1911-1996 | Two operands that are sets do have such an update |
| `Laws.HasAttrDecidesSelect` | src/libexpr/eval.cc:1397-1497 | For a path of names: when `?` is true, `.` finds an attribute along the path and is that attribute forced, whatever the default; when it is false, `.` with a default is the default |
| `Laws.SameMeaningShowsSame` | src/libexpr/eval.cc:1195-1374 | Expressions with the same outcomes show the same at any part of the result; so every law above is one of observation |
| `SortedSets.SetsAreSorted` | src/libexpr/eval.cc:1232-1327 | Every set that evaluation makes, in the result or on the heap, stays strictly sorted by name, for code whose definitions stand in the order of their names |
| `Frames.InnermostDecides` | src/libexpr/eval.cc:889-920 | A name denotes what the innermost environment that declares it holds for it, and nothing if none does |
| `Frames.DeclareMeans` | src/libexpr/eval.cc:1252-1262 | Each definition of a `let` or `rec` is suspended in its own new cell: plain ones inside, inherited ones outside, `inherit (src)` ones with the sources; and the frame binds each name to its cell |
| `Frames.ThunkDefsMean` | src/libexpr/eval.cc:1291-1296 | The same for the attributes of a set that is not recursive, which bind no name |
| `Frames.FormalsMean` | src/libexpr/eval.cc:1556-1578 | Each formal is bound to the argument of its name, or else to its suspended default; the first formal with neither is the error |
| `Frames.UnexpectedMeans` | src/libexpr/eval.cc:1580-1602 | An argument is unexpected exactly when no formal has its name, and the first such is reported |
| `Frames.ThunksMean` | src/libexpr/eval.cc:1353-1359 | The expressions of a list are suspended one by one, each in its own new cell |
| `Reuse.ReuseIsSound` | src/libexpr/eval.cc:1026-1067 | `maybeThunk` is a sound optimisation on whole programs without `__overrides` in a `rec`: from any clean state and for any part of the result, what the run that suspends everything can show is exactly what the run that reuses slots and constants can show, so one ends if and only if the other does |
| `Reuse.FinishedRunsAgree` | src/libexpr/eval.cc:1026-1067 | Two runs that both show something, one with and one without reuse, agree whatever fuel each had |
| `Reuse.ReuseCostsNoFuel` | src/libexpr/eval.cc:1026-1067 | What the suspending run shows, the reusing run shows with the same fuel |
| `Reuse.SuspendingRunCatchesUp` | src/libexpr/eval.cc:1026-1067 | What the reusing run shows, the suspending run shows with enough fuel |
| `Reuse.ReusePreservesEvaluation` | src/libexpr/eval.cc:1026-1067 | Both ways for every clean expression in corresponding heaps, with closures and suspended values in them: corresponding values, or the same error |
| `Reuse.ReusePreservesForcing` | src/libexpr/eval.cc:1033-1043 | A slot that was handed out forces to the value, or the error, that the thunk in its place would have, and ends if and only if that does |
| `Reuse.OverridesMakeReuseVisible` | src/libexpr/eval.cc:1264-1291 | A concrete program with `__overrides` whose result is 1 with reuse and 5 without |
| `Sharing.MaybeThunks` | src/libexpr/eval.cc:1026-1067 | One `maybeThunk` in both runs, including a slot that is not filled yet, where both suspend |
| `Sharing.FillBoth` | src/libexpr/eval.cc:1341-1344 | Filling a `let` or `rec` frame in order keeps the runs in step although later slots are still empty |
| `SharingSim.SimForce` | src/libexpr/eval.cc:1033-1043 | When forcing a suspended cell ends, forcing the slot it stands for ends alike with the same fuel, through any chain of such cells, with black holes along the chain |
| `SharingSim.SimEval` | src/libexpr/eval.cc:1195-1374 | Every expression form: when the suspending run ends, the reusing run ends alike with the same fuel |
| `SharingEnds.EndsForce` | src/libexpr/eval.cc:1033-1043 | When forcing a slot ends, so does forcing any chain of suspended variables that stands for it, given enough fuel |
| `SharingEnds.MeetEval` | src/libexpr/eval.cc:1195-1374 | Every expression form: when the reusing run ends, the suspending run ends with some more fuel, and alike |
| `FuelMono.MoreEval` | src/libexpr/eval.cc:1195-1374 | More fuel changes no outcome reached with less |
| `EvalLoops.LookupVarLoop` | src/libexpr/eval.cc:889-920 | The climbing loop and the loop over `with` sets, with the environment and the node as running variables, find what the recursive walk finds |
| `EvalLoops.FillLoop` | src/libexpr/eval.cc:1252-1262 | The loop with a running displacement fills the frame and builds the attribute array as the recursive definition does |
| `EvalLoops.FormalsLoop` | src/libexpr/eval.cc:1559-1578 | The loop over formals fills the frame and counts the arguments used |
| `EvalLoops.ThunksLoop` | src/libexpr/eval.cc:1220-1230 | The loop over `inherit` sources, and those over call arguments and list elements, suspend one expression after the other |
| `LayeredSets.LayerOnTopOf` | src/libexpr/include/nix/expr/attr-set.hh:476-511 | A new layer on top of a base stands for the base overridden by it, and its size counts distinct names |
| `BindTree.BindLet` | src/libexpr/nixexpr.cc:505-527 | Sources and plain definitions in the new frame, inherited ones outside, then the body |
| `BindTree.BindAttrs` | src/libexpr/nixexpr.cc:412-450 | The same for attribute sets, recursive or not, with dynamic attributes last |
| `BindTree.BindDefs` | src/libexpr/nixexpr.cc:431-443 | Every definition is bound in the environment its kind chooses |
| `BindTree.BindLambda` | src/libexpr/nixexpr.cc:461-492 | Defaults and body are bound in the frame of the argument and formals |
| `EvalCache.Cache.GetRoot` | src/libexpr/eval-cache.cc:317-330 | A root cursor stands for the empty path and changes no row |
| `EvalCache.Run` | src/libexpr/eval-cache.cc:438-697 | Over any sequence of steps by any number of cursors, every answer agrees with direct evaluation at the path of its cursor, and the table stays sound |
| `EvalCache.Take` | src/libexpr/eval-cache.cc:438-697 | One step of one cursor: the answer agrees with direct evaluation and all invariants are kept |
| `EvalCache.PutOk` | src/libexpr/eval-cache.cc:122-137 | Replacing or adding a row keeps every stored row sound for the path of its key, although the old id goes stale |
| `EvalCache.NoMissingBelowFull` | src/libexpr/eval-cache.cc:122-137 | No Missing row ever stands under the id of a complete attribute list |
| `EvalCache.AttrDb.Put` | src/libexpr/eval-cache.cc:163-241 | Insert or replace under a fresh id; the table invariants are kept |
| `EvalCache.AttrDb.SetAttrs` | src/libexpr/eval-cache.cc:122-137 | The row and its placeholders make the names under the new id exactly the names of the set |
| `EvalCache.AttrDb.FillSet` | src/libexpr/eval-cache.cc:129-133 | The placeholder loop adds exactly the names of the set |
| `EvalCache.AttrDb.GetAttr` | src/libexpr/eval-cache.cc:243-287 | The row under a key as it is held in memory; for a complete list, its child names |
| `EvalCache.AttrCursor.GetKey` | src/libexpr/eval-cache.cc:332-341 | The key of a cursor names its path: parent id and name |
| `EvalCache.AttrCursor.FetchCachedValue` | src/libexpr/eval-cache.cc:359-365 | What a cursor reads back is sound for its path; a remembered failure is reported |
| `EvalCache.AttrCursor.GetValue` | src/libexpr/eval-cache.cc:343-357 | The value of a cursor is the one at its path |
| `EvalCache.AttrCursor.ForceValue` | src/libexpr/eval-cache.cc:394-426 | Forcing answers as direct evaluation does and stores a sound row, Misc for whatever is no set, string, path, integer or boolean |
| `EvalCache.AttrCursor.MaybeGetAttr` | src/libexpr/eval-cache.cc:438-494 | A cursor for the attribute is returned only if direct evaluation has it; otherwise none. It is an error exactly when evaluation at the path of the cursor fails, or the row of an incomplete set is held and the row of the attribute under it records a failure. A new child holds what its row says; for an existing attribute all rows stay and the new ones are placeholders |
| `EvalCache.AskAttr` | src/libexpr/eval-cache.cc:438-494 | A client with a new root cursor opens an existing attribute anywhere, in any state of the cache: an error if and only if the set is stored as incomplete and the attribute as failed, and else a cursor for it |
| `EvalCache.FailureIsRemembered` | src/libexpr/eval-cache.cc:454-455 | In any state of the cache in which nothing is known of a set and its failing attribute, a first client opens the attribute and its value is an error; then every new client is refused the attribute itself |
| `EvalCache.FailureIsRememberedAfresh` | src/libexpr/eval-cache.cc:454-455 | The same in a new cache of any world |
| `EvalCache.AttrCursor.GetAttrs` | src/libexpr/eval-cache.cc:667-697 | The names answered are those of the set, cached or not |
| `EvalCache.AttrCursor.GetString` | src/libexpr/eval-cache.cc:528-547 | The string answered, or the type error, is that of direct evaluation |
| `EvalCache.AttrCursor.GetBool` | src/libexpr/eval-cache.cc:592-611 | The boolean answered, or the type error, is that of direct evaluation |
| `EvalCache.AttrCursor.GetInt` | src/libexpr/eval-cache.cc:613-632 | The integer answered is the one held in memory or read from the row, as it is, and the direct one when there is neither; then the row gets it as a C `int` |
| `EvalCache.FindAlongAttrPath` | src/libexpr/eval-cache.cc:514-526 | The loop from a new root cursor down any existing path, in any state of the cache, ends at a cursor that the rows lead to and that agrees with its row; rows on the path keep their ids |
| `EvalCache.ReadInt` | src/libexpr/eval-cache.cc:613-632 | Asking for the integer at any path, in any state of the cache: exact unless an integer is stored for the path, else the stored one; afterwards the C `int` is stored |
| `EvalCache.ReadTwice` | src/libexpr/eval-cache.cc:174-183 | Two clients ask for an integer at any path, in any state of the cache that stores none for it: the first answer is exact, the second went through a C `int` and is exact if and only if the integer fits one |
| `EvalCache.ReadTwiceAfresh` | src/libexpr/eval-cache.cc:174-183 | The same for a new cache of any world with an integer anywhere: some answer is inexact unless it fits a C `int` |
| `EvalCache.AnswersExactWhenIntsFit` | src/libexpr/eval-cache.cc:174-183 | If every integer at a path that exists fits a C `int`, every answer of every run is that of direct evaluation |
| `EvalCache.SecondReadIsTruncated` | src/libexpr/eval-cache.cc:174-183 | A concrete loss: for `x` in `{ x = 2147483648; }` 2^31 is answered first, -2^31 to the next client, in a run of the methods |
| `LayeredSets.Lookup` | src/libexpr/include/nix/expr/attr-set.hh:353-384 | Searching the layers newest first is lookup in the finite map the chain stands for |
| `LayeredSets.Iterator.MoveNext` | src/libexpr/include/nix/expr/attr-set.hh:241-327 | The k-way merge goes to the next larger name of the map, with the value of the newest layer that has it |
| `LayeredSets.Elements` | src/libexpr/include/nix/expr/attr-set.hh:130-345 | Iteration lists the map: strictly ascending, each name once, as many entries as the recorded size |
| `LayeredSets.CountByWalk` | src/libexpr/include/nix/expr/attr-set.hh:496-503 | Walking base and new layer side by side counts exactly the names they share |
| `LayeredSets.CountByLookup` | src/libexpr/include/nix/expr/attr-set.hh:503-508 | Looking every new name up counts exactly the names shared |
| `LayeredSets.MergeArrays` | src/libexpr/eval.cc:1950-1981 | The two-pointer merge of two sets is the sorted right-biased union |
| `LayeredSets.Update` | src/libexpr/eval.cc:1911-1984 | `//` is map override, whichever of the empty, layering or merging paths is taken, and the result is a valid set |
| `LayeredSets.EvalForUpdate` | src/libexpr/eval.cc:1998-2016 | The queue holds the leaves of a tree of `//` from right to left |
| `LayeredSets.FoldQueue` | src/libexpr/eval.cc:1986-1996 | Folding the queue overlays the leaves from left to right |
| `LayeredSets.EvalUpdate` | src/libexpr/eval.cc:1986-2016 | For every tree of `//` nodes the result is the overlay of its leaves |
| `LayeredSets.RightmostWins` | src/libexpr/eval.cc:1986-2016 | In that overlay each name has the value of the rightmost leaf that defines it |
| `LayeredSets.AbsOfMerge` | src/libexpr/eval.cc:1950-1981 | Merging sorted arrays is map override by the right operand |
| `AttrsEval.EvalAttrs` | src/libexpr/eval.cc:1232-1327 | Result sorted and duplicate-free; static attributes, overridden, extended by the non-null dynamic names; an error exactly on a name defined twice or a name that is no string; each slot of the `rec` environment ends as the final binding |
| `AttrsEval.ApplyOverrides` | src/libexpr/eval.cc:1264-1291 | Overriding keeps the array sorted, equals map override, and rewrites exactly the slots of overridden names |
| `AttrsEval.ApplyDynamic` | src/libexpr/eval.cc:1298-1324 | The first offending dynamic name in order decides the error; `get` is only called on a sorted array |
| `AttrsEval.AddNamed` | src/libexpr/eval.cc:1305-1323 | One dynamic name: refused if and only if it is defined already |
| `ListToAttrs.ListToAttrs` | src/libexpr/primops.cc:3258-3307 | The map in which the first list occurrence of each name wins, sorted; otherwise the first error |
| `ListToAttrs.Unpack` | src/libexpr/primops.cc:3288-3301 | In the loop over the one shared array the write index never passes the read index and the kept entries are the first of each run |
| `ListToAttrs.PushBack` | src/libexpr/primops.cc:3288-3301 | Writing an entry behind the ones kept never overwrites an unread one |
| `ListToAttrs.SortRefsSorted` | src/libexpr/primops.cc:3283-3286 | Sorting orders by name and, for equal names, by list position |
| `ZipAttrs.CountPass` | src/libexpr/primops.cc:3553-3558 | The first pass counts the occurrences of every name |
| `ZipAttrs.FillSet` | src/libexpr/primops.cc:3564-3567 | Each value goes to the next free position of its name |
| `ZipAttrs.FillPass` | src/libexpr/primops.cc:3560-3568 | No position passes the counted size and all end equal to it |
| `ZipAttrs.ZipAttrs` | src/libexpr/primops.cc:3531-3584 | Each name has exactly its values in list order |
| `ZipAttrs.NothingLost` | src/libexpr/primops.cc:3531-3584 | The lengths of the lists sum to the number of input attributes |
| `Equality.ComparisonsMatch` | src/libexpr/eval.cc:2630-2927 | Where every comparison ends, `assertEqValues` succeeds if and only if `eqValues` is true |
| `Equality.AssertImpliesEq` | src/libexpr/eval.cc:2630-2835 | Success of the asserting comparison at any call depth is truth of the other at the same depth |
| `Equality.EqImpliesAssert` | src/libexpr/eval.cc:2838-2927 | Truth of `eqValues` gives success of `assertEqValues` with one more call level |
| `Equality.LastCallDiffers` | src/libexpr/eval.cc:2641-2655 | At the last call level the two differ: an integer comparison in the asserting version nests one call deeper |
| `Equality.SameDepthExactly` | src/libexpr/eval.cc:2630-2927 | At the same depth the two have the same outcome if and only if `eqValues` runs out of depth itself or never compares integers at two different addresses by its last call |
| `KeyEquality.GraphIsKey` | src/libexpr/eval.cc:2838-2927 | Where value graphs unfold to keys, `eqValues` on the graphs decides, given room, and as equality of the keys does |
| `KeyEquality.OneEquality` | src/libexpr/eval.cc:2630-2927 | On keys of one comparable type `eqValues` and `assertEqValues` on the graph hold exactly when neither key is below the other |
| `KeyEquality.EqualityIsSameContent` | src/libexpr/eval.cc:2838-2927 | On values through lists and sets, where a derivation counts as its output path, a decision of `eqValues` is sameness of content |
| `KeyEquality.Decides` | src/libexpr/eval.cc:2838-2927 | On such values `eqValues` decides, given as many call levels as the value has |
| `KeyEquality.PackagesByOutput` | src/libexpr/eval.cc:2888-2895 | Two sets with `type` equal to the string "derivation" and an `outPath` compare as these paths do, in both comparisons, whatever else they hold |
| `KeyEquality.SetsByField` | src/libexpr/eval.cc:2897-2906 | Any other two sets are compared attribute by attribute, unless forcing a `type` fails; different sizes are unequal |
| `KeyEquality.EqualFields` | src/libexpr/eval.cc:2900-2906 | Sets of one size are equal if and only if the names are the same and every pair of values is |
| `Equality.MismatchIsMissing` | src/libexpr/eval.cc:2757-2783 | Two sorted sets of equal size that agree on a prefix and then differ in name each lack the other's name, so the `assert(false)` is never reached |
| `Ordering.IntsBySize` | src/libexpr/primops.cc:741-742 | Integers are ordered by size |
| `Ordering.TextsByFirst` | src/libexpr/primops.cc:745-751 | Strings, and paths by their text, are below one another exactly when they agree up to some place where the one ends, and the other does not, or has the smaller character |
| `Ordering.ListsByFirstDifference` | src/libexpr/primops.cc:752-763 | A list is below another exactly when they agree, by `eqValues`, up to some place where the one ends, and the other does not, or has the smaller element |
| `Ordering.TypedListsByFirstDifference` | src/libexpr/primops.cc:752-763 | The same for lists of one comparable type, where the elements before that place are equal |
| `Ordering.PlainComparable` | src/libexpr/primops.cc:728-770 | Values that are not both lists can be compared exactly when both are integers, both strings or both paths |
| `Ordering.StrictWeakOrder` | src/libexpr/primops.cc:705-780 | On values of one comparable type the order is irreflexive, asymmetric, transitive, and incomparability is equality |
| `Ordering.Trichotomy` | src/libexpr/primops.cc:705-780 | Exactly one of a < b, b < a and `eqValues` holds |
| `Ordering.Transitive` | src/libexpr/primops.cc:705-780 | The order is transitive on all values, of whatever types, through nested lists |
| `Ordering.Asymmetric` | src/libexpr/primops.cc:705-780 | On all values the order is asymmetric, and a comparison is an error either way round or not at all |
| `Ordering.AlikeCompare` | src/libexpr/primops.cc:705-780 | A value comparable with another is comparable with all that are alike it |
| `Ordering.EqIsIdentity` | src/libexpr/eval.cc:2838-2927 | On comparable values `eqValues` is identity |
| `Ordering.PathsNeedOneAccessor` | src/libexpr/primops.cc:757-762 | Paths of different accessors are ordered by text and yet not equal, so the law needs one accessor |
| `Closure.GenericClosure` | src/libexpr/primops.cc:784-897 | For keys of any types, provided that the worklist accepts finitely many: the result is the fixpoint of first arrivals, one element per key, grounded, in order of arrival. An error is returned if and only if the worklist reaches an element without a key, one whose key cannot be compared with an accepted one, or one with a new key whose operator fails, and it is the error of the first such element |
| `Closure.ClosureIsUnique` | src/libexpr/primops.cc:784-897 | That characterisation has one solution, so it determines the list |
| `Closure.ClosureIsClosed` | src/libexpr/primops.cc:784-897 | Every start element and every operator output of a result element is in the result or has the key of a result element |
| `Closure.OccursOnce` | src/libexpr/primops.cc:838-843 | No two elements of the result have equal keys |
| `Closure.KeysExactlyArriving` | src/libexpr/primops.cc:784-897 | With keys of one comparable type the result has exactly the keys that arrive |
| `Closure.RegionIsEnough` | src/libexpr/primops.cc:784-897 | Finitely many keys in a region that no expanded element leaves are enough for it to end |
| `Closure.FindPlace` | src/libexpr/primops.cc:838-843 | The descent in the search tree of keys, whatever its shape: an error if and only if some accepted key cannot be compared, a duplicate if and only if some is equivalent, and else the place that keeps the keys in order |
| `Application.CallFunction` | src/libexpr/eval.cc:1504-1743 | The loop over mixed lambdas, primops, partial applications and functors applies the arguments one at a time, in order |
| `Application.CallsSplit` | src/libexpr/eval.cc:1504-1743 | Calling f with xs ++ ys is calling the result of f xs with ys when that result is evaluated; if it is not and ys is not empty, the undivided call is a type error; an error of the first part is the error of the whole |
| `Application.CallsSplitExactlyWhenEvaluated` | src/libexpr/eval.cc:1504-1743 | Calling f with xs ++ ys is calling the result of f xs with ys, for every function, all arguments and every depth, if and only if lambda bodies and primops return evaluated values |
| `Application.DelayedResultDiffers` | src/libexpr/eval.cc:1655-1715 | A concrete primop that returns an unevaluated function: the undivided call fails, the divided one succeeds |
| `Application.FunctorGetsSetFirst` | src/libexpr/eval.cc:1718-1726 | A set with a lambda as its functor: the lambda gets the set itself, and what it gives gets the argument |
| `Application.TooFew` | src/libexpr/eval.cc:1640-1647 | With fewer arguments than the arity is left the result is a chain holding more than 0 and fewer than arity arguments |
| `Application.Enough` | src/libexpr/eval.cc:1649-1715 | With enough arguments the primop gets exactly its arity of them in order, and the rest are applied to its result |
| `Application.Unwind` | src/libexpr/eval.cc:1668-1678 | The loop over `left` counts the arguments collected and finds the primop |
| `Application.Arguments` | src/libexpr/eval.cc:1688-1694 | The array filled backwards holds collected arguments before new ones, in order |
| `DeepForce.ForceValueDeep` | src/libexpr/eval.cc:2191-2235 | On any finite, possibly cyclic graph: ends, forces each value at most once, on success all reachable values are forced, and it succeeds if and only if none of them fails |
| `DeepForce.ReachesThroughListsAndSets` | src/libexpr/eval.cc:2205-2232 | A list reaches itself and what its elements reach, a set itself and what its attribute values reach, any other value only itself |
| `DeepForce.Walk.Recurse` | src/libexpr/eval.cc:2195-2234 | One call: what it marked has all its contents marked; call depth is exceeded only beyond the number of unseen values |
| `DeepForce.Walk.Force` | src/libexpr/eval.cc:2199-2202 | A value is marked before it is forced and never forced again |
| `AttrPath.ParseAttrPath` | src/libexpr/attr-path.cc:8-33 | The loop splits a path at dots outside quotes, or reports a missing quote |
| `AttrPath.QuotingRoundTrip` | src/libexpr/attr-path.cc:8-33 | Quoted names are read back, but for an empty last one, if and only if none of them holds a quote |
| `AttrPath.IndexReadBack` | src/libutil/util.cc:98-109 | A printed index is read back if and only if it fits in 32 bits |
| `AttrPath.FindAlongAttrPath` | src/libexpr/attr-path.cc:53-119 | The loop over tokens follows them one after the other, auto-calling before each |
| `GetDrvs.GetAllDerivations` | src/libexpr/get-drvs.cc:462-474 | Every reported path is read back as the moves made and can be followed to its package if and only if every list index on it fits in 32 bits; exactly the named derivations in sight are reported, each once |
| `GetDrvs.FlaggedSetsAreSearched` | src/libexpr/get-drvs.cc:431-443 | Below an attribute that is a set and no derivation, something is come across if and only if the set has `recurseForDerivations` and that is the boolean true, and searching it comes across it |
| `GetDrvs.ChannelsAreSearched` | src/libexpr/get-drvs.cc:413-430 | In a set with the attribute `_combineChannels` every attribute is searched, whatever its value |
| `GetDrvs.PlainAttributes` | src/libexpr/get-drvs.cc:431-443 | In any other set a derivation counts itself, and a value that is neither a set nor a derivation has nothing below it |
| `GetDrvs.PackagesAreMarked` | src/libexpr/get-drvs.cc:333-335 | A derivation is a set whose attribute `type` is the string "derivation" |
| `GetDrvs.ComponentCharacters` | src/libexpr/get-drvs.cc:372-394 | The attribute names searched are a letter or `_` followed by letters, digits, `-`, `_` and `+` |
| `GetDrvs.OnlyFlaggedIsReported` | src/libexpr/get-drvs.cc:431-443 | A concrete world of three sets, flagged true, flagged false and not flagged: only the package of the first is reported |
| `GetDrvs.Collector.GetDerivation` | src/libexpr/get-drvs.cc:324-355 | A derivation is reported once; an ignored assertion failure ends the search below |
| `GetDrvs.Collector.GetDerivations` | src/libexpr/get-drvs.cc:383-460 | The recursive search in place is the search over moves, error included |
| `GetDrvs.Collector.InAttr` | src/libexpr/get-drvs.cc:415-434 | Attributes are searched on `_combineChannels`, reported as derivations, or searched on `recurseForDerivations` |
| `GetDrvs.Collector.InList` | src/libexpr/get-drvs.cc:437-455 | List elements are reported or searched under their index |
| `GetDrvs.RenderedRoundTrip` | src/libexpr/get-drvs.cc:367-394 | `parseAttrPath` of a recorded path is exactly the names and indices traversed |
| `GetDrvs.ComponentIsPlain` | src/libexpr/get-drvs.cc:372-394 | An attribute name that is searched holds no dot or quote and is never taken for an index |
| `GetDrvs.FollowIsSteps` | src/libexpr/attr-path.cc:53-119 | Following the texts of moves is making the moves, if every index fits in 32 bits, and a type error otherwise |
| `GetDrvs.PathsCanBeFollowed` | src/libexpr/attr-path.cc:53-119 | For every recorded path: followed to its package up to one final auto-call, exactly when all indices fit |
| `GetDrvs.LargeIndexIsNotFollowed` | src/libexpr/attr-path.cc:61-64 | A concrete path that is reported and cannot be followed: index 2^32 of a list |
| `GetDrvs.SearchLeads` | src/libexpr/get-drvs.cc:383-460 | Every recorded path leads from the root to its package |
| `GetDrvs.CalledTwiceReportedTwice` | src/libexpr/get-drvs.cc:324-460 | A concrete list of one auto-called function twice: two packages are built and both are reported |
| `GetDrvs.ReportedExactlyWhenExposed` | src/libexpr/get-drvs.cc:324-460 | A derivation is reported if and only if the search comes across it and its name evaluates; never twice |
| `JsonSax.ParseJSON` | src/libexpr/json-to-value.cc:204-210 | The value ends up standing for the tree a nested conversion gives, nothing else that existed is touched, and the errors are the same; refused exactly for a null character in a string or key or a number above 2^63 - 1 |
| `JsonSax.RefusedExactly` | src/libexpr/json-to-value.cc:133-157 | The trees refused are exactly those with the character U+0000 in a string or a key, or an unsigned number above 2^63 - 1, anywhere |
| `JsonSax.BuildsValue` | src/libexpr/json-to-value.cc:15-202 | For every tree and every parser stack, its events fill the current slot with its value and leave the rest of the stack as it was |
| `JsonSax.LastDuplicateWins` | src/libexpr/json-to-value.cc:71-75 | The attributes of an object are its keys, each with the value of its last member |
| `JsonSax.JSONSax.Key` | src/libexpr/json-to-value.cc:71-75 | A key gets a slot, replacing an earlier one of the same name; a null byte is refused |
| `JsonSax.JSONSax.CloseTop` | src/libexpr/json-to-value.cc:180-190 | Closing writes the finished set or list into the slot of the parent state |
| `JsonSax.JSONSax.NumberUnsigned` | src/libexpr/json-to-value.cc:133-142 | Numbers beyond the 64-bit signed range are refused |

## Left out

- Stores, fetchers, SQLite failures and transactions, derivation writing and context realisation: outside the evaluator.
- Garbage collection, bit packing of values, symbol interning, positions, traces, the debugger and profilers: they do not change results. Symbols are numbers, ordered as the symbol table numbers them.
- Floats in comparisons, external values, regular expressions and hashing. JSON floats are passed through.
- Primops, `==`, string interpolation and paths inside the two lexical evaluators; strings are identified with the symbol they intern to.
- The state after an error: a thunk whose evaluation failed is restored so that it can be forced again; the evaluators stop at the first error.
- The debug-time recording of static environments, and the 32-bit width of levels and displacements (`bindVars` asserts that they fit).
- Type tags of lambdas, primops and thunks in the deep walk: a value is what forcing it gives.
- `getStringWithContext`, `getListOfStrings`, cached paths, a cache without a database and a root that fails to evaluate: the text encoding is lossy, or nothing is cached.
- The order of the names that `getAttrs` returns: a set is modelled.
- `EvalCache.AttrCursor.MaybeGetAttr`: for an attribute whose evaluation failed before, the source throws a cached error; the model returns that failure as an error result.
- `EvalCache.AttrCursor.GetInt`: exact only for integers that fit a C `int`, as the code stores a C `int`.
- `EvalCache.AttrCursor.GetValue`: the `_value` pointer kept by a cursor is not modelled; the value is found by path.
- The heap operations of the k-way merge and of `std::map`: the model picks the least element, or searches, instead.
- `std::sort` and `std::stable_sort` are stood in for by an insertion sort with the same contract.
- `Ordering` and `Closure`: floats. Keys are forced values; a failure while a list key is compared is not modelled.
- `Closure.GenericClosure`: the worklist is taken to accept finitely many keys, as it does not end otherwise. An element that is no set, or fails, counts as one without a key, and an operator result that is no list, or has an element that fails, as a failing operator.
- `Reuse.ReuseIsSound`: the condition on the program is sufficient, not necessary: a program may use `__overrides` in a `rec` and still not show the reuse, and whether it does depends on what it evaluates.
- `Laws.HasAttrDecidesSelect`: paths of plain names. With computed names `?` and `.` evaluate names and sets in different orders, so the state they reach may differ; the rules of `BigStep` cover them.
- `Laws.UpdateMeans`: for code whose definitions stand in the order of their names, as the parser's `std::map` keeps them, and a heap of sorted sets.
- `Frames.DeclareMeans`: the run that suspends every expression; `Reuse` shows what handing out slots and constants changes.
- `KeyEquality.EqualityIsSameContent`: a value that holds a function, or whose forcing fails, has no content; when two such values are compared is said by `KeyEquality.SetsByField` and `KeyEquality.EqualFields` only.
- `Equality.EqImpliesAssert`: needs one more call level, as `Equality.LastCallDiffers` shows.
- `Application.CallsSplitExactlyWhenEvaluated`: forcing is taken to yield an evaluated value, as `forceValue` leaves no thunk behind.
- Environment objects are allocated after the values they hold in the models of lambdas and `inherit` sources; identities of environments are not observable.
- `findPackageFilename`, `PackageInfo` beyond its name, and the mapping of symbols to text in the search: attribute names are texts, listed in lexicographic order.
- Automatic calling of functions depends on the value and on the path at which it is called, so two calls may build two values; selection is taken to build at a path what the search built there, though it is a copy.
- The lexer and grammar of JSON: the parser model starts from the events of a well-formed text.
- A key event outside an object, which the JSON grammar rules out and the source answers with undefined behaviour, is an error in the model.
