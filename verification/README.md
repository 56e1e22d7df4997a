# mo-p-code-translator core, modelled in Dafny

The system compiles small programs into *recipes* (multiset rewriting rules)
and runs them on an item store.

- A `Recipe` consumes its input items and produces its output items.
- A `Limit` is a linear capacity constraint `Σ coefficient · amount ≤ limit`.
- `Storage` holds the amounts of every item. Its only mutation path is
  `exchange`, which applies a recipe atomically when the inputs are in
  stock and every limit holds for the candidate state.
- `Executor.execute` repeatedly fires the first recipe whose exchange
  succeeds and rescans, until a whole pass fires nothing.

On the compile side, the model covers:

- `AbstractCompiler`, which issues fresh `loop_<n>` and `limit_<n>` names.
- `RecipeBlock`, a list of recipes with limits and a name, composed by
  appending.
- The function wrapper (`wrap_block`, `translate`), which threads token items
  `<f>_token_<i>` through a list of blocks. Block `i` can only start once
  block `i - 1` has produced its token.

The project has these files:

- `wrappers.dfy`: `Option`.
- `decimal.dfy`: the decimal rendering of a `nat`, as f-strings print it, and
  its injectivity.
- `runtime.dfy`: `compiler.py`'s `Limit`, `Recipe`, `Storage` and `Executor`,
  plus the `RuntimeFacts` lemmas about them.
- `abstraction.dfy`: `abstraction.py`'s name counters, `RecipeBlock` and the
  wrapper.
- `translation_facts.dfy`: the structure of what `translate` returns.

Storage and the executor are classes whose fields the methods update, with
loops proved against ghost specification functions:

- `Weighted`/`Holds` for a limit;
- `Register` for construction;
- `Stocked`, `AllHold`, `Apply` and `Fires` for `exchange`;
- `FirstFiring` and `Run` for the scheduler.

Recipe blocks are objects whose recipe list is reassigned in place. Recipes are
values.

Two points about the code itself:

- `contains` and `exchange` raise `KeyError` on an unregistered item. The
  model makes registration a precondition of `Contains` and `Exchange`
  instead of reading such an item as 0.
- The wrapper threads numbered tokens `<f>_token_<i>` from block to block. No
  flag is kept alive across the body: the finish item is produced by the start
  recipe and consumed only by the finish recipe.

## Model

| member | source | states |
|---|---|---|
| Runtime.Limit.IsSatisfied | compiler.py:11-16 | the accumulating loop returns true iff the weighted total of the items over the bag's keys, with absent coefficients counting 0, is at most the limit |
| Runtime.Limit.WeightedPick | compiler.py:13-14 | the total does not depend on the order in which the dict's entries are visited: any key may be summed first |
| RuntimeFacts.WeightedSplit | compiler.py:13-14 | the total over two disjoint key sets is the sum of the two totals |
| RuntimeFacts.WeightedCongruent | compiler.py:13-14 | two totals whose terms agree key by key are equal |
| RuntimeFacts.WeightedZero | compiler.py:14 | keys whose amount or coefficient is 0 add nothing to the total |
| RuntimeFacts.HoldsIgnoresAbsentCoefficients | compiler.py:14 | only coefficients of items present in the bag matter; others may be changed freely |
| RuntimeFacts.HoldsAfterRegister | compiler.py:11-16 | registering extra items at amount 0 does not change whether a limit holds |
| RuntimeFacts.LimitExample | compiler.py:11-16 | `Limit({X:2,Y:1},5)` accepts `{X:2,Y:1}` and rejects `{X:2,Y:2}` |
| Runtime.Executor.constructor | compiler.py:86-88 | the executor holds the given recipe list and store |
| Runtime.Storage.constructor | compiler.py:33-36 | the store keeps every initial amount and registers every recipe item and limit coefficient. New keys are 0 and there are no other keys. The limits are kept |
| Runtime.Storage.InitializeStorage | compiler.py:38-49 | the store becomes the old store plus every recipe item and limit coefficient it lacked, at amount 0 |
| Runtime.Storage.RegisterKeys | compiler.py:40-42 | one inner loop: the store gains each missing key at 0 and keeps every present amount |
| Runtime.RegisterTwice | compiler.py:38-49 | registering in successive passes equals registering the union once |
| Runtime.RecipeItemsCover | compiler.py:39-45 | every input and output item of every recipe is among the items registered for the recipes |
| Runtime.LimitItemsCover | compiler.py:46-49 | every coefficient item of every limit is among the items registered for the limits |
| Runtime.Storage.Contains | compiler.py:51-56 | true iff every requested amount is at most the stored amount |
| Runtime.Storage.CheckLimits | compiler.py:58-62 | true iff every limit of the store holds for the candidate bag |
| Runtime.ShiftAll | compiler.py:67-70 | one per-item loop of `exchange` subtracts (or adds) every entry of the recipe's bag from a copy of the store |
| Runtime.ApplyByShifts | compiler.py:66-70 | the two loops together give `store - inputs + outputs` on every registered item |
| Runtime.Storage.Exchange | compiler.py:64-82 | succeeds iff the inputs are in stock and the candidate satisfies every limit. On success the store becomes `store - inputs + outputs`; otherwise it is unchanged (atomic). Keys are preserved |
| RuntimeFacts.ApplyKeepsNonNegative | compiler.py:64-74 | an exchange of stocked inputs with non-negative outputs keeps every amount non-negative |
| RuntimeFacts.ApplyFrame | compiler.py:66-70 | items the recipe does not mention keep their amounts |
| Runtime.FirstFiring | compiler.py:95-100 | the index found is the first, in list order, whose exchange would succeed; none found means no recipe can fire |
| Runtime.Executor.Execute | compiler.py:90-100 | the final store and the quiescence flag are exactly those of `Run`. Each pass fires the first recipe that can fire and rescans; a pass that fires nothing ends the run. The store stays registered |
| RuntimeFacts.RunKeepsKeys | compiler.py:90-100 | a run neither adds nor removes items |
| RuntimeFacts.RunQuiescent | compiler.py:93-100 | when a run ends quiescent, no recipe can fire on the final store |
| RuntimeFacts.RunKeepsNonNegative | compiler.py:90-100 | a run from a non-negative store with non-negative outputs stays non-negative |
| RuntimeFacts.RunKeepsLimits | compiler.py:90-100 | a run that starts within every limit ends within every limit |
| RuntimeFacts.RunStable | compiler.py:93-100 | once a run is quiescent, more passes change nothing |
| RuntimeFacts.DrainScenario | compiler.py:90-100 | `{A:2}` with `[{A:1}→{B:1}]` is registered to `{A:2,B:0}` and ends quiescent at `{A:0,B:2}` |
| RuntimeFacts.SpringNeverQuiesces | compiler.py:93-100 | with the recipe `{}→{A:1}` no number of passes reaches quiescence |
| Decimal.NatToString | abstraction.py:34 | the decimal rendering is non-empty and has one digit exactly for numbers below 10 |
| Decimal.NatToStringInjective | abstraction.py:34 | distinct numbers render differently |
| Abstraction.LoopNameInjective | abstraction.py:32-34 | `loop_<a>` equals `loop_<b>` iff `a == b` |
| Abstraction.LimitNameInjective | abstraction.py:36-38 | `limit_<a>` equals `limit_<b>` iff `a == b` |
| Abstraction.LoopAndLimitNamesDiffer | abstraction.py:32-38 | a loop name is never a limit name |
| Abstraction.AbstractCompiler.constructor | abstraction.py:14-16 | both counters start at 0 |
| Abstraction.AbstractCompiler.GetLoopVar | abstraction.py:32-34 | the loop counter goes up by exactly one and the limit counter is unchanged. The name is `loop_<new counter>`, was never issued before, and is the only name added to the issued set |
| Abstraction.AbstractCompiler.GetLimitVar | abstraction.py:36-38 | the limit counter goes up by exactly one and the loop counter is unchanged. The name is `limit_<new counter>`, was never issued before, and is the only name added to the issued set |
| Abstraction.AbstractCompiler.OneVarLimit | abstraction.py:27-30 | returns a fresh limit name `n` with `Limit({n:1}, 1)` and advances only the limit counter |
| Abstraction.IssuedNamesDistinct | abstraction.py:32-38 | all names issued by one compiler are pairwise distinct |
| Abstraction.OneVarLimitMeaning | abstraction.py:27-30 | the limit holds exactly when the variable's amount is at most 1 or the variable is absent |
| Abstraction.RecipeBlock.constructor | abstraction.py:47-50 | the block holds the given recipes, limits and name |
| Abstraction.RecipeBlock.JoinBlock | abstraction.py:52-54 | the other block's recipes are appended after this block's, both in order. When this block's limits are a list and the other's are a list or a string, the list is extended with the other list's elements or the string's characters. Otherwise (a `None` or string receiver, or a `None` argument) the call fails after the recipes were appended |
| Abstraction.StringSplicedByCharacter | abstraction.py:54 | extending a list with a string appends one element per character, in order |
| Abstraction.RecipeBlock.AddRecipe | abstraction.py:56-57 | the recipe is appended at the end and nothing else changes |
| Abstraction.RecipeBlock.AddRecipes | abstraction.py:59-60 | the recipes are appended at the end, in order, and nothing else changes |
| Abstraction.WrapBlock | abstraction.py:66-69 | the block's recipes become `Wrap` of the old ones; limits and name are unchanged |
| TranslationFacts.WrapShape | abstraction.py:66-69 | wrapping changes only two entries. The first recipe gains input `<f>_token_<i>`. Unless last, the last recipe gains output `<f>_token_<i+1>`; a one-recipe block gains both. Length and every other entry are unchanged |
| Abstraction.JoinWrappedCopy | abstraction.py:76-78 | one iteration: a wrapped copy of the block is joined to the code block; the caller's block is not touched |
| Abstraction.JoinNext | abstraction.py:76-78 | after iteration `i` the code block holds the start recipe and the first `i + 1` wrapped blocks, and their limits |
| Abstraction.JoinAll | abstraction.py:76-78 | after the loop the code block holds the start recipe, all wrapped blocks in order, and all their limits |
| Abstraction.Translate | abstraction.py:71-81 | corrected `translate` returns a fresh block: the start recipe, the wrapped copies in order, then the finish recipe. Its name is the function name, and its limits are an empty list extended with each block's limits in turn. The caller's blocks are unchanged |
| Abstraction.TranslateAsWritten | abstraction.py:71-81 | `translate` as written leaves the function name in the code block's limits and no name. It raises iff there is at least one block; by then only the start recipe and the wrapped first block have been appended. Only the first block needs recipes, since no later block is reached |
| TranslationFacts.TranslatedEnds | abstraction.py:71-81 | the result has 2 + (sum of block sizes) recipes. It starts with `{f:1}→{f_token_0:1, f_finish:1}` and ends with `{f_finish:1}→{}` |
| TranslationFacts.ChainLength | abstraction.py:76-78 | the first `k` wrapped blocks hold exactly the recipes of the first `k` blocks |
| TranslationFacts.ChainAt | abstraction.py:76-78 | recipe `j` of block `i` sits at block `i`'s offset plus `j` in the chain of wrapped blocks |
| TranslationFacts.TranslatedAt | abstraction.py:71-81 | each recipe of the result equals the caller's recipe at that position except for the two token entries. Block `i`'s first recipe consumes `f_token_i`; the last recipe of every block but the last produces `f_token_{i+1}` |
| TranslationFacts.TokenPlacement | abstraction.py:67-78 | `f_token_i` is consumed by block `i`'s first recipe and, for `i > 0`, produced by block `i - 1`'s last recipe right before it |
| TranslationFacts.NoTokenBeyondLast | abstraction.py:66-78 | no wrapped recipe produces `f_token_m` for `m ≥ n` unless the caller's recipe already did |
| TranslationFacts.TokenInjective | abstraction.py:67-69 | token names of distinct indices differ |
| TranslationFacts.FinishIsNoToken | abstraction.py:74-75 | the finish item is never a token item |

## Left out

- The text front-end `RawCompiler.compile` is not part of this model. It depends on a third-party regex engine, string splitting and integer parsing.
- The command-line entry point, file I/O and every `print` are left out. They only log and do not change state.
- `allocate_memory` is an empty stub, so it is not modelled.
- `AddFunction`, `LoopWasteFunction`, `CopyFunction`, `LoopCopyFunction` and `WrappedRecipeFunction` are left out. They are unfinished or do not run: a syntax error, an undefined class, a missing return, an empty duplicate, and a type mismatch.
- The store adopts the caller's `initial_items` dict by reference. The model takes a copy, so later changes through that alias are not captured.
- Recipes are values. The model does not capture sharing of recipe dicts between blocks (`list.extend` shares the recipe objects, and `deepcopy` keeps that sharing across blocks), nor `wrap_block` acting on a shared object.
- `translate` deep-copies all blocks once. The model copies each block just before wrapping it. For distinct block objects this gives the same result. When one block object occurs twice in the list, the deep copy keeps a single copy for both positions, so the source wraps it twice; the model wraps each occurrence separately.
- `RecipeBlock` keeps the caller's recipe and limit lists by reference, and `join_block`, `add_recipe` and `add_recipes` extend them in place. The model's fields are values, so two blocks built from one list do not see each other's appends, and neither does the caller's list.
- Runtime.Executor.Execute: takes a `fuel` bound on the number of passes, because the source loop need not terminate (see `RuntimeFacts.SpringNeverQuiesces`). A run that uses up its fuel returns `quiescent` false.
- Runtime.Storage.Contains: requires every requested item to be registered. The source raises `KeyError` on an unregistered item unless an earlier entry already returned false.
- Runtime.Storage.Exchange: requires every item of the recipe to be registered. The source raises `KeyError` otherwise, except when `contains` fails before reaching an unregistered output.
- Abstraction.RecipeBlock.JoinBlock: a failing extension of the limits is modelled as `ok` false, not as an exception. It fails when this block's limits are `None` or a string (neither has `extend`), or when the other block's limits are `None` (not iterable).
- Abstraction.Translate: requires every block's limits to be a list or a string. With `None` limits (the constructor's default), joining raises even in the corrected version.
- Abstraction.WrapBlock: requires a non-empty block, because `recipes[0]` and `recipes[-1]` raise on an empty one.

## Findings

As written, `abstraction.py` does not load at all. `AddFunction` contains `self..translate` (abstraction.py:95), a syntax error. Before Python 3.14, the annotation `block: RecipeBlock` (abstraction.py:52) is also evaluated before the class exists. The row below describes `translate` with those two defects set aside.

| source | as written | input that shows it | evidently intended | confidence | as-written member | corrected member |
|---|---|---|---|---|---|---|
| abstraction.py:73-75 | the code block is built as `RecipeBlock([start], function_name)`, so the function name lands in the `limits` parameter; the first `join_block` then calls `extend` on a string (abstraction.py:54) and raises | any one block, e.g. `translate([RecipeBlock([Recipe({a:1},{b:1})], [])], "f")` | the function name as the block's `name` and an empty list as its limits | high; not executed | Abstraction.TranslateAsWritten | Abstraction.Translate |
