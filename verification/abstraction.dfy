/**
 * The compile-side building blocks: the compiler's name counters, recipe
 * blocks that are composed by appending, and the function wrapper that
 * threads a chain of token items through a list of blocks so that block `i`
 * can only start once block `i - 1` has produced its token.
 *
 * Recipes are values here; blocks are objects whose recipe list is updated
 * in place, as in the source.
 */
module Abstraction {
  import opened Wrappers
  import opened Decimal
  import opened Runtime
  import RuntimeFacts

  // ---------------------------------------------------------------------------
  // Name counters
  // ---------------------------------------------------------------------------

  /** The name `get_loop_var` returns once the loop counter has reached `n`. */
  function LoopName(n: nat): string
  {
    "loop_" + NatToString(n)
  }

  /** The name `get_limit_var` returns once the limit counter has reached `n`. */
  function LimitName(n: nat): string
  {
    "limit_" + NatToString(n)
  }

  /** The names of the first `count` loop variables. */
  ghost function LoopNames(count: nat): set<string>
  {
    set n: nat | 1 <= n <= count :: LoopName(n)
  }

  /** The names of the first `count` limit variables. */
  ghost function LimitNames(count: nat): set<string>
  {
    set n: nat | 1 <= n <= count :: LimitName(n)
  }

  lemma LoopNameInjective(a: nat, b: nat)
    ensures LoopName(a) == LoopName(b) <==> a == b
  {
    if LoopName(a) == LoopName(b) {
      assert NatToString(a) == LoopName(a)[5..] == LoopName(b)[5..] == NatToString(b);
      NatToStringInjective(a, b);
    }
  }

  lemma LimitNameInjective(a: nat, b: nat)
    ensures LimitName(a) == LimitName(b) <==> a == b
  {
    if LimitName(a) == LimitName(b) {
      assert NatToString(a) == LimitName(a)[6..] == LimitName(b)[6..] == NatToString(b);
      NatToStringInjective(a, b);
    }
  }

  /** A loop name never equals a limit name: the prefixes differ in their second letter. */
  lemma LoopAndLimitNamesDiffer(a: nat, b: nat)
    ensures LoopName(a) != LimitName(b)
  {
    assert LoopName(a)[1] == 'o' && LimitName(b)[1] == 'i';
  }

  class AbstractCompiler {
    var limits: nat
    var loops: nat

    constructor ()
      ensures limits == 0 && loops == 0
    {
      limits := 0;
      loops := 0;
    }

    /** Every name this compiler has handed out so far. */
    ghost function Issued(): set<string>
      reads this
    {
      LoopNames(loops) + LimitNames(limits)
    }

    /** Advances the loop counter by one and returns `loop_<counter>`, a name never issued before. */
    method GetLoopVar() returns (name: string)
      modifies this
      ensures loops == old(loops) + 1 && limits == old(limits)
      ensures name == LoopName(loops)
      ensures name !in old(Issued())
      ensures Issued() == old(Issued()) + {name}
    {
      loops := loops + 1;
      name := LoopName(loops);
      forall n: nat | 1 <= n <= old(loops)
        ensures LoopName(n) != name
      {
        LoopNameInjective(n, loops);
      }
      forall n: nat | 1 <= n <= limits
        ensures LimitName(n) != name
      {
        LoopAndLimitNamesDiffer(loops, n);
      }
      assert LoopNames(loops) == LoopNames(old(loops)) + {name};
    }

    /** Advances the limit counter by one and returns `limit_<counter>`, a name never issued before. */
    method GetLimitVar() returns (name: string)
      modifies this
      ensures limits == old(limits) + 1 && loops == old(loops)
      ensures name == LimitName(limits)
      ensures name !in old(Issued())
      ensures Issued() == old(Issued()) + {name}
    {
      limits := limits + 1;
      name := LimitName(limits);
      forall n: nat | 1 <= n <= old(limits)
        ensures LimitName(n) != name
      {
        LimitNameInjective(n, limits);
      }
      forall n: nat | 1 <= n <= loops
        ensures LoopName(n) != name
      {
        LoopAndLimitNamesDiffer(n, limits);
      }
      assert LimitNames(limits) == LimitNames(old(limits)) + {name};
    }

    /** A fresh limit variable together with the limit that caps it at 1. */
    method OneVarLimit() returns (name: string, limit: Limit)
      modifies this
      ensures limits == old(limits) + 1 && loops == old(loops)
      ensures name == LimitName(limits) && name !in old(Issued())
      ensures limit == Limit(map[name := 1], 1)
    {
      name := GetLimitVar();
      limit := Limit(map[name := 1], 1);
    }
  }

  /** Distinct counter values give distinct names, within and across the two kinds. */
  lemma IssuedNamesDistinct(loops: nat, limits: nat)
    ensures forall a, b :: 1 <= a < b <= loops ==> LoopName(a) != LoopName(b)
    ensures forall a, b :: 1 <= a < b <= limits ==> LimitName(a) != LimitName(b)
    ensures forall a, b :: 1 <= a <= loops && 1 <= b <= limits ==> LoopName(a) != LimitName(b)
  {
    forall a, b | 1 <= a < b <= loops
      ensures LoopName(a) != LoopName(b)
    {
      LoopNameInjective(a, b);
    }
    forall a, b | 1 <= a < b <= limits
      ensures LimitName(a) != LimitName(b)
    {
      LimitNameInjective(a, b);
    }
    forall a, b | 1 <= a <= loops && 1 <= b <= limits
      ensures LoopName(a) != LimitName(b)
    {
      LoopAndLimitNamesDiffer(a, b);
    }
  }

  /** The limit of `one_var_limit` holds exactly when its variable is at most 1 (or not in the bag). */
  lemma OneVarLimitMeaning(name: string, items: Bag)
    ensures Limit(map[name := 1], 1).Holds(items) <==> (name in items ==> items[name] <= 1)
  {
    var l := Limit(map[name := 1], 1);
    if name in items {
      var rest := items.Keys - {name};
      l.WeightedPick(items, items.Keys, name);
      RuntimeFacts.WeightedZero(l, items, rest);
    } else {
      RuntimeFacts.WeightedZero(l, items, items.Keys);
    }
  }

  // ---------------------------------------------------------------------------
  // Recipe blocks
  // ---------------------------------------------------------------------------

  /**
   * An element of a block's `limits` list: a limit, or one character of a
   * string that the list was extended with (`list.extend` splices any
   * iterable, a string included, element by element).
   */
  datatype Entry = LimitEntry(limit: Limit) | CharEntry(c: char)

  /**
   * What the `limits` attribute of a block holds: nothing (`None`, the
   * default), a list, or a string (what `translate` puts there).
   */
  datatype LimitSlot = Unset | Listed(entries: seq<Entry>) | Text(text: string)
  {
    /** `list.extend` accepts this value: a list or a string, not `None`. */
    predicate Iterable()
    {
      !Unset?
    }

    /** What `list.extend` appends for this value: a list's elements, a string's characters. */
    function Elements(): seq<Entry>
      requires Iterable()
    {
      if Listed? then entries else seq(|text|, i requires 0 <= i < |text| => CharEntry(text[i]))
    }
  }

  /** Extending a list with a string appends the string's characters, one entry each, in order. */
  lemma StringSplicedByCharacter(t: string)
    ensures |Text(t).Elements()| == |t|
    ensures forall i :: 0 <= i < |t| ==> Text(t).Elements()[i] == CharEntry(t[i])
  {
  }

  class RecipeBlock {
    var recipes: seq<Recipe>
    var limits: LimitSlot
    var name: Option<string>

    constructor (recipes: seq<Recipe>, limits: LimitSlot, name: Option<string>)
      ensures this.recipes == recipes && this.limits == limits && this.name == name
    {
      this.recipes := recipes;
      this.limits := limits;
      this.name := name;
    }

    /**
     * Appends the other block's recipes after this block's, then extends this
     * block's limits with the other's. Extending works when this block holds
     * a list and the other a list or a string (whose characters are then
     * spliced in); on a `None` or string receiver, or a `None` argument, the
     * call fails (`ok` false) after the recipes have already been appended.
     */
    method JoinBlock(block: RecipeBlock) returns (ok: bool)
      modifies this
      ensures recipes == old(recipes) + old(block.recipes)
      ensures ok == (old(limits).Listed? && old(block.limits).Iterable())
      ensures limits == if ok then Listed(old(limits).entries + old(block.limits).Elements()) else old(limits)
      ensures name == old(name)
    {
      var others := block.limits;
      recipes := recipes + block.recipes;
      ok := limits.Listed? && others.Iterable();
      if ok {
        limits := Listed(limits.entries + others.Elements());
      }
    }

    method AddRecipe(recipe: Recipe)
      modifies this
      ensures recipes == old(recipes) + [recipe]
      ensures limits == old(limits) && name == old(name)
    {
      recipes := recipes + [recipe];
    }

    method AddRecipes(more: seq<Recipe>)
      modifies this
      ensures recipes == old(recipes) + more
      ensures limits == old(limits) && name == old(name)
    {
      recipes := recipes + more;
    }
  }

  // ---------------------------------------------------------------------------
  // The function wrapper
  // ---------------------------------------------------------------------------

  const TokenName := "token"
  const FinishName := "finish"

  /** `<f>_token_<i>`: the item that lets block `i` of function `f` start. */
  function Token(f: string, i: nat): Item
  {
    f + "_" + TokenName + "_" + NatToString(i)
  }

  /** `<f>_finish`: the item that marks function `f` as running. */
  function Finish(f: string): Item
  {
    f + "_" + FinishName
  }

  /** Consumes the function's name item; produces token 0 and the finish item. */
  function StartRecipe(f: string): Recipe
  {
    Recipe(map[f := 1], map[Token(f, 0) := 1, Finish(f) := 1])
  }

  /** Consumes the finish item and produces nothing. */
  function FinishRecipe(f: string): Recipe
  {
    Recipe(map[Finish(f) := 1], map[])
  }

  /**
   * `rs` after `wrap_block`: the first recipe also requires one `Token(f, i)`;
   * unless `last`, the last recipe (read after that update, so possibly the
   * same one) also produces one `Token(f, i + 1)`.
   */
  function Wrap(rs: seq<Recipe>, f: string, i: nat, last: bool): seq<Recipe>
    requires |rs| > 0
  {
    var head := rs[0 := Recipe(rs[0].inputItems[Token(f, i) := 1], rs[0].outputItems)];
    var n := |rs| - 1;
    if last then head
    else head[n := Recipe(head[n].inputItems, head[n].outputItems[Token(f, i + 1) := 1])]
  }

  /** Sets the token entries of `block` and changes nothing else. */
  method WrapBlock(block: RecipeBlock, functionName: string, index: nat, last: bool)
    requires |block.recipes| > 0
    modifies block
    ensures block.recipes == Wrap(old(block.recipes), functionName, index, last)
    ensures block.limits == old(block.limits) && block.name == old(block.name)
  {
    var first := block.recipes[0];
    block.recipes := block.recipes[0 := Recipe(first.inputItems[Token(functionName, index) := 1], first.outputItems)];
    if !last {
      var n := |block.recipes| - 1;
      var final := block.recipes[n];
      block.recipes := block.recipes[n := Recipe(final.inputItems, final.outputItems[Token(functionName, index + 1) := 1])];
    }
  }

  ghost predicate AllNonEmpty(bodies: seq<seq<Recipe>>)
  {
    forall i :: 0 <= i < |bodies| ==> |bodies[i]| > 0
  }

  /** The wrapped copies of the first `k` of `bodies`, concatenated in order. */
  ghost function Chain(bodies: seq<seq<Recipe>>, f: string, k: nat): seq<Recipe>
    requires AllNonEmpty(bodies) && k <= |bodies|
  {
    if k == 0 then []
    else Chain(bodies, f, k - 1) + Wrap(bodies[k - 1], f, k - 1, k - 1 == |bodies| - 1)
  }

  /** The recipe list `translate` returns for blocks whose recipe lists are `bodies`. */
  ghost function Translated(bodies: seq<seq<Recipe>>, f: string): seq<Recipe>
    requires AllNonEmpty(bodies)
  {
    [StartRecipe(f)] + Chain(bodies, f, |bodies|) + [FinishRecipe(f)]
  }

  /** The recipe lists of `blocks`, in order. */
  ghost function Bodies(blocks: seq<RecipeBlock>): (bodies: seq<seq<Recipe>>)
    reads blocks
    ensures |bodies| == |blocks|
    ensures forall i :: 0 <= i < |blocks| ==> bodies[i] == blocks[i].recipes
  {
    if blocks == [] then [] else Bodies(blocks[..|blocks| - 1]) + [blocks[|blocks| - 1].recipes]
  }

  /** The `limits` attributes of `blocks`, in order. */
  ghost function Slots(blocks: seq<RecipeBlock>): (slots: seq<LimitSlot>)
    reads blocks
    ensures |slots| == |blocks|
    ensures forall i :: 0 <= i < |blocks| ==> slots[i] == blocks[i].limits
  {
    if blocks == [] then [] else Slots(blocks[..|blocks| - 1]) + [blocks[|blocks| - 1].limits]
  }

  /** What extending an empty list with each of `slots` in turn leaves in it. */
  ghost function Joined(slots: seq<LimitSlot>): seq<Entry>
    requires forall i :: 0 <= i < |slots| ==> slots[i].Iterable()
  {
    if slots == [] then [] else Joined(slots[..|slots| - 1]) + slots[|slots| - 1].Elements()
  }

  /**
   * One iteration of `translate`'s loop: wrap a copy of `block` and join it
   * to `code`. The copy is what gets wrapped, so `block` itself is untouched;
   * `ok` is false when the join fails on the limits.
   */
  method JoinWrappedCopy(code: RecipeBlock, block: RecipeBlock, functionName: string, index: nat, last: bool)
    returns (ok: bool)
    requires |block.recipes| > 0
    modifies code
    ensures code.recipes == old(code.recipes) + Wrap(old(block.recipes), functionName, index, last)
    ensures ok == (old(code.limits).Listed? && old(block.limits).Iterable())
    ensures code.limits == if ok then Listed(old(code.limits).entries + old(block.limits).Elements()) else old(code.limits)
    ensures code.name == old(code.name)
  {
    var copy := new RecipeBlock(block.recipes, block.limits, block.name);
    WrapBlock(copy, functionName, index, last);
    ok := code.JoinBlock(copy);
  }

  /** `JoinWrappedCopy` for block `i` of `blocks`, stated in terms of the whole translation. */
  method JoinNext(code: RecipeBlock, blocks: seq<RecipeBlock>, functionName: string, i: nat,
                  ghost bodies: seq<seq<Recipe>>, ghost slots: seq<LimitSlot>)
    requires i < |blocks| == |bodies| == |slots| && AllNonEmpty(bodies)
    requires forall j :: 0 <= j < |slots| ==> slots[j].Iterable()
    requires blocks[i].recipes == bodies[i] && blocks[i].limits == slots[i]
    requires code.recipes == [StartRecipe(functionName)] + Chain(bodies, functionName, i)
    requires code.limits == Listed(Joined(slots[..i]))
    modifies code
    ensures code.recipes == [StartRecipe(functionName)] + Chain(bodies, functionName, i + 1)
    ensures code.limits == Listed(Joined(slots[..i + 1]))
    ensures code.name == old(code.name)
  {
    ghost var wrapped := Wrap(bodies[i], functionName, i, i == |bodies| - 1);
    var ok := JoinWrappedCopy(code, blocks[i], functionName, i, i == |blocks| - 1);
    assert Chain(bodies, functionName, i + 1) == Chain(bodies, functionName, i) + wrapped;
    Associative([StartRecipe(functionName)], Chain(bodies, functionName, i), wrapped);
    JoinedStep(slots, i);
  }

  lemma Associative(a: seq<Recipe>, b: seq<Recipe>, c: seq<Recipe>)
    ensures (a + b) + c == a + (b + c)
  {
  }

  lemma JoinedStep(slots: seq<LimitSlot>, i: nat)
    requires i < |slots| && forall j :: 0 <= j < |slots| ==> slots[j].Iterable()
    ensures Joined(slots[..i + 1]) == Joined(slots[..i]) + slots[i].Elements()
  {
    assert slots[..i + 1][..i] == slots[..i];
  }

  /** `translate`'s loop: joins the wrapped copies of all of `blocks` to `code`. */
  method JoinAll(code: RecipeBlock, blocks: seq<RecipeBlock>, functionName: string,
                 ghost bodies: seq<seq<Recipe>>, ghost slots: seq<LimitSlot>)
    requires |blocks| == |bodies| == |slots| && AllNonEmpty(bodies)
    requires forall j :: 0 <= j < |slots| ==> slots[j].Iterable()
    requires forall j :: 0 <= j < |blocks| ==> blocks[j].recipes == bodies[j] && blocks[j].limits == slots[j]
    requires code !in blocks
    requires code.recipes == [StartRecipe(functionName)] && code.limits == Listed([])
    modifies code
    ensures code.recipes == [StartRecipe(functionName)] + Chain(bodies, functionName, |bodies|)
    ensures code.limits == Listed(Joined(slots))
    ensures code.name == old(code.name)
  {
    for i := 0 to |blocks|
      invariant forall j :: 0 <= j < |blocks| ==> blocks[j].recipes == bodies[j] && blocks[j].limits == slots[j]
      invariant code.recipes == [StartRecipe(functionName)] + Chain(bodies, functionName, i)
      invariant code.limits == Listed(Joined(slots[..i]))
      invariant code.name == old(code.name)
    {
      JoinNext(code, blocks, functionName, i, bodies, slots);
    }
    assert slots[..|blocks|] == slots;
  }

  /**
   * `translate` with the code block built as evidently intended (the function
   * name as its name, an empty list of limits): the start recipe, then the
   * wrapped copies of the blocks, then the finish recipe. The caller's blocks
   * are copied before they are wrapped, so they are left as they were.
   */
  method Translate(blocks: seq<RecipeBlock>, functionName: string) returns (code: RecipeBlock)
    requires forall b :: b in blocks ==> |b.recipes| > 0 && b.limits.Iterable()
    ensures fresh(code)
    ensures code.recipes == Translated(old(Bodies(blocks)), functionName)
    ensures code.limits == Listed(Joined(old(Slots(blocks))))
    ensures code.name == Some(functionName)
    ensures forall b :: b in blocks ==> b.recipes == old(b.recipes) && b.limits == old(b.limits)
  {
    ghost var bodies, slots := Bodies(blocks), Slots(blocks);
    code := new RecipeBlock([StartRecipe(functionName)], Listed([]), Some(functionName));
    JoinAll(code, blocks, functionName, bodies, slots);
    code.AddRecipe(FinishRecipe(functionName));
  }

  /**
   * `translate` as written: the function name is passed where the limits
   * belong, so the code block's limits hold a string and the first
   * `join_block` fails after appending the first wrapped block's recipes.
   * `raised` reports that failure; the code block is what had been built.
   */
  method TranslateAsWritten(blocks: seq<RecipeBlock>, functionName: string) returns (code: RecipeBlock, raised: bool)
    requires |blocks| > 0 ==> |blocks[0].recipes| > 0
    ensures fresh(code)
    ensures code.limits == Text(functionName) && code.name == None
    ensures raised <==> |blocks| > 0
    ensures !raised ==> code.recipes == Translated([], functionName)
    ensures raised ==> code.recipes == [StartRecipe(functionName)] + Wrap(old(blocks[0].recipes), functionName, 0, |blocks| == 1)
  {
    code := new RecipeBlock([StartRecipe(functionName)], Text(functionName), None);
    raised := false;
    var i := 0;
    while i < |blocks| && !raised
      invariant i <= |blocks|
      invariant fresh(code)
      invariant code.limits == Text(functionName) && code.name == None
      invariant !raised ==> i == 0 && code.recipes == [StartRecipe(functionName)]
      invariant raised ==> i == 1 && code.recipes == [StartRecipe(functionName)] + Wrap(old(blocks[0].recipes), functionName, 0, |blocks| == 1)
    {
      var joined := JoinWrappedCopy(code, blocks[i], functionName, i, i == |blocks| - 1);
      raised := !joined;
      i := i + 1;
    }
    if !raised {
      code.AddRecipe(FinishRecipe(functionName));
    }
  }
}
