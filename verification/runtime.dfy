/**
 * The multiset-rewriting runtime: production rules (`Recipe`), global linear
 * capacity constraints (`Limit`), the live item store with its single atomic
 * mutation path (`Storage.Exchange`), and the greedy first-fit scheduler that
 * drives the store to quiescence (`Executor.Execute`).
 *
 * Item bags are maps from item name to a Python `int`; an absent key is not
 * implicitly zero for the store (looking it up is an error), which is why the
 * store registers every item it will ever be asked about when it is built.
 */
module Runtime {
  import opened Wrappers

  type Item = string

  /** A Python dict from item name to amount. */
  type Bag = map<Item, int>

  /** `m.get(k, 0)`. */
  function Amount(m: Bag, k: Item): int
  {
    if k in m then m[k] else 0
  }

  ghost predicate NonNegative(m: Bag)
  {
    forall k :: k in m ==> 0 <= m[k]
  }

  // ---------------------------------------------------------------------------
  // Limit
  // ---------------------------------------------------------------------------

  /** `coefficients . items <= limit`, summed over the keys of `items`. */
  datatype Limit = Limit(coefficients: Bag, limit: int)
  {
    /** What one item of `items` adds to the weighted total. */
    function Term(items: Bag, k: Item): int
      requires k in items
    {
      Amount(coefficients, k) * items[k]
    }

    /** The weighted total of `items` over the keys `keys`, in no particular order. */
    ghost function Weighted(items: Bag, keys: set<Item>): int
      requires keys <= items.Keys
      decreases keys
    {
      if keys == {} then 0
      else
        var k :| k in keys;
        Term(items, k) + Weighted(items, keys - {k})
    }

    /** The limit holds for `items`. */
    ghost predicate Holds(items: Bag)
    {
      Weighted(items, items.Keys) <= limit
    }

    /** Any key may be taken out first: the total does not depend on the order of summation. */
    lemma {:induction false} WeightedPick(items: Bag, keys: set<Item>, k: Item)
      requires keys <= items.Keys && k in keys
      ensures Weighted(items, keys) == Term(items, k) + Weighted(items, keys - {k})
      decreases |keys|
    {
      var j :| j in keys && Weighted(items, keys) == Term(items, j) + Weighted(items, keys - {j});
      if j != k {
        WeightedPick(items, keys - {j}, k);
        WeightedPick(items, keys - {k}, j);
        assert keys - {j} - {k} == keys - {k} - {j};
      }
    }

    /** Loops over the entries of `items`, accumulating `coefficients.get(item, 0) * amount`. */
    method IsSatisfied(items: Bag) returns (ok: bool)
      ensures ok == Holds(items)
    {
      var total := 0;
      var rest := items.Keys;
      while rest != {}
        invariant rest <= items.Keys
        invariant total + Weighted(items, rest) == Weighted(items, items.Keys)
        decreases rest
      {
        var item :| item in rest;
        WeightedPick(items, rest, item);
        total := total + Amount(coefficients, item) * items[item];
        rest := rest - {item};
      }
      ok := total <= limit;
    }
  }

  // ---------------------------------------------------------------------------
  // Recipe
  // ---------------------------------------------------------------------------

  /** A production rule: consume `inputItems`, produce `outputItems`. */
  datatype Recipe = Recipe(inputItems: Bag, outputItems: Bag)

  /** Every item the recipe mentions is a key of the store `s`. */
  ghost predicate Registered(s: Bag, r: Recipe)
  {
    r.inputItems.Keys <= s.Keys && r.outputItems.Keys <= s.Keys
  }

  ghost predicate AllRegistered(s: Bag, recipes: seq<Recipe>)
  {
    forall r :: r in recipes ==> Registered(s, r)
  }

  // ---------------------------------------------------------------------------
  // Specification of the store
  // ---------------------------------------------------------------------------

  /** Every item mentioned by some recipe of `recipes`. */
  ghost function RecipeItems(recipes: seq<Recipe>): set<Item>
  {
    if recipes == [] then {}
    else
      var last := recipes[|recipes| - 1];
      RecipeItems(recipes[..|recipes| - 1]) + last.inputItems.Keys + last.outputItems.Keys
  }

  /** Every item that carries a coefficient in some limit of `limits`. */
  ghost function LimitItems(limits: seq<Limit>): set<Item>
  {
    if limits == [] then {}
    else LimitItems(limits[..|limits| - 1]) + limits[|limits| - 1].coefficients.Keys
  }

  /** `m` with every key of `keys` that it lacks added at amount 0. */
  ghost function Register(m: Bag, keys: set<Item>): Bag
  {
    map k | k in m.Keys + keys :: Amount(m, k)
  }

  /** `contains`: there is enough of every item `items` asks for. */
  ghost predicate Stocked(s: Bag, items: Bag)
    requires items.Keys <= s.Keys
  {
    forall k :: k in items ==> items[k] <= s[k]
  }

  /** `check_limits`: every limit holds for `items`. */
  ghost predicate AllHold(limits: seq<Limit>, items: Bag)
  {
    forall l :: l in limits ==> l.Holds(items)
  }

  /** The candidate state `s - inputs + outputs`. */
  ghost function Apply(s: Bag, r: Recipe): Bag
  {
    map k | k in s :: s[k] - Amount(r.inputItems, k) + Amount(r.outputItems, k)
  }

  /** `exchange` succeeds: the inputs are in stock and the candidate state passes every limit. */
  ghost predicate Fires(s: Bag, r: Recipe, limits: seq<Limit>)
    requires Registered(s, r)
  {
    Stocked(s, r.inputItems) && AllHold(limits, Apply(s, r))
  }

  /** `s` after subtracting (sign -1) or adding (sign 1) the entries of `m` whose key is in `done`. */
  ghost function Shift(s: Bag, m: Bag, done: set<Item>, sign: int): Bag
  {
    map k | k in s :: if k in done && k in m then s[k] + sign * m[k] else s[k]
  }

  // ---------------------------------------------------------------------------
  // Storage
  // ---------------------------------------------------------------------------

  class Storage {
    var storage: Bag
    const limits: seq<Limit>

    /**
     * Takes the initial items and the limits, then registers every item of
     * every recipe and every limit coefficient at amount 0.
     */
    constructor (initialItems: Bag, limits: seq<Limit>, recipes: seq<Recipe>)
      ensures this.limits == limits
      ensures forall r :: r in recipes ==> Registered(storage, r)
      ensures forall l :: l in limits ==> l.coefficients.Keys <= storage.Keys
      ensures forall k :: k in initialItems ==> k in storage && storage[k] == initialItems[k]
      ensures forall k :: k in storage && k !in initialItems ==> storage[k] == 0
      ensures storage.Keys == initialItems.Keys + RecipeItems(recipes) + LimitItems(limits)
    {
      storage := initialItems;
      this.limits := limits;
      new;
      InitializeStorage(recipes);
      forall r | r in recipes
        ensures Registered(storage, r)
      {
        RecipeItemsCover(recipes, r);
      }
      forall l | l in limits
        ensures l.coefficients.Keys <= storage.Keys
      {
        LimitItemsCover(limits, l);
      }
    }

    /** Adds at amount 0 every item of `recipes` and of the limits that the store lacks. */
    method InitializeStorage(recipes: seq<Recipe>)
      modifies this
      ensures storage == Register(old(storage), RecipeItems(recipes) + LimitItems(limits))
    {
      ghost var before := storage;
      for i := 0 to |recipes|
        invariant storage == Register(before, RecipeItems(recipes[..i]))
      {
        RegisterKeys(recipes[i].inputItems.Keys);
        RegisterKeys(recipes[i].outputItems.Keys);
        RegisterTwice(before, RecipeItems(recipes[..i]), recipes[i].inputItems.Keys);
        RegisterTwice(before, RecipeItems(recipes[..i]) + recipes[i].inputItems.Keys, recipes[i].outputItems.Keys);
        assert recipes[..i + 1][..i] == recipes[..i];
      }
      assert recipes[..|recipes|] == recipes;
      ghost var afterRecipes := storage;
      for i := 0 to |limits|
        invariant storage == Register(afterRecipes, LimitItems(limits[..i]))
      {
        RegisterKeys(limits[i].coefficients.Keys);
        RegisterTwice(afterRecipes, LimitItems(limits[..i]), limits[i].coefficients.Keys);
        assert limits[..i + 1][..i] == limits[..i];
      }
      assert limits[..|limits|] == limits;
      RegisterTwice(before, RecipeItems(recipes), LimitItems(limits));
    }

    /** One inner loop of `initialize_storage`: `if item not in storage: storage[item] = 0`. */
    method RegisterKeys(keys: set<Item>)
      modifies this
      ensures storage == Register(old(storage), keys)
    {
      ghost var before := storage;
      var rest := keys;
      ghost var done: set<Item> := {};
      RegisterNothing(before);
      while rest != {}
        invariant rest <= keys && done == keys - rest
        invariant storage == Register(before, done)
        decreases rest
      {
        var item :| item in rest;
        RegisterOneMore(before, done, item);
        if item !in storage {
          storage := storage[item := 0];
        }
        rest := rest - {item};
        done := done + {item};
      }
    }

    /** True iff every amount in `items` is at most the stored amount of that item. */
    method Contains(items: Bag) returns (ok: bool)
      requires items.Keys <= storage.Keys
      ensures ok == Stocked(storage, items)
    {
      var rest := items.Keys;
      while rest != {}
        invariant rest <= items.Keys
        invariant forall k :: k in items && k !in rest ==> items[k] <= storage[k]
        decreases rest
      {
        var item :| item in rest;
        if items[item] > storage[item] {
          return false;
        }
        rest := rest - {item};
      }
      return true;
    }

    /** True iff every limit of the store holds for `items`. */
    method CheckLimits(items: Bag) returns (ok: bool)
      ensures ok == AllHold(limits, items)
    {
      for i := 0 to |limits|
        invariant forall j :: 0 <= j < i ==> limits[j].Holds(items)
      {
        var satisfied := limits[i].IsSatisfied(items);
        if !satisfied {
          return false;
        }
      }
      return true;
    }

    /**
     * Applies `recipe` atomically: on success the store becomes
     * `storage - inputs + outputs`; on failure (not enough items, or a limit
     * violated by the candidate state) the store is left as it was.
     */
    method Exchange(recipe: Recipe) returns (ok: bool)
      requires Registered(storage, recipe)
      modifies this
      ensures ok == Fires(old(storage), recipe, limits)
      ensures storage == if ok then Apply(old(storage), recipe) else old(storage)
      ensures storage.Keys == old(storage).Keys
    {
      ok := false;
      var enough := Contains(recipe.inputItems);
      if enough {
        var taken := ShiftAll(storage, recipe.inputItems, -1);
        var newStorage := ShiftAll(taken, recipe.outputItems, 1);
        ApplyByShifts(storage, recipe);
        ok := CheckLimits(newStorage);
        if ok {
          storage := newStorage;
        }
      }
    }
  }

  /**
   * One of `exchange`'s per-item loops: subtracts (sign -1) or adds (sign 1)
   * every entry of `m` to a copy of `s`, one key at a time in any order.
   */
  method ShiftAll(s: Bag, m: Bag, sign: int) returns (r: Bag)
    requires m.Keys <= s.Keys
    ensures r == Shift(s, m, m.Keys, sign)
  {
    r := s;
    var rest := m.Keys;
    ghost var done: set<Item> := {};
    while rest != {}
      invariant rest <= m.Keys && done == m.Keys - rest
      invariant r == Shift(s, m, done, sign)
      decreases rest
    {
      var item :| item in rest;
      ShiftOneMore(s, m, done, sign, item);
      r := r[item := r[item] + sign * m[item]];
      rest, done := rest - {item}, done + {item};
    }
  }

  lemma RegisterNothing(m: Bag)
    ensures Register(m, {}) == m
  {
    assert Register(m, {}).Keys == m.Keys;
  }

  lemma RegisterOneMore(m: Bag, done: set<Item>, item: Item)
    ensures var r := Register(m, done);
      Register(m, done + {item}) == if item in r then r else r[item := 0]
  {
    var r := Register(m, done);
    var r' := if item in r then r else r[item := 0];
    assert Register(m, done + {item}).Keys == r'.Keys;
  }

  lemma ShiftOneMore(s: Bag, m: Bag, done: set<Item>, sign: int, item: Item)
    requires item in s && item in m && item !in done
    ensures var r := Shift(s, m, done, sign);
      Shift(s, m, done + {item}, sign) == r[item := r[item] + sign * m[item]]
  {
    var r := Shift(s, m, done, sign);
    var r' := r[item := r[item] + sign * m[item]];
    assert Shift(s, m, done + {item}, sign).Keys == r'.Keys;
  }

  lemma ApplyByShifts(s: Bag, r: Recipe)
    requires Registered(s, r)
    ensures Shift(Shift(s, r.inputItems, r.inputItems.Keys, -1), r.outputItems, r.outputItems.Keys, 1) == Apply(s, r)
  {
  }

  lemma RegisterTwice(m: Bag, a: set<Item>, b: set<Item>)
    ensures Register(Register(m, a), b) == Register(m, a + b)
  {
  }

  lemma {:induction false} RecipeItemsCover(recipes: seq<Recipe>, r: Recipe)
    requires r in recipes
    ensures r.inputItems.Keys + r.outputItems.Keys <= RecipeItems(recipes)
  {
    var n := |recipes| - 1;
    if recipes[n] != r {
      assert r in recipes[..n];
      RecipeItemsCover(recipes[..n], r);
    }
  }

  lemma {:induction false} LimitItemsCover(limits: seq<Limit>, l: Limit)
    requires l in limits
    ensures l.coefficients.Keys <= LimitItems(limits)
  {
    var n := |limits| - 1;
    if limits[n] != l {
      assert l in limits[..n];
      LimitItemsCover(limits[..n], l);
    }
  }

  // ---------------------------------------------------------------------------
  // Executor
  // ---------------------------------------------------------------------------

  /** The index of the first recipe at or after `from` whose exchange would succeed on `s`. */
  ghost function FirstFiring(s: Bag, recipes: seq<Recipe>, limits: seq<Limit>, from: nat): (r: Option<nat>)
    requires AllRegistered(s, recipes)
    ensures r.Some? ==> from <= r.value < |recipes| && Fires(s, recipes[r.value], limits)
    ensures r.Some? ==> forall j :: from <= j < r.value ==> !Fires(s, recipes[j], limits)
    ensures r.None? ==> forall j :: from <= j < |recipes| ==> !Fires(s, recipes[j], limits)
    decreases |recipes| - from
  {
    if from >= |recipes| then None
    else if Fires(s, recipes[from], limits) then Some(from)
    else FirstFiring(s, recipes, limits, from + 1)
  }

  /** The state an execution ends in, and whether it ended because a whole pass fired nothing. */
  datatype Outcome = Outcome(final: Bag, quiescent: bool)

  /**
   * At most `fuel` passes of the scheduler: each pass fires the first recipe
   * that can fire and starts over; a pass that fires nothing ends the run.
   */
  ghost function Run(s: Bag, recipes: seq<Recipe>, limits: seq<Limit>, fuel: nat): Outcome
    requires AllRegistered(s, recipes)
    decreases fuel
  {
    if fuel == 0 then Outcome(s, false)
    else
      match FirstFiring(s, recipes, limits, 0)
      case None => Outcome(s, true)
      case Some(i) =>
        assert Apply(s, recipes[i]).Keys == s.Keys;
        Run(Apply(s, recipes[i]), recipes, limits, fuel - 1)
  }

  class Executor {
    const recipes: seq<Recipe>
    const storage: Storage

    constructor (recipes: seq<Recipe>, storage: Storage)
      ensures this.recipes == recipes && this.storage == storage
    {
      this.recipes := recipes;
      this.storage := storage;
    }

    /** Every item a recipe mentions is registered in the store (otherwise exchange fails with a lookup error). */
    ghost predicate Valid()
      reads this, storage
    {
      AllRegistered(storage.storage, recipes)
    }

    /**
     * Repeats passes over the recipes, firing the first one whose exchange
     * succeeds and starting over, until a pass fires nothing or `fuel` passes
     * have been made.
     */
    method Execute(fuel: nat) returns (quiescent: bool)
      requires Valid()
      modifies storage
      ensures Valid()
      ensures Outcome(storage.storage, quiescent) == Run(old(storage.storage), recipes, storage.limits, fuel)
    {
      var anyRun := true;
      var passes: nat := 0;
      while anyRun && passes < fuel
        invariant passes <= fuel
        invariant storage.storage.Keys == old(storage.storage).Keys
        invariant Valid()
        invariant anyRun ==> Run(storage.storage, recipes, storage.limits, fuel - passes)
                             == Run(old(storage.storage), recipes, storage.limits, fuel)
        invariant !anyRun ==> Run(old(storage.storage), recipes, storage.limits, fuel)
                              == Outcome(storage.storage, true)
        decreases fuel - passes
      {
        anyRun := false;
        ghost var before := storage.storage;
        var i := 0;
        while i < |recipes|
          invariant i <= |recipes|
          invariant storage.storage == before
          invariant FirstFiring(before, recipes, storage.limits, 0) == FirstFiring(before, recipes, storage.limits, i)
        {
          var fired := storage.Exchange(recipes[i]);
          if fired {
            anyRun := true;
            break;
          }
          i := i + 1;
        }
        passes := passes + 1;
      }
      quiescent := !anyRun;
    }
  }
}

/**
 * Properties of the runtime: what a limit check means, what one exchange and
 * a whole scheduler run keep invariant, and the two example runs.
 */
module RuntimeFacts {
  import opened Wrappers
  import opened Runtime

  // ---------------------------------------------------------------------------
  // Limits
  // ---------------------------------------------------------------------------

  /** Summing over two disjoint key sets is summing over each and adding. */
  lemma {:induction false} WeightedSplit(l: Limit, items: Bag, a: set<Item>, b: set<Item>)
    requires a !! b && a + b <= items.Keys
    ensures l.Weighted(items, a + b) == l.Weighted(items, a) + l.Weighted(items, b)
    decreases b
  {
    if b == {} {
      assert a + b == a;
    } else {
      var k :| k in b;
      l.WeightedPick(items, a + b, k);
      l.WeightedPick(items, b, k);
      assert a + b - {k} == a + (b - {k});
      WeightedSplit(l, items, a, b - {k});
    }
  }

  /** Two totals whose terms agree key by key are equal. */
  lemma {:induction false} WeightedCongruent(l1: Limit, i1: Bag, l2: Limit, i2: Bag, keys: set<Item>)
    requires keys <= i1.Keys && keys <= i2.Keys
    requires forall k :: k in keys ==> l1.Term(i1, k) == l2.Term(i2, k)
    ensures l1.Weighted(i1, keys) == l2.Weighted(i2, keys)
    decreases keys
  {
    if keys != {} {
      var k :| k in keys;
      l1.WeightedPick(i1, keys, k);
      l2.WeightedPick(i2, keys, k);
      WeightedCongruent(l1, i1, l2, i2, keys - {k});
    }
  }

  /** Keys whose terms are all 0 (an amount of 0 or no coefficient) add nothing to the total. */
  lemma {:induction false} WeightedZero(l: Limit, items: Bag, keys: set<Item>)
    requires keys <= items.Keys
    requires forall k :: k in keys ==> l.Term(items, k) == 0
    ensures l.Weighted(items, keys) == 0
    decreases keys
  {
    if keys != {} {
      var k :| k in keys;
      l.WeightedPick(items, keys, k);
      WeightedZero(l, items, keys - {k});
    }
  }

  /**
   * A limit constrains only the items present in the bag it checks: its
   * coefficients for other items (which `is_satisfied` never looks up) do not
   * change the verdict.
   */
  lemma HoldsIgnoresAbsentCoefficients(l: Limit, c: Bag, items: Bag)
    requires forall k :: k in items ==> Amount(c, k) == Amount(l.coefficients, k)
    ensures l.Holds(items) <==> Limit(c, l.limit).Holds(items)
  {
    WeightedCongruent(l, items, Limit(c, l.limit), items, items.Keys);
  }

  /**
   * Registering items at amount 0, as the store does when it is built, does
   * not change whether a limit holds.
   */
  lemma HoldsAfterRegister(l: Limit, m: Bag, keys: set<Item>)
    ensures l.Holds(Register(m, keys)) <==> l.Holds(m)
  {
    var r := Register(m, keys);
    var extra := r.Keys - m.Keys;
    assert r.Keys == m.Keys + extra;
    WeightedSplit(l, r, m.Keys, extra);
    WeightedCongruent(l, r, l, m, m.Keys);
    assert forall k :: k in extra ==> r[k] == 0;
    WeightedZero(l, r, extra);
  }

  /** `Limit({X: 2, Y: 1}, 5)` accepts `{X: 2, Y: 1}` (total 5) and rejects `{X: 2, Y: 2}` (total 6). */
  lemma LimitExample()
    ensures Limit(map["X" := 2, "Y" := 1], 5).Holds(map["X" := 2, "Y" := 1])
    ensures !Limit(map["X" := 2, "Y" := 1], 5).Holds(map["X" := 2, "Y" := 2])
  {
    var l := Limit(map["X" := 2, "Y" := 1], 5);
    var accepted := map["X" := 2, "Y" := 1];
    var rejected := map["X" := 2, "Y" := 2];
    assert accepted.Keys == {"X", "Y"} && rejected.Keys == {"X", "Y"};
    assert {"X", "Y"} - {"X"} == {"Y"};
    assert {"Y"} - {"Y"} == {};
    l.WeightedPick(accepted, {"X", "Y"}, "X");
    l.WeightedPick(accepted, {"Y"}, "Y");
    l.WeightedPick(rejected, {"X", "Y"}, "X");
    l.WeightedPick(rejected, {"Y"}, "Y");
  }

  // ---------------------------------------------------------------------------
  // One exchange
  // ---------------------------------------------------------------------------

  /**
   * A successful exchange keeps every amount non-negative: inputs are only
   * subtracted once the stock covers them, and outputs only add.
   */
  lemma ApplyKeepsNonNegative(s: Bag, r: Recipe)
    requires Registered(s, r) && NonNegative(s) && NonNegative(r.outputItems)
    requires Stocked(s, r.inputItems)
    ensures NonNegative(Apply(s, r))
  {
    forall k | k in Apply(s, r)
      ensures 0 <= Apply(s, r)[k]
    {
      assert 0 <= s[k] - Amount(r.inputItems, k);
    }
  }

  /** The amounts of items the recipe does not mention are not touched. */
  lemma ApplyFrame(s: Bag, r: Recipe, k: Item)
    requires k in s && k !in r.inputItems && k !in r.outputItems
    ensures k in Apply(s, r) && Apply(s, r)[k] == s[k]
  {
  }

  // ---------------------------------------------------------------------------
  // A scheduler run
  // ---------------------------------------------------------------------------

  ghost predicate OutputsNonNegative(recipes: seq<Recipe>)
  {
    forall r :: r in recipes ==> NonNegative(r.outputItems)
  }

  /** A run never adds or removes items of the store. */
  lemma {:induction false} RunKeepsKeys(s: Bag, recipes: seq<Recipe>, limits: seq<Limit>, fuel: nat)
    requires AllRegistered(s, recipes)
    ensures Run(s, recipes, limits, fuel).final.Keys == s.Keys
    decreases fuel
  {
    if fuel > 0 {
      var first := FirstFiring(s, recipes, limits, 0);
      if first.Some? {
        var s' := Apply(s, recipes[first.value]);
        assert s'.Keys == s.Keys;
        RunKeepsKeys(s', recipes, limits, fuel - 1);
      }
    }
  }

  /** When a run ends quiescent, no recipe's exchange would succeed on the final store. */
  lemma {:induction false} RunQuiescent(s: Bag, recipes: seq<Recipe>, limits: seq<Limit>, fuel: nat)
    requires AllRegistered(s, recipes)
    ensures var o := Run(s, recipes, limits, fuel);
      o.quiescent ==> AllRegistered(o.final, recipes) &&
                      forall i :: 0 <= i < |recipes| ==> !Fires(o.final, recipes[i], limits)
    decreases fuel
  {
    if fuel > 0 {
      var first := FirstFiring(s, recipes, limits, 0);
      if first.Some? {
        var s' := Apply(s, recipes[first.value]);
        assert s'.Keys == s.Keys;
        RunQuiescent(s', recipes, limits, fuel - 1);
      }
    }
  }

  /** A run from a non-negative store, with recipes that never output negative amounts, stays non-negative. */
  lemma {:induction false} RunKeepsNonNegative(s: Bag, recipes: seq<Recipe>, limits: seq<Limit>, fuel: nat)
    requires AllRegistered(s, recipes) && NonNegative(s) && OutputsNonNegative(recipes)
    ensures NonNegative(Run(s, recipes, limits, fuel).final)
    decreases fuel
  {
    if fuel > 0 {
      var first := FirstFiring(s, recipes, limits, 0);
      if first.Some? {
        var r := recipes[first.value];
        var s' := Apply(s, r);
        assert s'.Keys == s.Keys;
        ApplyKeepsNonNegative(s, r);
        RunKeepsNonNegative(s', recipes, limits, fuel - 1);
      }
    }
  }

  /** Every state a run reaches by firing satisfies every limit, so a run that starts within the limits ends within them. */
  lemma {:induction false} RunKeepsLimits(s: Bag, recipes: seq<Recipe>, limits: seq<Limit>, fuel: nat)
    requires AllRegistered(s, recipes) && AllHold(limits, s)
    ensures AllHold(limits, Run(s, recipes, limits, fuel).final)
    decreases fuel
  {
    if fuel > 0 {
      var first := FirstFiring(s, recipes, limits, 0);
      if first.Some? {
        var s' := Apply(s, recipes[first.value]);
        assert s'.Keys == s.Keys;
        RunKeepsLimits(s', recipes, limits, fuel - 1);
      }
    }
  }

  /** Once a run has reached quiescence, more fuel changes nothing: the result does not depend on the bound. */
  lemma {:induction false} RunStable(s: Bag, recipes: seq<Recipe>, limits: seq<Limit>, fuel: nat, more: nat)
    requires AllRegistered(s, recipes)
    requires Run(s, recipes, limits, fuel).quiescent && fuel <= more
    ensures Run(s, recipes, limits, more) == Run(s, recipes, limits, fuel)
    decreases fuel
  {
    var first := FirstFiring(s, recipes, limits, 0);
    if first.Some? {
      var s' := Apply(s, recipes[first.value]);
      assert s'.Keys == s.Keys;
      RunStable(s', recipes, limits, fuel - 1, more - 1);
    }
  }

  /** `{A: 2}` with the single recipe `{A: 1} -> {B: 1}` and no limits ends quiescent at `{A: 0, B: 2}`. */
  lemma DrainScenario()
    ensures var recipes := [Recipe(map["A" := 1], map["B" := 1])];
      var s := Register(map["A" := 2], RecipeItems(recipes));
      s == map["A" := 2, "B" := 0] &&
      Run(s, recipes, [], 3) == Outcome(map["A" := 0, "B" := 2], true)
  {
    var r := Recipe(map["A" := 1], map["B" := 1]);
    var recipes := [r];
    assert recipes[..0] == [];
    assert RecipeItems(recipes) == {"A", "B"};
    var s0 := map["A" := 2, "B" := 0];
    assert Register(map["A" := 2], RecipeItems(recipes)) == s0;
    var s1 := map["A" := 1, "B" := 1];
    var s2 := map["A" := 0, "B" := 2];
    assert Stocked(s0, r.inputItems) && Apply(s0, r) == s1;
    assert FirstFiring(s0, recipes, [], 0) == Some(0);
    assert Stocked(s1, r.inputItems) && Apply(s1, r) == s2;
    assert FirstFiring(s1, recipes, [], 0) == Some(0);
    assert !Stocked(s2, r.inputItems);
    assert FirstFiring(s2, recipes, [], 0) == None;
  }

  /** `{} -> {A: 1}` can always fire, so no amount of fuel brings the run to quiescence. */
  lemma {:induction false} SpringNeverQuiesces(s: Bag, fuel: nat)
    requires "A" in s
    ensures !Run(s, [Recipe(map[], map["A" := 1])], [], fuel).quiescent
    decreases fuel
  {
    if fuel > 0 {
      var recipes := [Recipe(map[], map["A" := 1])];
      assert Fires(s, recipes[0], []);
      assert FirstFiring(s, recipes, [], 0) == Some(0);
      SpringNeverQuiesces(Apply(s, recipes[0]), fuel - 1);
    }
  }
}
