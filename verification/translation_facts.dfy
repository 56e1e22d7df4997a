/**
 * What `translate` builds, recipe by recipe: the start recipe, every block's
 * recipes at its offset with only the token entries added, and the finish
 * recipe; the token items are pairwise distinct and distinct from the
 * finish item, and no wrapped block produces a token past the last block.
 */
module TranslationFacts {
  import opened Decimal
  import opened Runtime
  import opened Abstraction

  /** The number of recipes in `bodies`, all blocks together. */
  ghost function Size(bodies: seq<seq<Recipe>>): nat
  {
    if bodies == [] then 0 else Size(bodies[..|bodies| - 1]) + |bodies[|bodies| - 1]|
  }

  /** Where block `i`'s recipes begin inside the chain of wrapped blocks. */
  ghost function Offset(bodies: seq<seq<Recipe>>, i: nat): nat
    requires i <= |bodies|
  {
    Size(bodies[..i])
  }

  lemma OffsetStep(bodies: seq<seq<Recipe>>, i: nat)
    requires i < |bodies|
    ensures Offset(bodies, i + 1) == Offset(bodies, i) + |bodies[i]|
  {
    assert bodies[..i + 1][..i] == bodies[..i];
  }

  /** Two token names are equal only for equal indices. */
  lemma TokenInjective(f: string, a: nat, b: nat)
    ensures Token(f, a) == Token(f, b) <==> a == b
  {
    if Token(f, a) == Token(f, b) {
      var p := |f| + 7;
      assert NatToString(a) == Token(f, a)[p..] == Token(f, b)[p..] == NatToString(b);
      NatToStringInjective(a, b);
    }
  }

  /** The finish item is never a token: it is shorter than any token name. */
  lemma FinishIsNoToken(f: string, i: nat)
    ensures Finish(f) != Token(f, i)
  {
    assert |Finish(f)| == |f| + 7 < |Token(f, i)|;
  }

  /**
   * `wrap_block` adds the token entries and nothing else: the first recipe
   * gains the input `Token(f, i)`, the last one (unless `last`) gains the
   * output `Token(f, i + 1)`, and a one-recipe block gains both.
   */
  lemma WrapShape(rs: seq<Recipe>, f: string, i: nat, last: bool, j: nat)
    requires 0 <= j < |rs|
    ensures |Wrap(rs, f, i, last)| == |rs|
    ensures Wrap(rs, f, i, last)[j].inputItems ==
      if j == 0 then rs[j].inputItems[Token(f, i) := 1] else rs[j].inputItems
    ensures Wrap(rs, f, i, last)[j].outputItems ==
      if j == |rs| - 1 && !last then rs[j].outputItems[Token(f, i + 1) := 1] else rs[j].outputItems
  {
  }

  /** The chain of the first `k` wrapped blocks holds block `i < k` at its offset. */
  lemma {:induction false} ChainAt(bodies: seq<seq<Recipe>>, f: string, k: nat, i: nat, j: nat)
    requires AllNonEmpty(bodies) && i < k <= |bodies| && j < |bodies[i]|
    ensures |Chain(bodies, f, k)| == Offset(bodies, k)
    ensures Offset(bodies, i) + j < Offset(bodies, k)
    ensures Chain(bodies, f, k)[Offset(bodies, i) + j] == Wrap(bodies[i], f, i, i == |bodies| - 1)[j]
  {
    WrapShape(bodies[k - 1], f, k - 1, k - 1 == |bodies| - 1, 0);
    OffsetStep(bodies, k - 1);
    if i == k - 1 {
      ChainLength(bodies, f, k - 1);
    } else {
      ChainAt(bodies, f, k - 1, i, j);
    }
  }

  lemma {:induction false} ChainLength(bodies: seq<seq<Recipe>>, f: string, k: nat)
    requires AllNonEmpty(bodies) && k <= |bodies|
    ensures |Chain(bodies, f, k)| == Offset(bodies, k)
  {
    if k > 0 {
      ChainLength(bodies, f, k - 1);
      WrapShape(bodies[k - 1], f, k - 1, k - 1 == |bodies| - 1, 0);
      OffsetStep(bodies, k - 1);
    }
  }

  /** `translate` returns two recipes more than its blocks hold, the start one first and the finish one last. */
  lemma TranslatedEnds(bodies: seq<seq<Recipe>>, f: string)
    requires AllNonEmpty(bodies)
    ensures |Translated(bodies, f)| == 2 + Size(bodies)
    ensures Translated(bodies, f)[0] == Recipe(map[f := 1], map[Token(f, 0) := 1, Finish(f) := 1])
    ensures Translated(bodies, f)[|Translated(bodies, f)| - 1] == Recipe(map[Finish(f) := 1], map[])
  {
    ChainLength(bodies, f, |bodies|);
    assert bodies[..|bodies|] == bodies;
  }

  /**
   * Recipe `j` of block `i` sits at position `1 + Offset(bodies, i) + j` of
   * the translation and equals the caller's recipe except for the token
   * entries: block `i`'s first recipe consumes `Token(f, i)`, and the last
   * recipe of every block but the last produces `Token(f, i + 1)`.
   */
  lemma TranslatedAt(bodies: seq<seq<Recipe>>, f: string, i: nat, j: nat)
    requires AllNonEmpty(bodies) && i < |bodies| && j < |bodies[i]|
    ensures 1 + Offset(bodies, i) + j < |Translated(bodies, f)| - 1
    ensures Translated(bodies, f)[1 + Offset(bodies, i) + j].inputItems ==
      if j == 0 then bodies[i][j].inputItems[Token(f, i) := 1] else bodies[i][j].inputItems
    ensures Translated(bodies, f)[1 + Offset(bodies, i) + j].outputItems ==
      if j == |bodies[i]| - 1 && i < |bodies| - 1 then bodies[i][j].outputItems[Token(f, i + 1) := 1]
      else bodies[i][j].outputItems
  {
    ChainAt(bodies, f, |bodies|, i, j);
    WrapShape(bodies[i], f, i, i == |bodies| - 1, j);
    assert bodies[..|bodies|] == bodies;
  }

  /**
   * Token `i` is consumed by block `i`'s first recipe, and for `i > 0` it is
   * produced by block `i - 1`'s last recipe, right before it in the translation.
   */
  lemma TokenPlacement(bodies: seq<seq<Recipe>>, f: string, i: nat)
    requires AllNonEmpty(bodies) && i < |bodies|
    ensures 1 + Offset(bodies, i) < |Translated(bodies, f)| - 1
    ensures Amount(Translated(bodies, f)[1 + Offset(bodies, i)].inputItems, Token(f, i)) == 1
    ensures i > 0 ==> Amount(Translated(bodies, f)[Offset(bodies, i)].outputItems, Token(f, i)) == 1
  {
    TranslatedAt(bodies, f, i, 0);
    if i > 0 {
      TranslatedAt(bodies, f, i - 1, |bodies[i - 1]| - 1);
      OffsetStep(bodies, i - 1);
    }
  }

  /**
   * No wrapped block produces a token numbered `|bodies|` or more unless the
   * caller's recipe already did: the wrapper adds only tokens `1 .. n - 1`.
   */
  lemma NoTokenBeyondLast(bodies: seq<seq<Recipe>>, f: string, i: nat, j: nat, m: nat)
    requires AllNonEmpty(bodies) && i < |bodies| && j < |bodies[i]| && m >= |bodies|
    ensures 1 + Offset(bodies, i) + j < |Translated(bodies, f)| - 1
    ensures Token(f, m) in Translated(bodies, f)[1 + Offset(bodies, i) + j].outputItems
        <==> Token(f, m) in bodies[i][j].outputItems
  {
    TranslatedAt(bodies, f, i, j);
    TokenInjective(f, i + 1, m);
  }
}
