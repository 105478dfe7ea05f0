/**
 Order-preserving duplicate elimination modulo a "subsumed by" relation.

 The collector and the controller build every list of a profile in one of two ways: by
 appending an entry unless the list built so far already covers it (`Grow`), or by
 appending exactly those entries of a second list that a fixed first list does not
 cover (`Uncovered`).  This module relates the two.
 */
module Dedup {
  import opened Sequences

  ghost predicate Reflexive<T(!new)>(sub: (T, T) -> bool) {
    forall x :: sub(x, x)
  }

  ghost predicate Transitive<T(!new)>(sub: (T, T) -> bool) {
    forall x, y, z {:trigger sub(x, y), sub(y, z)} :: sub(x, y) && sub(y, z) ==> sub(x, z)
  }

  ghost predicate Symmetric<T(!new)>(sub: (T, T) -> bool) {
    forall x, y {:trigger sub(x, y)} :: sub(x, y) ==> sub(y, x)
  }

  /** Some entry of `acc` subsumes `x`. */
  predicate Covered<T>(sub: (T, T) -> bool, x: T, acc: seq<T>) {
    exists i :: 0 <= i < |acc| && sub(x, acc[i])
  }

  /** No entry is subsumed by an earlier one. */
  ghost predicate Irredundant<T>(sub: (T, T) -> bool, xs: seq<T>) {
    forall i, j :: 0 <= i < j < |xs| ==> !sub(xs[j], xs[i])
  }

  function Add<T>(sub: (T, T) -> bool, acc: seq<T>, x: T): seq<T> {
    if Covered(sub, x, acc) then acc else acc + [x]
  }

  /** Append, left to right, every entry of `xs` that the list built so far does not cover. */
  function Grow<T>(sub: (T, T) -> bool, acc: seq<T>, xs: seq<T>): seq<T> {
    if xs == [] then acc
    else Add(sub, Grow(sub, acc, xs[..|xs| - 1]), xs[|xs| - 1])
  }

  /** As `Grow`, but never append to a list of `limit` or more entries. */
  function GrowUpTo<T>(limit: nat, sub: (T, T) -> bool, acc: seq<T>, xs: seq<T>): seq<T> {
    if xs == [] then acc
    else
      var g := GrowUpTo(limit, sub, acc, xs[..|xs| - 1]);
      if |g| < limit then Add(sub, g, xs[|xs| - 1]) else g
  }

  /** The entries of `xs` that the fixed list `acc` does not cover, in order. */
  function Uncovered<T>(sub: (T, T) -> bool, xs: seq<T>, acc: seq<T>): seq<T> {
    if xs == [] then []
    else
      var rest := Uncovered(sub, xs[..|xs| - 1], acc);
      if Covered(sub, xs[|xs| - 1], acc) then rest else rest + [xs[|xs| - 1]]
  }

  /** The defined images of `xs`, in order. */
  function Select<A, B>(f: A -> Option<B>, xs: seq<A>): seq<B> {
    if xs == [] then []
    else
      var rest := Select(f, xs[..|xs| - 1]);
      match f(xs[|xs| - 1])
      case None => rest
      case Some(y) => rest + [y]
  }

  lemma {:induction false} SelectConcat<A, B>(f: A -> Option<B>, xs: seq<A>, ys: seq<A>)
    ensures Select(f, xs + ys) == Select(f, xs) + Select(f, ys)
  {
    if ys == [] {
      assert xs + ys == xs;
    } else {
      SelectConcat(f, xs, ys[..|ys| - 1]);
      assert (xs + ys)[..|xs + ys| - 1] == xs + ys[..|ys| - 1];
    }
  }

  /** The entries of a selection are exactly the defined images. */
  lemma {:induction false} SelectIsImage<A, B>(f: A -> Option<B>, xs: seq<A>)
    ensures forall y :: y in Select(f, xs) <==> exists i :: 0 <= i < |xs| && f(xs[i]) == Some(y)
  {
    if xs != [] {
      var last := |xs| - 1;
      SelectIsImage(f, xs[..last]);
      assert forall i :: 0 <= i < last ==> xs[..last][i] == xs[i];
      forall y
        ensures y in Select(f, xs) <==> exists i :: 0 <= i < |xs| && f(xs[i]) == Some(y)
      {
        if y in Select(f, xs[..last]) {
          var i :| 0 <= i < last && f(xs[..last][i]) == Some(y);
          assert f(xs[i]) == Some(y);
        }
        if i :| 0 <= i < |xs| && f(xs[i]) == Some(y) && i < last {
          assert f(xs[..last][i]) == Some(y);
        }
      }
    }
  }

  lemma {:induction false} GrowConcat<T>(sub: (T, T) -> bool, acc: seq<T>, xs: seq<T>, ys: seq<T>)
    ensures Grow(sub, acc, xs + ys) == Grow(sub, Grow(sub, acc, xs), ys)
  {
    if ys == [] {
      assert xs + ys == xs;
    } else {
      GrowConcat(sub, acc, xs, ys[..|ys| - 1]);
      assert (xs + ys)[..|xs + ys| - 1] == xs + ys[..|ys| - 1];
    }
  }

  lemma {:induction false} GrowExtends<T>(sub: (T, T) -> bool, acc: seq<T>, xs: seq<T>)
    ensures acc <= Grow(sub, acc, xs)
    ensures |Grow(sub, acc, xs)| <= |acc| + |xs|
    ensures forall y :: y in Grow(sub, acc, xs) ==> y in acc || y in xs
  {
    if xs != [] {
      GrowExtends(sub, acc, xs[..|xs| - 1]);
    }
  }

  /** Every entry offered is covered in the end; nothing that was covered is lost. */
  lemma {:induction false} GrowCovers<T(!new)>(sub: (T, T) -> bool, acc: seq<T>, xs: seq<T>)
    requires Reflexive(sub)
    ensures forall x :: x in xs ==> Covered(sub, x, Grow(sub, acc, xs))
    ensures forall x :: Covered(sub, x, acc) ==> Covered(sub, x, Grow(sub, acc, xs))
  {
    GrowExtends(sub, acc, xs);
    forall x | Covered(sub, x, acc)
      ensures Covered(sub, x, Grow(sub, acc, xs))
    {
      var i :| 0 <= i < |acc| && sub(x, acc[i]);
      assert acc[i] == Grow(sub, acc, xs)[i];
    }
    if xs != [] {
      var init, last := xs[..|xs| - 1], xs[|xs| - 1];
      var g := Grow(sub, acc, init);
      GrowCovers(sub, acc, init);
      var h := Grow(sub, acc, xs);
      forall x | x in xs
        ensures Covered(sub, x, h)
      {
        if x in init {
          var i :| 0 <= i < |g| && sub(x, g[i]);
          assert h[i] == g[i];
        } else if !Covered(sub, last, g) {
          assert h[|g|] == last;
        }
      }
    }
  }

  lemma {:induction false} GrowIrredundant<T>(sub: (T, T) -> bool, acc: seq<T>, xs: seq<T>)
    requires Irredundant(sub, acc)
    ensures Irredundant(sub, Grow(sub, acc, xs))
  {
    if xs != [] {
      GrowIrredundant(sub, acc, xs[..|xs| - 1]);
    }
  }

  lemma {:induction false} UncoveredConcat<T>(sub: (T, T) -> bool, xs: seq<T>, ys: seq<T>, acc: seq<T>)
    ensures Uncovered(sub, xs + ys, acc) == Uncovered(sub, xs, acc) + Uncovered(sub, ys, acc)
  {
    if ys == [] {
      assert xs + ys == xs;
    } else {
      UncoveredConcat(sub, xs, ys[..|ys| - 1], acc);
      assert (xs + ys)[..|xs + ys| - 1] == xs + ys[..|ys| - 1];
    }
  }

  lemma {:induction false} UncoveredMembers<T>(sub: (T, T) -> bool, xs: seq<T>, acc: seq<T>)
    ensures forall x :: x in Uncovered(sub, xs, acc) ==> x in xs && !Covered(sub, x, acc)
    ensures forall x :: x in xs && !Covered(sub, x, acc) ==> x in Uncovered(sub, xs, acc)
    ensures |Uncovered(sub, xs, acc)| <= |xs|
  {
    if xs != [] {
      UncoveredMembers(sub, xs[..|xs| - 1], acc);
    }
  }

  /** Filtering an irredundant list against an irredundant list and appending keeps irredundance. */
  lemma {:induction false} UncoveredIrredundant<T>(sub: (T, T) -> bool, xs: seq<T>, acc: seq<T>)
    requires Irredundant(sub, xs) && Irredundant(sub, acc)
    ensures Irredundant(sub, acc + Uncovered(sub, xs, acc))
  {
    if xs == [] {
      assert acc + [] == acc;
    } else {
      var init, last := xs[..|xs| - 1], xs[|xs| - 1];
      UncoveredIrredundant(sub, init, acc);
      UncoveredMembers(sub, init, acc);
      var before := acc + Uncovered(sub, init, acc);
      if !Covered(sub, last, acc) {
        assert acc + Uncovered(sub, xs, acc) == before + [last];
        forall i | 0 <= i < |before|
          ensures !sub(last, before[i])
        {
          if i >= |acc| {
            var y := Uncovered(sub, init, acc)[i - |acc|];
            assert y in Uncovered(sub, init, acc) && y in init;
            var k :| 0 <= k < |init| && init[k] == y;
            assert xs[k] == before[i];
          }
        }
      }
    }
  }

  /**
   The heart of incremental merging: growing `acc` by a batch equals de-duplicating the batch
   on its own and then appending what `acc` does not cover.
   */
  lemma {:induction false} GrowSplits<T(!new)>(sub: (T, T) -> bool, acc: seq<T>, xs: seq<T>)
    requires Transitive(sub)
    ensures Grow(sub, acc, xs) == acc + Uncovered(sub, Grow(sub, [], xs), acc)
  {
    if xs == [] {
      assert acc + [] == acc;
    } else {
      var init, last := xs[..|xs| - 1], xs[|xs| - 1];
      GrowSplits(sub, acc, init);
      var unique := Grow(sub, [], init);
      var kept := Uncovered(sub, unique, acc);
      UncoveredMembers(sub, unique, acc);
      var g := acc + kept;
      if Covered(sub, last, acc) {
        var i :| 0 <= i < |acc| && sub(last, acc[i]);
        assert g[i] == acc[i];
        assert Covered(sub, last, g);
      } else if Covered(sub, last, unique) {
        var j :| 0 <= j < |unique| && sub(last, unique[j]);
        forall i | 0 <= i < |acc|
          ensures !sub(unique[j], acc[i])
        {
          assert !sub(last, acc[i]);
        }
        assert unique[j] in kept;
        var k :| 0 <= k < |kept| && kept[k] == unique[j];
        assert g[|acc| + k] == unique[j];
        assert Covered(sub, last, g);
      } else {
        forall i | 0 <= i < |g|
          ensures !sub(last, g[i])
        {
          assert i >= |acc| ==> g[i] in kept && g[i] in unique;
        }
        assert Grow(sub, acc, xs) == g + [last];
        assert (unique + [last])[..|unique + [last]| - 1] == unique;
        assert acc + (kept + [last]) == (acc + kept) + [last];
      }
    }
  }

  lemma {:induction false} GrowIdempotent<T>(sub: (T, T) -> bool, xs: seq<T>)
    requires Irredundant(sub, xs)
    ensures Grow(sub, [], xs) == xs
  {
    if xs != [] {
      GrowIdempotent(sub, xs[..|xs| - 1]);
    }
  }

  /** De-duplicating a batch before growing by it changes nothing. */
  lemma GrowByDeduplicated<T(!new)>(sub: (T, T) -> bool, acc: seq<T>, xs: seq<T>)
    requires Transitive(sub)
    ensures Grow(sub, acc, Grow(sub, [], xs)) == Grow(sub, acc, xs)
  {
    var unique := Grow(sub, [], xs);
    GrowIrredundant(sub, [], xs);
    GrowIdempotent(sub, unique);
    GrowSplits(sub, acc, unique);
    GrowSplits(sub, acc, xs);
  }

  /** The closed form of capped growth: it is uncapped growth cut off at the limit. */
  lemma {:induction false} GrowUpToIsCut<T>(limit: nat, sub: (T, T) -> bool, acc: seq<T>, xs: seq<T>)
    ensures GrowUpTo(limit, sub, acc, xs)
         == Grow(sub, acc, xs)[..Min(|Grow(sub, acc, xs)|, Max(|acc|, limit))]
  {
    if xs != [] {
      GrowUpToIsCut(limit, sub, acc, xs[..|xs| - 1]);
      GrowExtends(sub, acc, xs[..|xs| - 1]);
    }
  }

  /** Two lists without duplicates that cover each other modulo an equivalence are equally long. */
  lemma {:induction false} MutualCoverSameLength<T(!new)>(same: (T, T) -> bool, xs: seq<T>, ys: seq<T>)
    requires Symmetric(same) && Transitive(same)
    requires Irredundant(same, xs) && Irredundant(same, ys)
    requires forall x :: x in xs ==> Covered(same, x, ys)
    ensures |xs| <= |ys|
  {
    if xs != [] {
      var init, last := xs[..|xs| - 1], xs[|xs| - 1];
      assert last in xs;
      var k :| 0 <= k < |ys| && same(last, ys[k]);
      var rest := ys[..k] + ys[k + 1..];
      forall x | x in init
        ensures Covered(same, x, rest)
      {
        var i :| 0 <= i < |init| && init[i] == x;
        assert xs[i] == x && x in xs;
        var j :| 0 <= j < |ys| && same(x, ys[j]);
        assert same(ys[j], x) && !same(last, x);
        assert j != k;
        var j' := if j < k then j else j - 1;
        assert rest[j'] == ys[j];
      }
      forall i, j | 0 <= i < j < |rest|
        ensures !same(rest[j], rest[i])
      {
        var i', j' := if i < k then i else i + 1, if j < k then j else j + 1;
        assert rest[i] == ys[i'] && rest[j] == ys[j'];
      }
      MutualCoverSameLength(same, init, rest);
    }
  }

  // ---------- Multiplicities, for an equivalence ----------

  ghost predicate Equivalence<T(!new)>(eq: (T, T) -> bool) {
    Reflexive(eq) && Symmetric(eq) && Transitive(eq)
  }

  /** How many entries of `xs` are equivalent to `x`. */
  function Occurrences<T>(eq: (T, T) -> bool, x: T, xs: seq<T>): nat {
    if xs == [] then 0
    else Occurrences(eq, x, xs[..|xs| - 1]) + if eq(x, xs[|xs| - 1]) then 1 else 0
  }

  lemma {:induction false} OccursIffCovered<T>(eq: (T, T) -> bool, x: T, xs: seq<T>)
    ensures Occurrences(eq, x, xs) > 0 <==> Covered(eq, x, xs)
  {
    if xs != [] {
      var init := xs[..|xs| - 1];
      OccursIffCovered(eq, x, init);
      if i :| 0 <= i < |init| && eq(x, init[i]) {
        assert eq(x, xs[i]);
      }
      if i :| 0 <= i < |xs| && eq(x, xs[i]) && i < |init| {
        assert eq(x, init[i]);
      }
    }
  }

  lemma {:induction false} OccurrencesConcat<T>(eq: (T, T) -> bool, x: T, xs: seq<T>, ys: seq<T>)
    ensures Occurrences(eq, x, xs + ys) == Occurrences(eq, x, xs) + Occurrences(eq, x, ys)
  {
    if ys == [] {
      assert xs + ys == xs;
    } else {
      OccurrencesConcat(eq, x, xs, ys[..|ys| - 1]);
      assert (xs + ys)[..|xs + ys| - 1] == xs + ys[..|ys| - 1];
    }
  }

  lemma CoveredConcat<T>(eq: (T, T) -> bool, x: T, xs: seq<T>, ys: seq<T>)
    ensures Covered(eq, x, xs + ys) <==> Covered(eq, x, xs) || Covered(eq, x, ys)
  {
    OccurrencesConcat(eq, x, xs, ys);
    OccursIffCovered(eq, x, xs);
    OccursIffCovered(eq, x, ys);
    OccursIffCovered(eq, x, xs + ys);
  }

  /** Growing leaves the multiplicity of what is covered and gives multiplicity one to what is new. */
  lemma {:induction false} GrowOccurrences<T(!new)>(eq: (T, T) -> bool, x: T, acc: seq<T>, xs: seq<T>)
    requires Equivalence(eq)
    ensures Occurrences(eq, x, Grow(eq, acc, xs))
         == if Covered(eq, x, acc) then Occurrences(eq, x, acc) else if Covered(eq, x, xs) then 1 else 0
  {
    OccursIffCovered(eq, x, acc);
    if xs != [] {
      var init, last := xs[..|xs| - 1], xs[|xs| - 1];
      var g := Grow(eq, acc, init);
      GrowOccurrences(eq, x, acc, init);
      OccursIffCovered(eq, x, g);
      assert xs == init + [last];
      CoveredConcat(eq, x, init, [last]);
      assert Covered(eq, x, [last]) <==> eq(x, [last][0]);
      if !Covered(eq, last, g) {
        assert (g + [last])[..|g|] == g;
      }
      if eq(x, last) {
        assert Covered(eq, x, g) <==> Covered(eq, last, g) by {
          if i :| 0 <= i < |g| && eq(x, g[i]) { assert eq(last, g[i]); }
          if i :| 0 <= i < |g| && eq(last, g[i]) { assert eq(x, g[i]); }
        }
      }
    }
  }

  lemma {:induction false} IrredundantOccurs<T(!new)>(eq: (T, T) -> bool, x: T, xs: seq<T>)
    requires Equivalence(eq) && Irredundant(eq, xs)
    ensures Occurrences(eq, x, xs) <= 1
  {
    if xs != [] {
      var init := xs[..|xs| - 1];
      IrredundantOccurs(eq, x, init);
      OccursIffCovered(eq, x, init);
      assert forall i :: 0 <= i < |init| ==> !eq(xs[|xs| - 1], xs[i]) && init[i] == xs[i];
    }
  }

  /** The lists agree up to the equivalence and the order: every entry occurs equally often. */
  ghost predicate SameMultiplicities<T(!new)>(eq: (T, T) -> bool, xs: seq<T>, ys: seq<T>) {
    forall x :: Occurrences(eq, x, xs) == Occurrences(eq, x, ys)
  }

  lemma LastOccurs<T(!new)>(eq: (T, T) -> bool, xs: seq<T>)
    requires Reflexive(eq)
    ensures xs == [] || exists x :: Occurrences(eq, x, xs) > 0
  {
    if xs != [] {
      assert eq(xs[|xs| - 1], xs[|xs| - 1]);
      assert Occurrences(eq, xs[|xs| - 1], xs) > 0;
    }
  }

  lemma {:induction false} SameMultiplicitiesSameLength<T(!new)>(eq: (T, T) -> bool, xs: seq<T>, ys: seq<T>)
    requires Equivalence(eq) && SameMultiplicities(eq, xs, ys)
    ensures |xs| == |ys|
  {
    if xs == [] {
      LastOccurs(eq, ys);
      assert forall x :: Occurrences(eq, x, ys) == Occurrences(eq, x, []) == 0;
    } else {
      var init, last := xs[..|xs| - 1], xs[|xs| - 1];
      assert eq(last, last);
      assert Occurrences(eq, last, ys) == Occurrences(eq, last, xs) > 0;
      OccursIffCovered(eq, last, ys);
      var k :| 0 <= k < |ys| && eq(last, ys[k]);
      var rest := ys[..k] + ys[k + 1..];
      forall x
        ensures Occurrences(eq, x, init) == Occurrences(eq, x, rest)
      {
        assert Occurrences(eq, x, xs) == Occurrences(eq, x, ys);
        assert ys == ys[..k] + ([ys[k]] + ys[k + 1..]);
        OccurrencesConcat(eq, x, ys[..k], [ys[k]] + ys[k + 1..]);
        OccurrencesConcat(eq, x, [ys[k]], ys[k + 1..]);
        OccurrencesConcat(eq, x, ys[..k], ys[k + 1..]);
        assert [ys[k]][..0] == [];
        assert eq(x, last) <==> eq(x, ys[k]);
      }
      SameMultiplicitiesSameLength(eq, init, rest);
    }
  }

  /** What growing adds depends only on what the list covers. */
  lemma {:induction false} GrowthDependsOnCover<T(!new)>(sub: (T, T) -> bool, acc: seq<T>, acc': seq<T>, xs: seq<T>)
    requires forall x :: Covered(sub, x, acc) <==> Covered(sub, x, acc')
    ensures |Grow(sub, acc, xs)| - |acc| == |Grow(sub, acc', xs)| - |acc'|
    ensures forall x :: Covered(sub, x, Grow(sub, acc, xs)) <==> Covered(sub, x, Grow(sub, acc', xs))
  {
    if xs != [] {
      var init, last := xs[..|xs| - 1], xs[|xs| - 1];
      GrowthDependsOnCover(sub, acc, acc', init);
      var g, g' := Grow(sub, acc, init), Grow(sub, acc', init);
      forall x
        ensures Covered(sub, x, Add(sub, g, last)) <==> Covered(sub, x, Add(sub, g', last))
      {
        CoveredConcat(sub, x, g, [last]);
        CoveredConcat(sub, x, g', [last]);
        assert Covered(sub, x, g) <==> Covered(sub, x, g');
        assert Covered(sub, last, g) <==> Covered(sub, last, g');
      }
    }
  }
}
