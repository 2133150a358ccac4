/**
 * What the edge accumulator computes, stated independently of its loops:
 * the weight of edge (a, b) is the sum, over every ingredient and every pair
 * of positions j < k of its list holding a at j and b at k, of
 * idf * 2 / (count[a] + count[b]); the key b is stored under recipe a exactly
 * when at least one such pair exists.
 *
 * Sums over the pairs j < k of a list are taken row by row (j) and, inside
 * a row, column by column (k), the order the nested loops use.
 */
module Weights {
  import opened Counting

  /** Every id in L indexes cnt and has a positive reference count. */
  predicate Covered(L: seq<int>, cnt: seq<int>)
  {
    forall t :: 0 <= t < |L| ==> 0 <= L[t] < |cnt| && cnt[L[t]] >= 1
  }

  predicate AllCovered(lists: seq<seq<int>>, cnt: seq<int>)
  {
    forall i :: 0 <= i < |lists| ==> Covered(lists[i], cnt)
  }

  /** The importance weight of an ingredient listed n times among numRecipes recipes: ln(numRecipes / n). */
  function Idf(ln: real -> real, numRecipes: nat, n: nat): real
  {
    if n == 0 then 0.0 else ln(numRecipes as real / n as real)
  }

  /** The contribution of one co-occurrence of recipes a and b: idf * 2 / (cnt[a] + cnt[b]). */
  function Contribution(cnt: seq<int>, idf: real, a: int, b: int): real
    requires 0 <= a < |cnt| && 0 <= b < |cnt| && cnt[a] + cnt[b] > 0
  {
    idf * 2.0 / (cnt[a] + cnt[b]) as real
  }

  /** What the update at positions (j, k) of L adds to edge (a, b). */
  function Term(L: seq<int>, cnt: seq<int>, idf: real, j: nat, k: nat, a: int, b: int): real
    requires Covered(L, cnt) && j < |L| && k < |L|
  {
    if L[j] == a && L[k] == b then Contribution(cnt, idf, L[j], L[k]) else 0.0
  }

  /** What the updates at (j, j+1), ..., (j, hi-1) add to edge (a, b). */
  function RowWeight(L: seq<int>, cnt: seq<int>, idf: real, j: nat, hi: nat, a: int, b: int): real
    requires Covered(L, cnt) && j < |L| && hi <= |L|
    decreases hi
  {
    if hi <= j + 1 then 0.0 else RowWeight(L, cnt, idf, j, hi - 1, a, b) + Term(L, cnt, idf, j, hi - 1, a, b)
  }

  /** What the updates of rows 0, ..., rows-1 add to edge (a, b). */
  function RowsWeight(L: seq<int>, cnt: seq<int>, idf: real, rows: nat, a: int, b: int): real
    requires Covered(L, cnt) && rows <= |L|
  {
    if rows == 0 then 0.0 else RowsWeight(L, cnt, idf, rows - 1, a, b) + RowWeight(L, cnt, idf, rows - 1, |L|, a, b)
  }

  /** What one ingredient list L with importance weight idf adds to edge (a, b). */
  function IngredientWeight(L: seq<int>, cnt: seq<int>, idf: real, a: int, b: int): real
    requires Covered(L, cnt)
  {
    RowsWeight(L, cnt, idf, |L|, a, b)
  }

  /** How many of the positions j+1, ..., hi-1 pair with j to form edge (a, b). */
  function RowCount(L: seq<int>, j: nat, hi: nat, a: int, b: int): nat
    requires j < |L| && hi <= |L|
    decreases hi
  {
    if hi <= j + 1 then 0 else RowCount(L, j, hi - 1, a, b) + (if L[j] == a && L[hi - 1] == b then 1 else 0)
  }

  /** How many pairs of rows 0, ..., rows-1 form edge (a, b). */
  function RowsCount(L: seq<int>, rows: nat, a: int, b: int): nat
    requires rows <= |L|
  {
    if rows == 0 then 0 else RowsCount(L, rows - 1, a, b) + RowCount(L, rows - 1, |L|, a, b)
  }

  /** Number of position pairs j < k of L with L[j] == a and L[k] == b. */
  function PairCount(L: seq<int>, a: int, b: int): nat
  {
    RowsCount(L, |L|, a, b)
  }

  /** L holds a at an earlier position than b. */
  predicate Linked(L: seq<int>, a: int, b: int)
  {
    exists j, k :: 0 <= j < k < |L| && L[j] == a && L[k] == b
  }

  /** The accumulated weight of edge (a, b) over all ingredient lists. */
  function GraphWeight(lists: seq<seq<int>>, cnt: seq<int>, ln: real -> real, numRecipes: nat, a: int, b: int): real
    requires AllCovered(lists, cnt)
  {
    if |lists| == 0 then 0.0
    else
      var last := lists[|lists| - 1];
      GraphWeight(lists[..|lists| - 1], cnt, ln, numRecipes, a, b) + IngredientWeight(last, cnt, Idf(ln, numRecipes, |last|), a, b)
  }

  /** Number of position pairs, over all ingredient lists, that form edge (a, b). */
  function GraphPairCount(lists: seq<seq<int>>, a: int, b: int): nat
  {
    if |lists| == 0 then 0 else GraphPairCount(lists[..|lists| - 1], a, b) + PairCount(lists[|lists| - 1], a, b)
  }

  lemma {:induction false} RowCountPositive(L: seq<int>, j: nat, hi: nat, a: int, b: int)
    requires j < |L| && hi <= |L|
    ensures RowCount(L, j, hi, a, b) > 0 <==> L[j] == a && exists k :: j < k < hi && L[k] == b
    decreases hi
  {
    if hi > j + 1 {
      RowCountPositive(L, j, hi - 1, a, b);
    }
  }

  lemma {:induction false} RowsCountPositive(L: seq<int>, rows: nat, a: int, b: int)
    requires rows <= |L|
    ensures RowsCount(L, rows, a, b) > 0 <==> exists j, k :: 0 <= j < rows && j < k < |L| && L[j] == a && L[k] == b
  {
    if rows > 0 {
      RowsCountPositive(L, rows - 1, a, b);
      RowCountPositive(L, rows - 1, |L|, a, b);
      if RowCount(L, rows - 1, |L|, a, b) > 0 {
        var k :| rows - 1 < k < |L| && L[k] == b;
        assert L[rows - 1] == a;
      }
    }
  }

  /** Key b is stored under recipe a by L exactly when L holds a at an earlier position than b. */
  lemma PairCountPositive(L: seq<int>, a: int, b: int)
    ensures PairCount(L, a, b) > 0 <==> Linked(L, a, b)
  {
    RowsCountPositive(L, |L|, a, b);
  }

  /** Key b is stored under recipe a exactly when some ingredient list holds a before b. */
  lemma {:induction false} GraphPairCountPositive(lists: seq<seq<int>>, a: int, b: int)
    ensures GraphPairCount(lists, a, b) > 0 <==> exists i :: 0 <= i < |lists| && Linked(lists[i], a, b)
  {
    if |lists| > 0 {
      var front, last := lists[..|lists| - 1], lists[|lists| - 1];
      GraphPairCountPositive(front, a, b);
      PairCountPositive(last, a, b);
      if GraphPairCount(front, a, b) > 0 {
        var i :| 0 <= i < |front| && Linked(front[i], a, b);
        assert lists[i] == front[i];
      }
      if exists i :: 0 <= i < |lists| && Linked(lists[i], a, b) {
        var i :| 0 <= i < |lists| && Linked(lists[i], a, b);
        if i < |front| {
          assert front[i] == lists[i];
        }
      }
    }
  }

  /** c added to itself m times, as m accumulations of the same contribution produce it. */
  function Repeat(m: nat, c: real): real
  {
    if m == 0 then 0.0 else Repeat(m - 1, c) + c
  }

  lemma {:induction false} RepeatAdd(m: nat, n: nat, c: real)
    ensures Repeat(m + n, c) == Repeat(m, c) + Repeat(n, c)
  {
    if n > 0 {
      RepeatAdd(m, n - 1, c);
    }
  }

  lemma {:induction false} RepeatIsProduct(m: nat, c: real)
    ensures Repeat(m, c) == m as real * c
  {
    if m > 0 {
      RepeatIsProduct(m - 1, c);
    }
  }

  lemma {:induction false} RowWeightClosedForm(L: seq<int>, cnt: seq<int>, idf: real, j: nat, hi: nat, a: int, b: int)
    requires Covered(L, cnt) && j < |L| && hi <= |L|
    requires 0 <= a < |cnt| && 0 <= b < |cnt| && cnt[a] + cnt[b] > 0
    ensures RowWeight(L, cnt, idf, j, hi, a, b) == Repeat(RowCount(L, j, hi, a, b), Contribution(cnt, idf, a, b))
    decreases hi
  {
    if hi > j + 1 {
      RowWeightClosedForm(L, cnt, idf, j, hi - 1, a, b);
    }
  }

  lemma {:induction false} RowsWeightClosedForm(L: seq<int>, cnt: seq<int>, idf: real, rows: nat, a: int, b: int)
    requires Covered(L, cnt) && rows <= |L|
    requires 0 <= a < |cnt| && 0 <= b < |cnt| && cnt[a] + cnt[b] > 0
    ensures RowsWeight(L, cnt, idf, rows, a, b) == Repeat(RowsCount(L, rows, a, b), Contribution(cnt, idf, a, b))
  {
    if rows > 0 {
      RowsWeightClosedForm(L, cnt, idf, rows - 1, a, b);
      RowWeightClosedForm(L, cnt, idf, rows - 1, |L|, a, b);
      RepeatAdd(RowsCount(L, rows - 1, a, b), RowCount(L, rows - 1, |L|, a, b), Contribution(cnt, idf, a, b));
    }
  }

  /**
   * Contributions are summed, not overwritten: one ingredient adds the
   * contribution of edge (a, b) once per position pair holding a before b.
   */
  lemma IngredientWeightClosedForm(L: seq<int>, cnt: seq<int>, idf: real, a: int, b: int)
    requires Covered(L, cnt)
    requires 0 <= a < |cnt| && 0 <= b < |cnt| && cnt[a] + cnt[b] > 0
    ensures IngredientWeight(L, cnt, idf, a, b) == Repeat(PairCount(L, a, b), Contribution(cnt, idf, a, b))
    ensures IngredientWeight(L, cnt, idf, a, b) == PairCount(L, a, b) as real * Contribution(cnt, idf, a, b)
  {
    RowsWeightClosedForm(L, cnt, idf, |L|, a, b);
    RepeatIsProduct(PairCount(L, a, b), Contribution(cnt, idf, a, b));
  }

  lemma {:induction false} RowWeightNonnegative(L: seq<int>, cnt: seq<int>, idf: real, j: nat, hi: nat, a: int, b: int)
    requires Covered(L, cnt) && j < |L| && hi <= |L| && idf >= 0.0
    ensures RowWeight(L, cnt, idf, j, hi, a, b) >= 0.0
    decreases hi
  {
    if hi > j + 1 {
      RowWeightNonnegative(L, cnt, idf, j, hi - 1, a, b);
    }
  }

  lemma {:induction false} RowsWeightNonnegative(L: seq<int>, cnt: seq<int>, idf: real, rows: nat, a: int, b: int)
    requires Covered(L, cnt) && rows <= |L| && idf >= 0.0
    ensures RowsWeight(L, cnt, idf, rows, a, b) >= 0.0
  {
    if rows > 0 {
      RowsWeightNonnegative(L, cnt, idf, rows - 1, a, b);
      RowWeightNonnegative(L, cnt, idf, rows - 1, |L|, a, b);
    }
  }

  /** With non-negative importance weights every accumulated edge weight is non-negative. */
  lemma {:induction false} GraphWeightNonnegative(lists: seq<seq<int>>, cnt: seq<int>, ln: real -> real, numRecipes: nat, a: int, b: int)
    requires AllCovered(lists, cnt)
    requires forall i :: 0 <= i < |lists| ==> Idf(ln, numRecipes, |lists[i]|) >= 0.0
    ensures GraphWeight(lists, cnt, ln, numRecipes, a, b) >= 0.0
  {
    if |lists| > 0 {
      var last := lists[|lists| - 1];
      GraphWeightNonnegative(lists[..|lists| - 1], cnt, ln, numRecipes, a, b);
      RowsWeightNonnegative(last, cnt, Idf(ln, numRecipes, |last|), |last|, a, b);
    }
  }

  /** The importance weight is non-negative when n <= numRecipes and ln is non-negative from 1 on. */
  lemma IdfNonnegative(ln: real -> real, numRecipes: nat, n: nat)
    requires forall x :: x >= 1.0 ==> ln(x) >= 0.0
    requires n <= numRecipes
    ensures Idf(ln, numRecipes, n) >= 0.0
  {
    if n > 0 {
      assert numRecipes as real / n as real >= 1.0;
    }
  }

  lemma {:induction false} RowWeightUnpaired(L: seq<int>, cnt: seq<int>, idf: real, j: nat, hi: nat, a: int, b: int)
    requires Covered(L, cnt) && j < |L| && hi <= |L| && RowCount(L, j, hi, a, b) == 0
    ensures RowWeight(L, cnt, idf, j, hi, a, b) == 0.0
    decreases hi
  {
    if hi > j + 1 {
      RowWeightUnpaired(L, cnt, idf, j, hi - 1, a, b);
    }
  }

  lemma {:induction false} RowsWeightUnpaired(L: seq<int>, cnt: seq<int>, idf: real, rows: nat, a: int, b: int)
    requires Covered(L, cnt) && rows <= |L| && RowsCount(L, rows, a, b) == 0
    ensures RowsWeight(L, cnt, idf, rows, a, b) == 0.0
  {
    if rows > 0 {
      RowsWeightUnpaired(L, cnt, idf, rows - 1, a, b);
      RowWeightUnpaired(L, cnt, idf, rows - 1, |L|, a, b);
    }
  }

  /** An edge that no ingredient list forms keeps weight zero. */
  lemma {:induction false} GraphWeightUnpaired(lists: seq<seq<int>>, cnt: seq<int>, ln: real -> real, numRecipes: nat, a: int, b: int)
    requires AllCovered(lists, cnt) && GraphPairCount(lists, a, b) == 0
    ensures GraphWeight(lists, cnt, ln, numRecipes, a, b) == 0.0
  {
    if |lists| > 0 {
      var last := lists[|lists| - 1];
      GraphWeightUnpaired(lists[..|lists| - 1], cnt, ln, numRecipes, a, b);
      RowsWeightUnpaired(last, cnt, Idf(ln, numRecipes, |last|), |last|, a, b);
    }
  }

  lemma {:induction false} RowsOfShortList(L: seq<int>, cnt: seq<int>, idf: real, rows: nat, a: int, b: int)
    requires Covered(L, cnt) && rows <= |L| <= 1
    ensures RowsWeight(L, cnt, idf, rows, a, b) == 0.0 && RowsCount(L, rows, a, b) == 0
  {
    if rows > 0 {
      RowsOfShortList(L, cnt, idf, rows - 1, a, b);
    }
  }

  /** An ingredient listed by at most one recipe forms no pair and adds nothing. */
  lemma ShortIngredientAddsNothing(L: seq<int>, cnt: seq<int>, idf: real, a: int, b: int)
    requires Covered(L, cnt) && |L| <= 1
    ensures IngredientWeight(L, cnt, idf, a, b) == 0.0 && PairCount(L, a, b) == 0
  {
    RowsOfShortList(L, cnt, idf, |L|, a, b);
  }

  lemma AllCoveredAppend(l1: seq<seq<int>>, l2: seq<seq<int>>, cnt: seq<int>)
    requires AllCovered(l1, cnt) && AllCovered(l2, cnt)
    ensures AllCovered(l1 + l2, cnt)
  {
    forall i | 0 <= i < |l1 + l2|
      ensures Covered((l1 + l2)[i], cnt)
    {
      if i < |l1| {
        assert (l1 + l2)[i] == l1[i];
      } else {
        assert (l1 + l2)[i] == l2[i - |l1|];
      }
    }
  }

  /** Processing l1 and then l2 adds up the weights each would accumulate alone. */
  lemma {:induction false} GraphWeightAppend(l1: seq<seq<int>>, l2: seq<seq<int>>, cnt: seq<int>, ln: real -> real, numRecipes: nat, a: int, b: int)
    requires AllCovered(l1, cnt) && AllCovered(l2, cnt) && AllCovered(l1 + l2, cnt)
    ensures GraphWeight(l1 + l2, cnt, ln, numRecipes, a, b) == GraphWeight(l1, cnt, ln, numRecipes, a, b) + GraphWeight(l2, cnt, ln, numRecipes, a, b)
  {
    if |l2| == 0 {
      assert l1 + l2 == l1;
    } else {
      var front, last := l2[..|l2| - 1], l2[|l2| - 1];
      var both := l1 + l2;
      assert both[..|both| - 1] == l1 + front;
      assert both[|both| - 1] == last;
      GraphWeightAppend(l1, front, cnt, ln, numRecipes, a, b);
    }
  }

  /** Processing l1 and then l2 adds up the pair counts each would have alone. */
  lemma {:induction false} GraphPairCountAppend(l1: seq<seq<int>>, l2: seq<seq<int>>, a: int, b: int)
    ensures GraphPairCount(l1 + l2, a, b) == GraphPairCount(l1, a, b) + GraphPairCount(l2, a, b)
  {
    if |l2| == 0 {
      assert l1 + l2 == l1;
    } else {
      var front := l2[..|l2| - 1];
      var both := l1 + l2;
      assert both[..|both| - 1] == l1 + front;
      assert both[|both| - 1] == l2[|l2| - 1];
      GraphPairCountAppend(l1, front, a, b);
    }
  }

  /** Swapping two batches of ingredients leaves the accumulated weights and keys unchanged. */
  lemma BatchSwap(l1: seq<seq<int>>, l2: seq<seq<int>>, cnt: seq<int>, ln: real -> real, numRecipes: nat, a: int, b: int)
    requires AllCovered(l1, cnt) && AllCovered(l2, cnt)
    ensures AllCovered(l1 + l2, cnt) && AllCovered(l2 + l1, cnt)
    ensures GraphWeight(l1 + l2, cnt, ln, numRecipes, a, b) == GraphWeight(l2 + l1, cnt, ln, numRecipes, a, b)
    ensures GraphPairCount(l1 + l2, a, b) == GraphPairCount(l2 + l1, a, b)
  {
    AllCoveredAppend(l1, l2, cnt);
    AllCoveredAppend(l2, l1, cnt);
    GraphWeightAppend(l1, l2, cnt, ln, numRecipes, a, b);
    GraphWeightAppend(l2, l1, cnt, ln, numRecipes, a, b);
    GraphPairCountAppend(l1, l2, a, b);
    GraphPairCountAppend(l2, l1, a, b);
  }

  /** Taking the list at position p out of l: what remains, and what that list contributed. */
  lemma RemoveList(l: seq<seq<int>>, p: nat, cnt: seq<int>, ln: real -> real, numRecipes: nat, a: int, b: int)
    requires AllCovered(l, cnt) && p < |l|
    ensures AllCovered(l[..p] + l[p + 1..], cnt) && Covered(l[p], cnt)
    ensures multiset(l) == multiset(l[..p] + l[p + 1..]) + multiset{l[p]}
    ensures GraphWeight(l, cnt, ln, numRecipes, a, b)
      == GraphWeight(l[..p] + l[p + 1..], cnt, ln, numRecipes, a, b) + IngredientWeight(l[p], cnt, Idf(ln, numRecipes, |l[p]|), a, b)
    ensures GraphPairCount(l, a, b) == GraphPairCount(l[..p] + l[p + 1..], a, b) + PairCount(l[p], a, b)
  {
    var pre, x, post := l[..p], l[p], l[p + 1..];
    assert l == pre + [x] + post;
    assert AllCovered(pre, cnt) && AllCovered(post, cnt) && AllCovered([x], cnt);
    AllCoveredAppend(pre, post, cnt);
    AllCoveredAppend(pre, [x], cnt);
    GraphWeightAppend(pre, post, cnt, ln, numRecipes, a, b);
    GraphWeightAppend(pre, [x], cnt, ln, numRecipes, a, b);
    GraphWeightAppend(pre + [x], post, cnt, ln, numRecipes, a, b);
    GraphPairCountAppend(pre, post, a, b);
    GraphPairCountAppend(pre, [x], a, b);
    GraphPairCountAppend(pre + [x], post, a, b);
    assert [x][..0] == [];
  }

  /**
   * The accumulated weights and keys do not depend on the order in which
   * ingredients are processed: any rearrangement of the lists gives the same graph.
   */
  lemma {:induction false} IngredientOrderIrrelevant(l1: seq<seq<int>>, l2: seq<seq<int>>, cnt: seq<int>, ln: real -> real, numRecipes: nat, a: int, b: int)
    requires AllCovered(l1, cnt) && AllCovered(l2, cnt) && multiset(l1) == multiset(l2)
    ensures GraphWeight(l1, cnt, ln, numRecipes, a, b) == GraphWeight(l2, cnt, ln, numRecipes, a, b)
    ensures GraphPairCount(l1, a, b) == GraphPairCount(l2, a, b)
    decreases |l1|
  {
    if |l1| == 0 {
      assert |l2| == |multiset(l2)| == 0;
    } else {
      var front, x := l1[..|l1| - 1], l1[|l1| - 1];
      assert l1 == front + [x];
      assert multiset(l1) == multiset(front) + multiset{x};
      assert x in multiset(l2);
      var p :| 0 <= p < |l2| && l2[p] == x;
      RemoveList(l2, p, cnt, ln, numRecipes, a, b);
      var rest := l2[..p] + l2[p + 1..];
      assert multiset(rest) == multiset(l2) - multiset{x};
      assert multiset(front) == multiset(l1) - multiset{x};
      assert AllCovered(front, cnt);
      IngredientOrderIrrelevant(front, rest, cnt, ln, numRecipes, a, b);
      assert GraphWeight(l1, cnt, ln, numRecipes, a, b)
        == GraphWeight(front, cnt, ln, numRecipes, a, b) + IngredientWeight(x, cnt, Idf(ln, numRecipes, |x|), a, b);
      assert GraphPairCount(l1, a, b) == GraphPairCount(front, a, b) + PairCount(x, a, b);
    }
  }

  /**
   * Ingredients referenced by more recipes weigh less: with a non-decreasing
   * logarithm, n1 <= n2 gives Idf(n1) >= Idf(n2).
   */
  lemma IdfAntitone(ln: real -> real, numRecipes: nat, n1: nat, n2: nat)
    requires forall x, y :: 0.0 < x <= y ==> ln(x) <= ln(y)
    requires 0 < n1 <= n2 && 0 < numRecipes
    ensures Idf(ln, numRecipes, n1) >= Idf(ln, numRecipes, n2)
  {
    var N, r1, r2 := numRecipes as real, n1 as real, n2 as real;
    assert N / r2 <= N / r1 by {
      assert N / r2 * r2 == N == N / r1 * r1;
      assert N / r2 * r2 <= N / r1 * r2;
    }
  }

  /**
   * The importance weight of an ingredient listing at most one recipe is never
   * used: whatever value it takes (the source's ln(num_recipes / 0) for an empty
   * list), the ingredient adds nothing.
   */
  lemma ShortListIdfUnused(L: seq<int>, cnt: seq<int>, idf1: real, idf2: real, a: int, b: int)
    requires Covered(L, cnt) && |L| <= 1
    ensures IngredientWeight(L, cnt, idf1, a, b) == IngredientWeight(L, cnt, idf2, a, b) == 0.0
  {
    ShortIngredientAddsNothing(L, cnt, idf1, a, b);
    ShortIngredientAddsNothing(L, cnt, idf2, a, b);
  }

  /** A list without repeated recipes creates no self-loop. */
  lemma NoSelfLoops(L: seq<int>, a: int)
    requires NoDuplicates(L)
    ensures PairCount(L, a, a) == 0
  {
    PairCountPositive(L, a, a);
  }

  /** A recipe listed twice by one ingredient is paired with itself. */
  lemma DuplicateMakesSelfLoop(L: seq<int>, j: nat, k: nat)
    requires j < k < |L| && L[j] == L[k]
    ensures PairCount(L, L[j], L[j]) > 0
  {
    PairCountPositive(L, L[j], L[j]);
  }

  /**
   * Within one list without repeats, each pair of recipes is stored in one
   * direction only: under the recipe at the earlier position.
   */
  lemma StoredOneWay(L: seq<int>, a: int, b: int)
    requires NoDuplicates(L) && PairCount(L, a, b) > 0
    ensures PairCount(L, b, a) == 0
  {
    PairCountPositive(L, a, b);
    PairCountPositive(L, b, a);
  }

  /**
   * Ten recipes, one ingredient listing recipes 0 and 1, whose reference
   * counts are 5 and 1: edge (0, 1) receives ln(5) * 2 / 6, edge (1, 0) nothing.
   */
  lemma RareIngredientScenario(cnt: seq<int>, ln: real -> real)
    requires |cnt| == 10 && cnt[0] == 5 && cnt[1] == 1
    ensures Covered([0, 1], cnt)
    ensures IngredientWeight([0, 1], cnt, Idf(ln, 10, 2), 0, 1) == ln(5.0) / 3.0
    ensures IngredientWeight([0, 1], cnt, Idf(ln, 10, 2), 1, 0) == 0.0 && PairCount([0, 1], 1, 0) == 0
  {
    var L := [0, 1];
    var idf := Idf(ln, 10, 2);
    assert 10 as real / 2 as real == 5.0;
    assert idf == ln(5.0);
    assert RowWeight(L, cnt, idf, 0, 2, 0, 1) == idf * 2.0 / 6.0;
    assert RowWeight(L, cnt, idf, 1, 2, 0, 1) == 0.0 && RowWeight(L, cnt, idf, 1, 2, 1, 0) == 0.0;
    assert RowsWeight(L, cnt, idf, 1, 0, 1) == RowWeight(L, cnt, idf, 0, 2, 0, 1);
    assert RowWeight(L, cnt, idf, 0, 2, 1, 0) == 0.0;
    assert RowsWeight(L, cnt, idf, 1, 1, 0) == 0.0;
    assert RowCount(L, 0, 2, 1, 0) == 0 && RowCount(L, 1, 2, 1, 0) == 0;
  }

  lemma {:induction false} RowWeightZeroIdf(L: seq<int>, cnt: seq<int>, j: nat, hi: nat, a: int, b: int)
    requires Covered(L, cnt) && j < |L| && hi <= |L|
    ensures RowWeight(L, cnt, 0.0, j, hi, a, b) == 0.0
    decreases hi
  {
    if hi > j + 1 {
      RowWeightZeroIdf(L, cnt, j, hi - 1, a, b);
    }
  }

  /** An ingredient whose importance weight is 0 adds 0 to every edge (its keys are still stored). */
  lemma {:induction false} ZeroIdfAddsNothing(L: seq<int>, cnt: seq<int>, rows: nat, a: int, b: int)
    requires Covered(L, cnt) && rows <= |L|
    ensures RowsWeight(L, cnt, 0.0, rows, a, b) == 0.0
  {
    if rows > 0 {
      ZeroIdfAddsNothing(L, cnt, rows - 1, a, b);
      RowWeightZeroIdf(L, cnt, rows - 1, |L|, a, b);
    }
  }

  /**
   * Three recipes, one ingredient listing all three: its importance weight is
   * ln(3 / 3) = 0, so the three pairs are stored with weight 0.
   */
  lemma SaturatedIngredientScenario(cnt: seq<int>, ln: real -> real, a: int, b: int)
    requires |cnt| == 3 && cnt[0] >= 1 && cnt[1] >= 1 && cnt[2] >= 1 && ln(1.0) == 0.0
    ensures Covered([0, 1, 2], cnt)
    ensures Idf(ln, 3, 3) == 0.0
    ensures IngredientWeight([0, 1, 2], cnt, Idf(ln, 3, 3), a, b) == 0.0
    ensures Linked([0, 1, 2], 0, 1) && Linked([0, 1, 2], 0, 2) && Linked([0, 1, 2], 1, 2)
    ensures !Linked([0, 1, 2], 1, 0) && !Linked([0, 1, 2], 2, 0) && !Linked([0, 1, 2], 2, 1)
  {
    var L := [0, 1, 2];
    assert 3 as real / 3 as real == 1.0;
    ZeroIdfAddsNothing(L, cnt, |L|, a, b);
    assert L[0] == 0 && L[1] == 1 && L[2] == 2;
  }
}
