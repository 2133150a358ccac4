/**
 * Reference counts of recipes: how often each recipe id occurs in the
 * ingredient lists the loader reads.
 */
module Counting {

  /** Every recipe id in every ingredient list lies in [0, numRecipes). */
  predicate InRange(groups: seq<seq<int>>, numRecipes: nat)
  {
    forall i, t :: 0 <= i < |groups| && 0 <= t < |groups[i]| ==> 0 <= groups[i][t] < numRecipes
  }

  /** Number of occurrences of x in s (counted from the back, as the loader appends). */
  function Occ(s: seq<int>, x: int): nat
  {
    if |s| == 0 then 0 else Occ(s[..|s| - 1], x) + (if s[|s| - 1] == x then 1 else 0)
  }

  /** Number of occurrences of x across all ingredient lists. */
  function TotalOcc(groups: seq<seq<int>>, x: int): nat
  {
    if |groups| == 0 then 0 else TotalOcc(groups[..|groups| - 1], x) + Occ(groups[|groups| - 1], x)
  }

  /** The reference count of every recipe 0, ..., numRecipes - 1. */
  function RefCounts(groups: seq<seq<int>>, numRecipes: nat): seq<int>
  {
    seq(numRecipes, r => TotalOcc(groups, r))
  }

  /** Number of ingredient lists that contain x at least once. */
  function Listings(groups: seq<seq<int>>, x: int): nat
  {
    if |groups| == 0 then 0
    else Listings(groups[..|groups| - 1], x) + (if x in groups[|groups| - 1] then 1 else 0)
  }

  /** Total number of ids read: the sum of the list lengths. */
  function TotalLength(groups: seq<seq<int>>): nat
  {
    if |groups| == 0 then 0 else TotalLength(groups[..|groups| - 1]) + |groups[|groups| - 1]|
  }

  /** Sum of the reference counts of recipes 0, ..., numRecipes - 1. */
  function CountsSum(groups: seq<seq<int>>, numRecipes: nat): nat
  {
    if numRecipes == 0 then 0 else CountsSum(groups, numRecipes - 1) + TotalOcc(groups, numRecipes - 1)
  }

  /** Sum over recipes 0, ..., numRecipes - 1 of their occurrences in s. */
  function OccSum(s: seq<int>, numRecipes: nat): nat
  {
    if numRecipes == 0 then 0 else OccSum(s, numRecipes - 1) + Occ(s, numRecipes - 1)
  }

  predicate NoDuplicates(s: seq<int>)
  {
    forall p, q :: 0 <= p < q < |s| ==> s[p] != s[q]
  }

  /** Occ agrees with the multiplicity of x in the multiset of s. */
  lemma {:induction false} OccIsMultiplicity(s: seq<int>, x: int)
    ensures Occ(s, x) == multiset(s)[x]
  {
    if |s| > 0 {
      OccIsMultiplicity(s[..|s| - 1], x);
      assert s == s[..|s| - 1] + [s[|s| - 1]];
    }
  }

  /** A recipe occurs in a list exactly when it is counted at least once there. */
  lemma {:induction false} OccPositive(s: seq<int>, x: int)
    ensures Occ(s, x) > 0 <==> x in s
  {
    if |s| > 0 {
      OccPositive(s[..|s| - 1], x);
      assert s == s[..|s| - 1] + [s[|s| - 1]];
    }
  }

  /** A recipe's reference count is positive exactly when some ingredient lists it. */
  lemma {:induction false} TotalOccPositive(groups: seq<seq<int>>, x: int)
    ensures TotalOcc(groups, x) > 0 <==> exists i :: 0 <= i < |groups| && x in groups[i]
  {
    if |groups| > 0 {
      var front := groups[..|groups| - 1];
      TotalOccPositive(front, x);
      OccPositive(groups[|groups| - 1], x);
      if exists i :: 0 <= i < |front| && x in front[i] {
        var i :| 0 <= i < |front| && x in front[i];
        assert groups[i] == front[i];
      }
      if exists i :: 0 <= i < |groups| && x in groups[i] {
        var i :| 0 <= i < |groups| && x in groups[i];
        if i < |front| {
          assert front[i] == groups[i];
        }
      }
    }
  }

  lemma {:induction false} OccWithoutDuplicates(s: seq<int>, x: int)
    requires NoDuplicates(s)
    ensures Occ(s, x) == if x in s then 1 else 0
  {
    if |s| > 0 {
      var front := s[..|s| - 1];
      OccWithoutDuplicates(front, x);
      assert s == front + [s[|s| - 1]];
      if s[|s| - 1] == x {
        assert x !in front;
      }
    }
  }

  /**
   * When no ingredient lists a recipe twice, the loader's occurrence count is
   * the number of ingredients that list the recipe.
   */
  lemma {:induction false} CountsAreListings(groups: seq<seq<int>>, x: int)
    requires forall i :: 0 <= i < |groups| ==> NoDuplicates(groups[i])
    ensures TotalOcc(groups, x) == Listings(groups, x)
  {
    if |groups| > 0 {
      CountsAreListings(groups[..|groups| - 1], x);
      OccWithoutDuplicates(groups[|groups| - 1], x);
    }
  }

  lemma {:induction false} OccSumSnoc(s: seq<int>, y: int, numRecipes: nat)
    ensures OccSum(s + [y], numRecipes) == OccSum(s, numRecipes) + (if 0 <= y < numRecipes then 1 else 0)
  {
    if numRecipes > 0 {
      OccSumSnoc(s, y, numRecipes - 1);
      assert (s + [y])[..|s|] == s;
    }
  }

  lemma {:induction false} OccSumInRange(s: seq<int>, numRecipes: nat)
    requires forall t :: 0 <= t < |s| ==> 0 <= s[t] < numRecipes
    ensures OccSum(s, numRecipes) == |s|
  {
    if |s| == 0 {
      OccSumEmpty(numRecipes);
    } else {
      var front := s[..|s| - 1];
      OccSumInRange(front, numRecipes);
      assert s == front + [s[|s| - 1]];
      OccSumSnoc(front, s[|s| - 1], numRecipes);
    }
  }

  lemma {:induction false} OccSumEmpty(numRecipes: nat)
    ensures OccSum([], numRecipes) == 0
  {
    if numRecipes > 0 {
      OccSumEmpty(numRecipes - 1);
    }
  }

  lemma {:induction false} CountsSumSnoc(groups: seq<seq<int>>, g: seq<int>, numRecipes: nat)
    ensures CountsSum(groups + [g], numRecipes) == CountsSum(groups, numRecipes) + OccSum(g, numRecipes)
  {
    if numRecipes > 0 {
      CountsSumSnoc(groups, g, numRecipes - 1);
      assert (groups + [g])[..|groups|] == groups;
    }
  }

  lemma {:induction false} CountsSumEmpty(numRecipes: nat)
    ensures CountsSum([], numRecipes) == 0
  {
    if numRecipes > 0 {
      CountsSumEmpty(numRecipes - 1);
    }
  }

  /** Count conservation: the reference counts add up to the number of ids read. */
  lemma {:induction false} CountConservation(groups: seq<seq<int>>, numRecipes: nat)
    requires InRange(groups, numRecipes)
    ensures CountsSum(groups, numRecipes) == TotalLength(groups)
  {
    if |groups| == 0 {
      CountsSumEmpty(numRecipes);
    } else {
      var front, last := groups[..|groups| - 1], groups[|groups| - 1];
      assert groups == front + [last];
      CountConservation(front, numRecipes);
      CountsSumSnoc(front, last, numRecipes);
      OccSumInRange(last, numRecipes);
    }
  }
}
