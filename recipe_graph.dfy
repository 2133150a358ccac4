/**
 * The graph builder itself: the loader loop that stores every ingredient's
 * recipe list and counts how often each recipe is referenced, and the nested
 * loops that accumulate edge weights into an array holding one ordered map
 * per recipe (neighbour id to weight).
 */
module RecipeGraph {
  import opened Pairs
  import opened Counting
  import opened Weights

  /** The value edges[a][b] reads as: an ordered map's operator[] yields 0 for a missing key. */
  function Get(m: map<int, real>, b: int): real
  {
    if b in m then m[b] else 0.0
  }

  /**
   * edges[a][b] += w on an ordered map: a missing key b is first inserted
   * with value 0, so afterwards b is present with the old value (or 0) plus w,
   * and every other key reads as before.
   */
  lemma GetIncrement(m: map<int, real>, b: int, c: int, w: real)
    ensures b in m[b := Get(m, b) + w]
    ensures Get(m[b := Get(m, b) + w], b) == (if b in m then m[b] else 0.0) + w
    ensures c != b ==> (c in m[b := Get(m, b) + w] <==> c in m) && Get(m[b := Get(m, b) + w], c) == Get(m, c)
  {
  }

  /** Every recipe the loader has seen in some list gets a reference count of at least 1. */
  lemma RefCountsCover(groups: seq<seq<int>>, numRecipes: nat)
    requires InRange(groups, numRecipes)
    ensures AllCovered(groups, RefCounts(groups, numRecipes))
  {
    forall i, t | 0 <= i < |groups| && 0 <= t < |groups[i]|
      ensures RefCounts(groups, numRecipes)[groups[i][t]] >= 1
    {
      TotalOccPositive(groups, groups[i][t]);
    }
  }

  /**
   * The loader loop: appends every id of ingredient i to lists[i] and bumps
   * that recipe's count, on top of whatever counts already holds.
   */
  method ReadIngredients(counts: array<int>, input: seq<seq<int>>) returns (lists: seq<seq<int>>)
    requires InRange(input, counts.Length)
    modifies counts
    ensures lists == input
    ensures forall r :: 0 <= r < counts.Length ==> counts[r] == old(counts[r]) + TotalOcc(input, r)
  {
    lists := seq(|input|, _ => []);
    var i := 0;
    while i < |input|
      invariant 0 <= i <= |input| && |lists| == |input|
      invariant forall p :: 0 <= p < i ==> lists[p] == input[p]
      invariant forall p :: i <= p < |lists| ==> lists[p] == []
      invariant forall r :: 0 <= r < counts.Length ==> counts[r] == old(counts[r]) + TotalOcc(input[..i], r)
    {
      var n := |input[i]|;
      var j := 0;
      while j < n
        invariant 0 <= j <= n && |lists| == |input|
        invariant forall p :: 0 <= p < i ==> lists[p] == input[p]
        invariant lists[i] == input[i][..j]
        invariant forall p :: i < p < |lists| ==> lists[p] == []
        invariant forall r :: 0 <= r < counts.Length ==> counts[r] == old(counts[r]) + TotalOcc(input[..i], r) + Occ(input[i][..j], r)
      {
        var x := input[i][j];
        assert input[i][..j + 1][..j] == input[i][..j];
        lists := lists[i := lists[i] + [x]];
        counts[x] := counts[x] + 1;
        j := j + 1;
      }
      assert input[i][..j] == input[i];
      assert input[..i + 1][..i] == input[..i];
      i := i + 1;
    }
    assert input[..i] == input;
  }

  /** The loader with its count array zeroed first. */
  method LoadIngredients(numRecipes: nat, input: seq<seq<int>>) returns (lists: seq<seq<int>>, counts: array<int>)
    requires InRange(input, numRecipes)
    ensures fresh(counts)
    ensures lists == input
    ensures counts[..] == RefCounts(input, numRecipes)
  {
    counts := new int[numRecipes](_ => 0);
    lists := ReadIngredients(counts, input);
  }

  /**
   * The loader as written: the count array is allocated without being
   * zeroed, so each count starts from whatever the memory held (leftover).
   */
  method LoadIngredientsAsWritten(numRecipes: nat, input: seq<seq<int>>, leftover: seq<int>) returns (lists: seq<seq<int>>, counts: array<int>)
    requires InRange(input, numRecipes) && |leftover| == numRecipes
    ensures fresh(counts) && counts.Length == numRecipes
    ensures lists == input
    ensures forall r :: 0 <= r < numRecipes ==> counts[r] == leftover[r] + TotalOcc(input, r)
  {
    counts := new int[numRecipes](r requires 0 <= r < numRecipes => leftover[r]);
    lists := ReadIngredients(counts, input);
  }

  /**
   * With leftover counts -1 and -1, one ingredient listing recipes 0 and 1
   * leaves both counts at 0, so the update of edge (0, 1) divides by zero.
   */
  lemma LeftoverCountsZeroDenominator()
    ensures -1 + TotalOcc([[0, 1]], 0) + (-1 + TotalOcc([[0, 1]], 1)) == 0
    ensures RefCounts([[0, 1]], 2) == [1, 1]
  {
    var g := [[0, 1]];
    assert g[..0] == [];
    assert [0, 1][..1] == [0] && [0][..0] == [];
    assert Occ([0, 1], 0) == 1 && Occ([0, 1], 1) == 1;
    assert TotalOcc(g, 0) == 1 && TotalOcc(g, 1) == 1;
  }

  /**
   * The as-written loader itself on that input: counters left at -1 and -1,
   * one ingredient listing recipes 0 and 1, give the edge (0, 1) the
   * denominator counts[0] + counts[1] == 0.
   */
  method AsWrittenZeroDenominator() returns (counts: array<int>)
    ensures counts.Length == 2 && counts[0] + counts[1] == 0
  {
    var lists;
    lists, counts := LoadIngredientsAsWritten(2, [[0, 1]], [-1, -1]);
    LeftoverCountsZeroDenominator();
  }

  /** One more column of row j adds the term of pair (j, k) and nothing else. */
  lemma RowStep(L: seq<int>, cnt: seq<int>, idf: real, j: nat, k: nat, a: int, b: int)
    requires Covered(L, cnt) && j < k < |L|
    ensures RowWeight(L, cnt, idf, j, k + 1, a, b) == RowWeight(L, cnt, idf, j, k, a, b) + Term(L, cnt, idf, j, k, a, b)
    ensures RowCount(L, j, k + 1, a, b) == RowCount(L, j, k, a, b) + (if L[j] == a && L[k] == b then 1 else 0)
  {
  }

  /**
   * One update edges[a][b] += w: the map of recipe a gets key b, its value
   * grows by w (starting from 0 if b was missing), and nothing else changes.
   */
  method AddWeight(edges: array<map<int, real>>, a: int, b: int, w: real)
    requires 0 <= a < edges.Length
    modifies edges
    ensures edges[a].Keys == old(edges[a]).Keys + {b}
    ensures Get(edges[a], b) == Get(old(edges[a]), b) + w
    ensures forall c :: c != b ==> Get(edges[a], c) == Get(old(edges[a]), c)
    ensures forall r :: 0 <= r < edges.Length && r != a ==> edges[r] == old(edges[r])
  {
    edges[a] := edges[a][b := Get(edges[a], b) + w];
  }

  /**
   * The inner loop for row j of ingredient list L: for k = j + 1, ..., |L| - 1
   * add idf * 2 / (counts[L[j]] + counts[L[k]]) to edges[L[j]][L[k]].
   * The ghost result is the sequence of position pairs visited.
   */
  method AddRow(edges: array<map<int, real>>, counts: array<int>, L: seq<int>, idf: real, j: nat) returns (ghost visited: seq<Pair>)
    requires counts.Length == edges.Length
    requires Covered(L, counts[..]) && j < |L|
    modifies edges
    ensures visited == Row(j, |L|)
    ensures forall a, b :: 0 <= a < edges.Length ==>
      Get(edges[a], b) == Get(old(edges[a]), b) + RowWeight(L, counts[..], idf, j, |L|, a, b)
    ensures forall a, b :: 0 <= a < edges.Length ==>
      (b in edges[a] <==> b in old(edges[a]) || RowCount(L, j, |L|, a, b) > 0)
  {
    ghost var cnt := counts[..];
    var n := |L|;
    var ind1 := L[j];
    visited := [];
    var k := j + 1;
    while k < n
      invariant j + 1 <= k <= n || (k == j + 1 && n == j + 1)
      invariant visited == Row(j, k)
      invariant forall a, b :: 0 <= a < edges.Length ==>
        Get(edges[a], b) == Get(old(edges[a]), b) + RowWeight(L, cnt, idf, j, k, a, b)
      invariant forall a, b :: 0 <= a < edges.Length ==>
        (b in edges[a] <==> b in old(edges[a]) || RowCount(L, j, k, a, b) > 0)
    {
      var ind2 := L[k];
      ghost var before := edges[..];
      AddWeight(edges, ind1, ind2, idf * 2.0 / (counts[ind1] + counts[ind2]) as real);
      forall a, b | 0 <= a < edges.Length
        ensures Get(edges[a], b) == Get(old(edges[a]), b) + RowWeight(L, cnt, idf, j, k + 1, a, b)
        ensures b in edges[a] <==> b in old(edges[a]) || RowCount(L, j, k + 1, a, b) > 0
      {
        RowStep(L, cnt, idf, j, k, a, b);
        assert Get(before[a], b) == Get(old(edges[a]), b) + RowWeight(L, cnt, idf, j, k, a, b);
        assert b in before[a] <==> b in old(edges[a]) || RowCount(L, j, k, a, b) > 0;
        if a == ind1 && b == ind2 {
          assert Term(L, cnt, idf, j, k, a, b) == idf * 2.0 / (counts[ind1] + counts[ind2]) as real;
        } else {
          assert Term(L, cnt, idf, j, k, a, b) == 0.0;
          assert Get(edges[a], b) == Get(before[a], b);
          assert b in edges[a] <==> b in before[a];
        }
      }
      visited := visited + [(j, k)];
      k := k + 1;
    }
  }

  /**
   * The nested loops for one ingredient list L: every position pair j < k is
   * visited once, in row-major order. The ghost result is the visiting order.
   */
  method AddIngredientEdges(edges: array<map<int, real>>, counts: array<int>, L: seq<int>, idf: real) returns (ghost visited: seq<Pair>)
    requires counts.Length == edges.Length
    requires Covered(L, counts[..])
    modifies edges
    ensures visited == PairOrder(|L|)
    ensures forall a, b :: 0 <= a < edges.Length ==>
      Get(edges[a], b) == Get(old(edges[a]), b) + IngredientWeight(L, counts[..], idf, a, b)
    ensures forall a, b :: 0 <= a < edges.Length ==>
      (b in edges[a] <==> b in old(edges[a]) || PairCount(L, a, b) > 0)
  {
    ghost var cnt := counts[..];
    var n := |L|;
    visited := [];
    var j := 0;
    while j < n - 1
      invariant 0 <= j && (j == 0 || j <= n - 1)
      invariant visited == Rows(j, n)
      invariant forall a, b :: 0 <= a < edges.Length ==>
        Get(edges[a], b) == Get(old(edges[a]), b) + RowsWeight(L, cnt, idf, j, a, b)
      invariant forall a, b :: 0 <= a < edges.Length ==>
        (b in edges[a] <==> b in old(edges[a]) || RowsCount(L, j, a, b) > 0)
    {
      ghost var row := AddRow(edges, counts, L, idf, j);
      visited := visited + row;
      j := j + 1;
    }
    if n > 0 {
      assert Row(n - 1, n) == [];
      assert Rows(n, n) == Rows(n - 1, n);
      forall a, b ensures RowsWeight(L, cnt, idf, n, a, b) == RowsWeight(L, cnt, idf, n - 1, a, b)
        && RowsCount(L, n, a, b) == RowsCount(L, n - 1, a, b)
      {
        assert RowWeight(L, cnt, idf, n - 1, n, a, b) == 0.0;
        assert RowCount(L, n - 1, n, a, b) == 0;
      }
    }
  }

  /**
   * The outer loop over all ingredients: each list contributes with its own
   * importance weight ln(numRecipes / n).
   */
  method AccumulateEdges(edges: array<map<int, real>>, counts: array<int>, lists: seq<seq<int>>, numRecipes: nat, ln: real -> real)
    requires edges.Length == counts.Length
    requires AllCovered(lists, counts[..])
    modifies edges
    ensures forall a, b :: 0 <= a < edges.Length ==>
      Get(edges[a], b) == Get(old(edges[a]), b) + GraphWeight(lists, counts[..], ln, numRecipes, a, b)
    ensures forall a, b :: 0 <= a < edges.Length ==>
      (b in edges[a] <==> b in old(edges[a]) || GraphPairCount(lists, a, b) > 0)
  {
    var i := 0;
    while i < |lists|
      invariant 0 <= i <= |lists|
      invariant AllCovered(lists[..i], counts[..])
      invariant forall a, b :: 0 <= a < edges.Length ==>
        Get(edges[a], b) == Get(old(edges[a]), b) + GraphWeight(lists[..i], counts[..], ln, numRecipes, a, b)
      invariant forall a, b :: 0 <= a < edges.Length ==>
        (b in edges[a] <==> b in old(edges[a]) || GraphPairCount(lists[..i], a, b) > 0)
    {
      var n := |lists[i]|;
      var idf := Idf(ln, numRecipes, n);
      ghost var visited := AddIngredientEdges(edges, counts, lists[i], idf);
      assert lists[..i + 1][..i] == lists[..i];
      i := i + 1;
    }
    assert lists[..i] == lists;
  }

  /**
   * The whole program on in-memory input: allocate one empty map per
   * recipe, load the ingredient lists and counts, then accumulate the edges.
   */
  method GenerateRecipesGraph(numRecipes: nat, input: seq<seq<int>>, ln: real -> real) returns (edges: array<map<int, real>>, counts: array<int>)
    requires InRange(input, numRecipes)
    ensures fresh(edges) && fresh(counts)
    ensures edges.Length == numRecipes
    ensures counts[..] == RefCounts(input, numRecipes)
    ensures AllCovered(input, RefCounts(input, numRecipes))
    ensures forall a, b :: 0 <= a < numRecipes ==>
      Get(edges[a], b) == GraphWeight(input, RefCounts(input, numRecipes), ln, numRecipes, a, b)
    ensures forall a, b :: 0 <= a < numRecipes ==>
      (b in edges[a] <==> GraphPairCount(input, a, b) > 0)
  {
    edges := new map<int, real>[numRecipes](_ => map[]);
    var lists;
    lists, counts := LoadIngredients(numRecipes, input);
    RefCountsCover(input, numRecipes);
    AccumulateEdges(edges, counts, lists, numRecipes, ln);
  }
}
