/**
 * The order in which the edge accumulator's nested loops visit the
 * positions of one ingredient's recipe list: row j = 0, 1, ..., n - 2,
 * and inside row j the columns k = j + 1, ..., n - 1.
 */
module Pairs {

  /** A pair of list positions (j, k). */
  type Pair = (nat, nat)

  /** Row j of the loops up to, not including, column hi: (j, j+1), ..., (j, hi-1). */
  function Row(j: nat, hi: nat): (r: seq<Pair>)
    ensures |r| == if hi <= j + 1 then 0 else hi - j - 1
    ensures forall t :: 0 <= t < |r| ==> r[t] == (j, j + 1 + t)
    decreases hi
  {
    if hi <= j + 1 then [] else Row(j, hi - 1) + [(j, hi - 1)]
  }

  /** Rows 0, ..., rows - 1 of the loops over an n-element list, in visiting order. */
  function Rows(rows: nat, n: nat): (r: seq<Pair>)
    ensures forall t :: 0 <= t < |r| ==> r[t].0 < rows && r[t].0 < r[t].1 < n
  {
    if rows == 0 then [] else Rows(rows - 1, n) + Row(rows - 1, n)
  }

  /**
   * Every pair the loops visit for an n-element list, in visiting order.
   * The outer loop stops at row n - 2; row n - 1 would be empty anyway.
   */
  function PairOrder(n: nat): seq<Pair>
  {
    if n == 0 then [] else Rows(n - 1, n)
  }

  /** Lexicographic order on pairs: the order in which the loops visit them. */
  predicate LexLess(p: Pair, q: Pair)
  {
    p.0 < q.0 || (p.0 == q.0 && p.1 < q.1)
  }

  lemma {:induction false} RowsLength(rows: nat, n: nat)
    requires rows <= n
    ensures 2 * |Rows(rows, n)| == rows * (2 * n - rows - 1)
  {
    if rows > 0 {
      RowsLength(rows - 1, n);
      assert |Rows(rows, n)| == |Rows(rows - 1, n)| + (n - rows);
      calc {
        2 * |Rows(rows, n)|;
        (rows - 1) * (2 * n - rows) + 2 * (n - rows);
        rows * (2 * n - rows - 1);
      }
    }
  }

  /** The loops perform n * (n - 1) / 2 updates for an n-element list. */
  lemma PairOrderLength(n: nat)
    ensures |PairOrder(n)| == n * (n - 1) / 2
  {
    if n > 0 {
      RowsLength(n - 1, n);
      assert 2 * |PairOrder(n)| == n * (n - 1);
    }
  }

  lemma {:induction false} RowsComplete(rows: nat, n: nat, j: nat, k: nat)
    requires j < rows && j < k < n
    ensures (j, k) in Rows(rows, n)
  {
    if j == rows - 1 {
      var row := Row(j, n);
      assert row[k - j - 1] == (j, k);
      assert Rows(rows, n)[|Rows(rows - 1, n)| + (k - j - 1)] == (j, k);
    } else {
      RowsComplete(rows - 1, n, j, k);
      var t :| 0 <= t < |Rows(rows - 1, n)| && Rows(rows - 1, n)[t] == (j, k);
      assert Rows(rows, n)[t] == (j, k);
    }
  }

  /** The loops visit exactly the pairs j < k of positions of an n-element list. */
  lemma PairOrderMembers(n: nat, p: Pair)
    ensures p in PairOrder(n) <==> p.0 < p.1 < n
  {
    if p.0 < p.1 < n {
      RowsComplete(n - 1, n, p.0, p.1);
    }
  }

  lemma {:induction false} RowsSorted(rows: nat, n: nat)
    ensures forall s, t :: 0 <= s < t < |Rows(rows, n)| ==> LexLess(Rows(rows, n)[s], Rows(rows, n)[t])
  {
    if rows > 0 {
      RowsSorted(rows - 1, n);
      var front, row := Rows(rows - 1, n), Row(rows - 1, n);
      forall s, t | 0 <= s < t < |front + row|
        ensures LexLess((front + row)[s], (front + row)[t])
      {
        if t < |front| {
          assert (front + row)[s] == front[s] && (front + row)[t] == front[t];
        } else if s < |front| {
          assert (front + row)[s] == front[s] && (front + row)[t] == row[t - |front|];
        } else {
          assert (front + row)[s] == row[s - |front|] && (front + row)[t] == row[t - |front|];
        }
      }
    }
  }

  /** The loops visit the pairs in increasing lexicographic order, so none twice. */
  lemma PairOrderVisitsOnce(n: nat)
    ensures forall s, t :: 0 <= s < t < |PairOrder(n)| ==> LexLess(PairOrder(n)[s], PairOrder(n)[t])
    ensures forall s, t :: 0 <= s < t < |PairOrder(n)| ==> PairOrder(n)[s] != PairOrder(n)[t]
  {
    if n > 0 {
      RowsSorted(n - 1, n);
    }
  }
}
