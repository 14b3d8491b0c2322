// The number triangle: cheapest root-to-bottom path, and the sequential dynamic program.
module Triangle {

  // Row i has at least i + 1 numbers.
  predicate Covers(t: seq<seq<int>>) {
    |t| > 0 && forall i | 0 <= i < |t| :: |t[i]| > i
  }

  type Triangle = t: seq<seq<int>> | Covers(t) witness [[0]]

  const INT_MAX := 0x7FFF_FFFF

  function Min(a: int, b: int): int {
    if b < a then b else a
  }

  function MinOf(s: seq<int>): (m: int)
    requires s != []
    ensures m in s
    ensures forall x | x in s :: m <= x
  {
    if |s| == 1 then s[0] else
      var m := MinOf(s[..|s| - 1]);
      assert s == s[..|s| - 1] + [s[|s| - 1]];
      Min(m, s[|s| - 1])
  }

  lemma MinOfUnique(s: seq<int>, m: int)
    requires s != [] && m in s && forall x | x in s :: m <= x
    ensures m == MinOf(s)
  {
  }

  // The dynamic program, cell by cell.
  function Cell(t: Triangle, i: nat, j: nat): int
    requires j <= i < |t|
    decreases i
  {
    if i == 0 then t[0][0] else Above(t, i, j) + t[i][j]
  }

  // The cheaper of the cells above.
  function Above(t: Triangle, i: nat, j: nat): int
    requires 0 < i < |t| && j <= i
    decreases i, 0
  {
    if j == 0 then Cell(t, i - 1, 0)
    else if j == i then Cell(t, i - 1, j - 1)
    else Min(Cell(t, i - 1, j - 1), Cell(t, i - 1, j))
  }

  function Row(t: Triangle, i: nat): (r: seq<int>)
    requires i < |t|
    ensures |r| == i + 1
  {
    seq(i + 1, j requires 0 <= j < i + 1 => Cell(t, i, j))
  }

  function Best(t: Triangle): int {
    MinOf(Row(t, |t| - 1))
  }

  // --- what it computes -----------------------------------------------------------------

  // Columns visited from the top; each step keeps the column or moves one to the right.
  predicate IsPath(p: seq<nat>) {
    p != [] && p[0] == 0 && forall k | 0 < k < |p| :: p[k] == p[k - 1] || p[k] == p[k - 1] + 1
  }

  lemma {:induction false} PathWithin(p: seq<nat>, k: nat)
    requires IsPath(p) && k < |p|
    ensures p[k] <= k
    decreases k
  {
    if k > 0 {
      PathWithin(p, k - 1);
    }
  }

  function Sum(t: Triangle, p: seq<nat>): int
    requires |p| <= |t| && forall k | 0 <= k < |p| :: p[k] <= k
    decreases |p|
  {
    if p == [] then 0 else Sum(t, p[..|p| - 1]) + t[|p| - 1][p[|p| - 1]]
  }

  // Paths of the triangle that end in row i, column j.
  ghost predicate PathTo(t: Triangle, p: seq<nat>, i: nat, j: nat) {
    IsPath(p) && |p| == i + 1 <= |t| && p[i] == j && forall k | 0 <= k < |p| :: p[k] <= k
  }

  lemma {:induction false} CellIsLowerBound(t: Triangle, p: seq<nat>, i: nat, j: nat)
    requires j <= i < |t| && PathTo(t, p, i, j)
    ensures Cell(t, i, j) <= Sum(t, p)
    decreases i
  {
    if i == 0 {
      assert p[..0] == [];
    } else {
      var q := p[..i];
      assert PathTo(t, q, i - 1, p[i - 1]);
      CellIsLowerBound(t, q, i - 1, p[i - 1]);
    }
  }

  lemma Extend(t: Triangle, q: seq<nat>, i: nat, from: nat, j: nat)
    requires 0 < i < |t| && PathTo(t, q, i - 1, from) && (j == from || j == from + 1)
    ensures PathTo(t, q + [j], i, j) && Sum(t, q + [j]) == Sum(t, q) + t[i][j]
  {
    assert (q + [j])[..i] == q;
  }

  lemma {:induction false} CellIsAttained(t: Triangle, i: nat, j: nat) returns (p: seq<nat>)
    requires j <= i < |t|
    ensures PathTo(t, p, i, j) && Sum(t, p) == Cell(t, i, j)
    decreases i
  {
    if i == 0 {
      p := [0];
      assert p[..0] == [];
    } else {
      var from := if j == i || (j > 0 && Cell(t, i - 1, j - 1) <= Cell(t, i - 1, j)) then j - 1 else j;
      var q := CellIsAttained(t, i - 1, from);
      Extend(t, q, i, from, j);
      p := q + [j];
    }
  }

  // A path from the root to the last row.
  ghost predicate FullPath(t: Triangle, p: seq<nat>) {
    |p| == |t| && IsPath(p) && forall k | 0 <= k < |p| :: p[k] <= k
  }

  /** The last row's minimum is the least sum over all root-to-bottom paths. */
  lemma BestIsOptimal(t: Triangle)
    ensures exists p :: FullPath(t, p) && Sum(t, p) == Best(t)
    ensures forall p | FullPath(t, p) :: Best(t) <= Sum(t, p)
  {
    var last := |t| - 1;
    var row := Row(t, last);
    var j :| 0 <= j < |row| && row[j] == Best(t);
    var p := CellIsAttained(t, last, j);
    assert FullPath(t, p);
    forall q | FullPath(t, q)
      ensures Best(t) <= Sum(t, q)
    {
      CellIsLowerBound(t, q, last, q[last]);
      assert row[q[last]] in row;
    }
  }

  // --- the sequential program --------------------------------------------------------------

  /** The sequential job: two rows updated in nested loops, then a minimum that starts at INT_MAX. */
  method LocalYanghuiJob(t: Triangle) returns (minSum: int)
    ensures minSum == Min(INT_MAX, Best(t))
    ensures Best(t) < 0x8000_0000 ==> minSum == Best(t)
  {
    var n := |t|;
    var tempStates := new int[n];
    var states := new int[n];
    states[0] := t[0][0];
    var i := 1;
    while i < n
      invariant 1 <= i <= n
      invariant states[..i] == Row(t, i - 1)
    {
      FillRow(t, i, states, tempStates);
      var k := 0;
      while k < i + 1
        invariant 0 <= k <= i + 1
        invariant tempStates[..i + 1] == Row(t, i)
        invariant states[..k] == tempStates[..k]
      {
        states[k] := tempStates[k];
        k := k + 1;
      }
      i := i + 1;
    }
    minSum := INT_MAX;
    var j := 0;
    var row := Row(t, n - 1);
    assert states[..n] == row;
    while j < n
      invariant 0 <= j <= n
      invariant minSum == INT_MAX || minSum in row
      invariant minSum <= INT_MAX && forall k | 0 <= k < j :: minSum <= row[k]
    {
      assert states[j] == states[..n][j] == row[j];
      if states[j] < minSum {
        minSum := states[j];
      }
      j := j + 1;
    }
  }

  // The inner loop over one row.
  method FillRow(t: Triangle, i: nat, states: array<int>, tempStates: array<int>)
    requires 0 < i < |t| && states.Length == |t| && tempStates.Length == |t| && states != tempStates
    requires states[..i] == Row(t, i - 1)
    modifies tempStates
    ensures tempStates[..i + 1] == Row(t, i)
  {
    var j := 0;
    while j < i + 1
      invariant 0 <= j <= i + 1
      invariant forall k | 0 <= k < j :: tempStates[k] == Cell(t, i, k)
    {
      assert j > 0 ==> states[j - 1] == states[..i][j - 1];
      assert j < i ==> states[j] == states[..i][j];
      if j == 0 {
        tempStates[0] := states[0] + t[i][j];
      } else if j == i {
        tempStates[j] := states[j - 1] + t[i][j];
      } else {
        tempStates[j] := Min(states[j - 1], states[j]) + t[i][j];
      }
      j := j + 1;
    }
  }
}
