/**
 * `LevenshteinDistance` of AutoCompletionPrediction.cpp: the dynamic
 * programming table over prefixes of the two strings.
 */
module EditDistance {

  function Min3(x: nat, y: nat, z: nat): (m: nat)
    ensures m <= x && m <= y && m <= z
    ensures m == x || m == y || m == z
  {
    if x <= y && x <= z then x else if y <= z then y else z
  }

  /**
   * The table entry `dp[i][j]`: the distance between the first `i`
   * characters of `a` and the first `j` characters of `b`.
   */
  function D(a: string, b: string, i: nat, j: nat): nat
    requires i <= |a| && j <= |b|
    decreases i + j
  {
    if i == 0 then j
    else if j == 0 then i
    else if a[i - 1] == b[j - 1] then D(a, b, i - 1, j - 1)
    else 1 + Min3(D(a, b, i - 1, j), D(a, b, i, j - 1), D(a, b, i - 1, j - 1))
  }

  /** The distance between whole strings: against the empty string it is the other length. */
  function Distance(a: string, b: string): (d: nat)
    ensures b == [] ==> d == |a|
    ensures a == [] ==> d == |b|
  {
    D(a, b, |a|, |b|)
  }

  /** The distance does not depend on the order of its arguments. */
  lemma {:induction false} DSymmetric(a: string, b: string, i: nat, j: nat)
    requires i <= |a| && j <= |b|
    ensures D(a, b, i, j) == D(b, a, j, i)
    decreases i + j
  {
    if i != 0 && j != 0 {
      if a[i - 1] == b[j - 1] {
        DSymmetric(a, b, i - 1, j - 1);
      } else {
        DSymmetric(a, b, i - 1, j);
        DSymmetric(a, b, i, j - 1);
        DSymmetric(a, b, i - 1, j - 1);
      }
    }
  }

  lemma DistanceSymmetric(a: string, b: string)
    ensures Distance(a, b) == Distance(b, a)
  {
    DSymmetric(a, b, |a|, |b|);
  }

  /** The table lies between the difference and the larger of the two prefix lengths. */
  lemma {:induction false} DBounds(a: string, b: string, i: nat, j: nat)
    requires i <= |a| && j <= |b|
    ensures i - j <= D(a, b, i, j) && j - i <= D(a, b, i, j)
    ensures D(a, b, i, j) <= if i <= j then j else i
    decreases i + j
  {
    if i != 0 && j != 0 {
      DBounds(a, b, i - 1, j - 1);
      if a[i - 1] != b[j - 1] {
        DBounds(a, b, i - 1, j);
        DBounds(a, b, i, j - 1);
      }
    }
  }

  lemma DistanceBounds(a: string, b: string)
    ensures |a| - |b| <= Distance(a, b) && |b| - |a| <= Distance(a, b)
    ensures Distance(a, b) <= if |a| <= |b| then |b| else |a|
  {
    DBounds(a, b, |a|, |b|);
  }

  /** The distance is zero exactly between equal prefixes. */
  lemma {:induction false} DZero(a: string, b: string, i: nat, j: nat)
    requires i <= |a| && j <= |b|
    ensures D(a, b, i, j) == 0 <==> a[..i] == b[..j]
    decreases i + j
  {
    if i == 0 || j == 0 {
    } else if a[i - 1] == b[j - 1] {
      DZero(a, b, i - 1, j - 1);
      assert a[..i] == a[..i - 1] + [a[i - 1]];
      assert b[..j] == b[..j - 1] + [b[j - 1]];
    } else {
      assert a[..i][i - 1] != b[..j][j - 1];
    }
  }

  lemma DistanceZero(a: string, b: string)
    ensures Distance(a, b) == 0 <==> a == b
  {
    DZero(a, b, |a|, |b|);
    assert a[..|a|] == a && b[..|b|] == b;
  }

  /** `LevenshteinDistance`: fills the `(|a|+1) x (|b|+1)` table row by row. */
  method LevenshteinDistance(a: string, b: string) returns (d: int)
    ensures d == Distance(a, b)
  {
    var lenA, lenB := |a|, |b|;
    var dp := new int[lenA + 1, lenB + 1];
    for i := 0 to lenA + 1
      invariant forall ii :: 0 <= ii < i ==> dp[ii, 0] == ii
    {
      dp[i, 0] := i;
    }
    for j := 0 to lenB + 1
      invariant forall ii :: 0 <= ii <= lenA ==> dp[ii, 0] == ii
      invariant forall jj :: 0 <= jj < j ==> dp[0, jj] == jj
    {
      dp[0, j] := j;
    }
    for i := 1 to lenA + 1
      invariant forall ii, jj {:trigger dp[ii, jj]} :: 0 <= ii < i && 0 <= jj <= lenB ==> dp[ii, jj] == D(a, b, ii, jj)
      invariant forall ii :: i <= ii <= lenA ==> dp[ii, 0] == ii
    {
      FillRow(dp, a, b, i);
    }
    d := dp[lenA, lenB];
  }

  /** One pass of the inner loop of `LevenshteinDistance`: row `i` of the table from row `i - 1`. */
  method FillRow(dp: array2<int>, a: string, b: string, i: nat)
    requires dp.Length0 == |a| + 1 && dp.Length1 == |b| + 1 && 1 <= i <= |a|
    requires forall ii, jj {:trigger dp[ii, jj]} :: 0 <= ii < i && 0 <= jj <= |b| ==> dp[ii, jj] == D(a, b, ii, jj)
    requires forall ii :: i <= ii <= |a| ==> dp[ii, 0] == ii
    modifies dp
    ensures forall ii, jj {:trigger dp[ii, jj]} :: 0 <= ii <= i && 0 <= jj <= |b| ==> dp[ii, jj] == D(a, b, ii, jj)
    ensures forall ii :: i < ii <= |a| ==> dp[ii, 0] == ii
  {
    for j := 1 to |b| + 1
      invariant forall ii, jj {:trigger dp[ii, jj]} :: 0 <= ii < i && 0 <= jj <= |b| ==> dp[ii, jj] == D(a, b, ii, jj)
      invariant forall jj {:trigger dp[i, jj]} :: 0 <= jj < j ==> dp[i, jj] == D(a, b, i, jj)
      invariant forall ii :: i < ii <= |a| ==> dp[ii, 0] == ii
    {
      if a[i - 1] == b[j - 1] {
        dp[i, j] := dp[i - 1, j - 1];
      } else {
        dp[i, j] := 1 + Min3(dp[i - 1, j], dp[i, j - 1], dp[i - 1, j - 1]);
      }
    }
  }
}
