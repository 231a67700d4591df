/**
 * The word similarity behind the character search: the Levenshtein distance
 * of two words, computed with the usual dynamic-programming matrix, turned
 * into a similarity `1 - distance / longer length`.
 */
module EditDistance {

  function Min3(x: nat, y: nat, z: nat): (m: nat)
    ensures m <= x && m <= y && m <= z
    ensures m == x || m == y || m == z
  {
    if x <= y && x <= z then x else if y <= z then y else z
  }

  function Max(x: nat, y: nat): nat {
    if x >= y then x else y
  }

  /**
   * The edit distance between the prefixes `a[..i]` and `b[..j]`: at least
   * the difference of their lengths, at most the sum.
   */
  function Lev(a: string, b: string, i: nat, j: nat): (d: nat)
    requires i <= |a| && j <= |b|
    ensures d >= i - j && d >= j - i
    ensures d <= i + j
    decreases i + j
  {
    if i == 0 then j
    else if j == 0 then i
    else Min3(Lev(a, b, i - 1, j) + 1,
              Lev(a, b, i, j - 1) + 1,
              Lev(a, b, i - 1, j - 1) + (if a[i - 1] == b[j - 1] then 0 else 1))
  }

  /** One step of the recurrence, for a cell off the borders. */
  lemma LevStep(a: string, b: string, i: nat, j: nat)
    requires 1 <= i <= |a| && 1 <= j <= |b|
    ensures Lev(a, b, i, j) == Min3(Lev(a, b, i - 1, j) + 1, Lev(a, b, i, j - 1) + 1,
                                    Lev(a, b, i - 1, j - 1) + (if a[i - 1] == b[j - 1] then 0 else 1))
  {
  }

  /** The distance never exceeds the longer prefix. */
  lemma {:induction false} LevAtMostLonger(a: string, b: string, i: nat, j: nat)
    requires i <= |a| && j <= |b|
    ensures Lev(a, b, i, j) <= Max(i, j)
    decreases i + j
  {
    if i > 0 && j > 0 {
      LevAtMostLonger(a, b, i - 1, j - 1);
    }
  }

  /** Equal prefixes are at distance zero. */
  lemma {:induction false} LevZeroOfEqual(a: string, b: string, i: nat, j: nat)
    requires i <= |a| && j <= |b| && a[..i] == b[..j]
    ensures Lev(a, b, i, j) == 0
    decreases i + j
  {
    if i > 0 && j > 0 {
      assert a[i - 1] == a[..i][i - 1] == b[..j][j - 1] == b[j - 1];
      assert a[..i - 1] == a[..i][..i - 1] == b[..j][..j - 1] == b[..j - 1];
      LevZeroOfEqual(a, b, i - 1, j - 1);
    }
  }

  /** Prefixes at distance zero are equal. */
  lemma {:induction false} LevZeroMeansEqual(a: string, b: string, i: nat, j: nat)
    requires i <= |a| && j <= |b| && Lev(a, b, i, j) == 0
    ensures a[..i] == b[..j]
    decreases i + j
  {
    if i > 0 && j > 0 {
      LevZeroMeansEqual(a, b, i - 1, j - 1);
      assert a[..i] == a[..i - 1] + [a[i - 1]];
      assert b[..j] == b[..j - 1] + [b[j - 1]];
    }
  }

  /** The distance is zero exactly when the two prefixes are the same text. */
  lemma LevZeroIff(a: string, b: string, i: nat, j: nat)
    requires i <= |a| && j <= |b|
    ensures Lev(a, b, i, j) == 0 <==> a[..i] == b[..j]
  {
    if a[..i] == b[..j] {
      LevZeroOfEqual(a, b, i, j);
    }
    if Lev(a, b, i, j) == 0 {
      LevZeroMeansEqual(a, b, i, j);
    }
  }

  /** Rows `0 .. i-1` of the matrix hold the distances of the matching prefixes. */
  ghost predicate RowsDone(m: array2<nat>, a: string, b: string, i: nat)
    reads m
    requires m.Length0 == |a| + 1 && m.Length1 == |b| + 1
  {
    forall r, c :: 0 <= r < i && r <= |a| && 0 <= c <= |b| ==> m[r, c] == Lev(a, b, r, c)
  }

  /**
   * The matrix loops of `getEditDistance`: column 0 and row 0 hold the
   * prefix lengths, every other cell the cheapest of deletion, insertion and
   * substitution; the bottom-right cell is the distance of the two words.
   */
  method DistanceMatrix(a: string, b: string) returns (d: nat)
    ensures d == Lev(a, b, |a|, |b|)
  {
    var m := new nat[|a| + 1, |b| + 1];
    var i := 0;
    while i <= |a|
      invariant 0 <= i <= |a| + 1
      invariant forall r :: 0 <= r < i ==> m[r, 0] == r
    {
      m[i, 0] := i;
      i := i + 1;
    }
    var j := 0;
    while j <= |b|
      invariant 0 <= j <= |b| + 1
      invariant forall r :: 0 <= r <= |a| ==> m[r, 0] == r
      invariant forall c :: 0 <= c < j ==> m[0, c] == c
    {
      m[0, j] := j;
      j := j + 1;
    }
    i := 1;
    while i <= |a|
      invariant 1 <= i <= |a| + 1
      invariant RowsDone(m, a, b, i)
      invariant forall r :: i <= r <= |a| ==> m[r, 0] == r
    {
      FillRow(m, a, b, i);
      i := i + 1;
    }
    d := m[|a|, |b|];
  }

  /** The inner loop: fills row `i` left to right from the row above. */
  method FillRow(m: array2<nat>, a: string, b: string, i: nat)
    requires m.Length0 == |a| + 1 && m.Length1 == |b| + 1
    requires 1 <= i <= |a|
    requires RowsDone(m, a, b, i)
    requires m[i, 0] == i
    modifies m
    ensures RowsDone(m, a, b, i + 1)
    ensures forall r, c :: 0 <= r < m.Length0 && 0 <= c < m.Length1 && r != i ==> m[r, c] == old(m[r, c])
  {
    var j := 1;
    while j <= |b|
      invariant 1 <= j <= |b| + 1
      invariant forall c {:trigger m[i, c]} :: 0 <= c < j ==> m[i, c] == Lev(a, b, i, c)
      invariant forall r, c :: 0 <= r < m.Length0 && 0 <= c < m.Length1 && r != i ==> m[r, c] == old(m[r, c])
    {
      FillCell(m, a, b, i, j);
      j := j + 1;
    }
    forall r, c | 0 <= r < i + 1 && r <= |a| && 0 <= c <= |b|
      ensures m[r, c] == Lev(a, b, r, c)
    {
      if r < i {
        assert old(m[r, c]) == Lev(a, b, r, c);
      }
    }
  }

  /** One cell: the cheapest of a deletion, an insertion and a match or substitution. */
  method FillCell(m: array2<nat>, a: string, b: string, i: nat, j: nat)
    requires m.Length0 == |a| + 1 && m.Length1 == |b| + 1
    requires 1 <= i <= |a| && 1 <= j <= |b|
    requires m[i - 1, j] == Lev(a, b, i - 1, j) && m[i - 1, j - 1] == Lev(a, b, i - 1, j - 1)
    requires m[i, j - 1] == Lev(a, b, i, j - 1)
    modifies m
    ensures m[i, j] == Lev(a, b, i, j)
    ensures forall r, c :: 0 <= r < m.Length0 && 0 <= c < m.Length1 && (r != i || c != j) ==> m[r, c] == old(m[r, c])
  {
    var cost := if a[i - 1] == b[j - 1] then 0 else 1;
    var up, left, diag := m[i - 1, j], m[i, j - 1], m[i - 1, j - 1];
    LevStep(a, b, i, j);
    m[i, j] := Min3(up + 1, left + 1, diag + cost);
  }

  /**
   * The similarity of two words: 1 for two empty words, otherwise one minus
   * the edit distance over the longer length. It lies in [0, 1] and is 1
   * exactly for identical words.
   */
  function Similarity(a: string, b: string): (s: real)
    ensures 0.0 <= s <= 1.0
    ensures s == 1.0 <==> a == b
  {
    var longest := Max(|a|, |b|);
    if longest == 0 then 1.0
    else
      var d := Lev(a, b, |a|, |b|);
      LevAtMostLonger(a, b, |a|, |b|);
      LevZeroIff(a, b, |a|, |b|);
      assert a[..|a|] == a && b[..|b|] == b;
      RatioInUnitRange(d, longest);
      1.0 - (d as real) / (longest as real)
  }

  /** A count over a positive bound at least as large lies in [0, 1] and is 0 only for a zero count. */
  lemma RatioInUnitRange(d: nat, n: nat)
    requires 0 < n && d <= n
    ensures 0.0 <= (d as real) / (n as real) <= 1.0
    ensures (d as real) / (n as real) == 0.0 <==> d == 0
  {
    assert (d as real) <= (n as real);
  }

  /**
   * `getEditDistance` as it is written: an empty word makes it return the
   * other word's length instead of a similarity.
   */
  function EditDistanceAsWritten(a: string, b: string): real
  {
    if |a| == 0 then |b| as real
    else if |b| == 0 then |a| as real
    else Similarity(a, b)
  }

  /** `getEditDistance`, early returns included. */
  method GetEditDistance(a: string, b: string) returns (r: real)
    ensures r == EditDistanceAsWritten(a, b)
    ensures |a| > 0 && |b| > 0 ==> r == Similarity(a, b)
  {
    if |a| == 0 {
      return |b| as real;
    }
    if |b| == 0 {
      return |a| as real;
    }
    var d := DistanceMatrix(a, b);
    var longest := Max(|a|, |b|);
    if longest == 0 {
      return 1.0;
    }
    r := 1.0 - (d as real) / (longest as real);
  }

  /**
   * The early returns leave the unit range and disagree with the
   * `maxLength === 0` branch they make unreachable.
   */
  lemma EmptyWordOutsideUnitRange()
    ensures EditDistanceAsWritten("", "abc") == 3.0 && Similarity("", "abc") == 0.0
    ensures EditDistanceAsWritten("", "") == 0.0 && Similarity("", "") == 1.0
  {
    assert Lev("", "abc", 0, 3) == 3;
  }
}
