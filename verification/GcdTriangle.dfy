/**
 The greatest common divisor of a list of numbers, as the shell computes it: row i of a square table
 holds the divisors of all runs of i + 1 neighbours.  One column of the table is never written, and
 the cells computed from it never reach the answer.
 */
module GcdTriangle {
  import opened CTypes

  function GcdCouple(a: int, b: int): int
    decreases Abs(b)
  {
    if b == 0 then 1 else
    if CMod(a, b) == 0 then b else GcdCouple(b, CMod(a, b))
  }

  // ---------------------------------------------------------------------------------------------
  // Divisors

  ghost predicate Divides(d: nat, x: nat) {
    exists k: nat :: d * k == x
  }

  lemma MulAdd(d: nat, j: nat, k: nat)
    ensures d * (j + k) == d * j + d * k
  {
  }

  lemma DividesDifference(d: nat, x: nat, k: nat, j: nat)
    requires d * k == x + d * j
    ensures Divides(d, x)
  {
    if k >= j {
      MulAdd(d, j, k - j);
      assert d * (k - j) == x;
    } else {
      MulAdd(d, k, j - k);
      assert d * 0 == x;
    }
  }

  lemma MulShuffle(d: nat, m: nat, q: nat)
    ensures q * (d * m) == d * (q * m) && q * m >= 0
  {
  }

  lemma DividesSum(d: nat, x: nat, y: nat, q: nat)
    requires Divides(d, y) && q * y >= 0
    ensures Divides(d, x) <==> Divides(d, x + q * y)
  {
    var m: nat :| d * m == y;
    MulShuffle(d, m, q);
    if Divides(d, x) {
      var k: nat :| d * k == x;
      MulAdd(d, k, q * m);
      assert d * (k + q * m) == x + q * y;
    }
    if Divides(d, x + q * y) {
      var k: nat :| d * k == x + q * y;
      DividesDifference(d, x, k, q * m);
    }
  }

  /** The common divisors of two numbers are those of the second and the remainder. */
  lemma CommonDivisors(d: nat, a: nat, b: nat)
    requires b > 0
    ensures Divides(d, a) && Divides(d, b) <==> Divides(d, b) && Divides(d, a % b)
  {
    var q := a / b;
    assert a == a % b + q * b;
    if Divides(d, b) {
      DividesSum(d, a % b, b, q);
    }
  }

  lemma DividesZero(d: nat)
    ensures Divides(d, 0)
  {
    assert d * 0 == 0;
  }

  lemma {:induction false} GcdOfNaturals(a: nat, b: nat, d: nat)
    requires b > 0
    ensures GcdCouple(a, b) > 0
    ensures Divides(d, GcdCouple(a, b)) <==> Divides(d, a) && Divides(d, b)
    decreases b
  {
    hide Divides;
    CommonDivisors(d, a, b);
    if a % b == 0 {
      DividesZero(d);
    } else {
      GcdOfNaturals(b, a % b, d);
    }
  }

  /** Signs do not matter, except for the sign of the result. */
  lemma {:induction false} Magnitude(a: int, b: int)
    ensures Abs(GcdCouple(a, b)) == GcdCouple(Abs(a), Abs(b))
    decreases Abs(b)
  {
    if b != 0 {
      assert Abs(CMod(a, b)) == CMod(Abs(a), Abs(b));
      Magnitude(b, CMod(a, b));
    }
  }

  /** How often the remainder of two natural numbers is taken before none is left. */
  function Steps(a: nat, b: nat): nat
    decreases b
  {
    if b == 0 || a % b == 0 then 0 else 1 + Steps(b, a % b)
  }

  /** The sign of the result is that of one of the arguments: they change places with every step. */
  lemma {:induction false} SignOfCouple(a: int, b: int)
    ensures GcdCouple(a, b) < 0 <==> b != 0 && if Steps(Abs(a), Abs(b)) % 2 == 0 then b < 0 else a < 0
    decreases Abs(b)
  {
    if b != 0 {
      var r := CMod(a, b);
      assert Abs(r) == Abs(a) % Abs(b) && (r < 0 ==> a < 0) && (a < 0 ==> r <= 0);
      if r != 0 {
        SignOfCouple(b, r);
      }
    }
  }

  /** gcd_couple is a true greatest common divisor, up to sign, whenever its second argument is not zero. */
  lemma GcdCoupleIsGcd(a: int, b: int, d: nat)
    requires b != 0
    ensures GcdCouple(a, b) != 0
    ensures Divides(d, Abs(GcdCouple(a, b))) <==> Divides(d, Abs(a)) && Divides(d, Abs(b))
  {
    Magnitude(a, b);
    GcdOfNaturals(Abs(a), Abs(b), d);
  }

  ghost predicate DividesAll(d: nat, s: seq<nat>) {
    forall i :: 0 <= i < |s| ==> Divides(d, s[i])
  }

  /** The divisors of `g` are the common divisors of `s`. */
  ghost predicate IsGcd(g: nat, s: seq<nat>) {
    forall d: nat {:trigger Divides(d, g)} :: Divides(d, g) <==> DividesAll(d, s)
  }

  lemma DivideEachOther(g: nat, h: nat, j: nat, k: nat)
    requires g * j == h && h * k == g
    ensures g == h
  {
    if j == 0 || k == 0 {
    } else {
      assert h >= g by { assert g * (j - 1) >= 0; }
      assert g >= h by { assert h * (k - 1) >= 0; }
    }
  }

  /** This says which number `g` is. */
  lemma GcdIsUnique(g: nat, h: nat, s: seq<nat>)
    requires IsGcd(g, s) && IsGcd(h, s)
    ensures g == h
  {
    assert Divides(g, g) by { assert g * 1 == g; }
    assert Divides(h, h) by { assert h * 1 == h; }
    assert Divides(g, h) && Divides(h, g);
    var j: nat :| g * j == h;
    var k: nat :| h * k == g;
    DivideEachOther(g, h, j, k);
  }

  // ---------------------------------------------------------------------------------------------
  // The table

  /** The cell in row i and column j, where the table means anything. */
  function Cell(arr: seq<int>, i: nat, j: nat): int
    requires i + j < |arr|
    decreases i
  {
    if i == 0 then arr[j] else GcdCouple(Cell(arr, i - 1, j), Cell(arr, i - 1, j + 1))
  }

  /** Row `i` of the table is right as far as it means anything. */
  ghost predicate RowOk(matrix: array2<int>, s: seq<int>, i: nat)
    requires matrix.Length0 == matrix.Length1 == |s| && i < |s|
    reads matrix
  {
    forall j :: 0 <= j < |s| - i ==> matrix[i, j] == Cell(s, i, j)
  }

  /** The inner loop.  It also writes cells, from cells that hold anything, that no answer depends on. */
  method FillRow(matrix: array2<int>, ghost s: seq<int>, i: nat)
    requires matrix.Length0 == matrix.Length1 == |s| && 0 < i < |s|
    requires RowOk(matrix, s, i - 1)
    modifies matrix
    ensures RowOk(matrix, s, i)
  {
    hide GcdCouple;
    for j := 0 to matrix.Length1 - 1
      invariant RowOk(matrix, s, i - 1)
      invariant forall c :: 0 <= c < j && c < |s| - i ==> matrix[i, c] == Cell(s, i, c)
    {
      matrix[i, j] := GcdCouple(matrix[i - 1, j], matrix[i - 1, j + 1]);
    }
  }

  /** Fills the table, whose cells hold anything at first, and yields the cell of the answer. */
  method Gcd(arr: array<int>) returns (g: int)
    requires arr.Length >= 1
    ensures g == Cell(arr[..], arr.Length - 1, 0)
  {
    hide GcdCouple;
    var n := arr.Length;
    var matrix := new int[n, n];
    ghost var s := arr[..];
    for i := 0 to n
      invariant arr[..] == s
      invariant forall j :: 0 <= j < i ==> matrix[0, j] == s[j]
    {
      matrix[0, i] := arr[i];
    }
    for i := 1 to n
      invariant arr[..] == s
      invariant RowOk(matrix, s, i - 1)
    {
      FillRow(matrix, s, i);
    }
    g := matrix[n - 1, 0];
  }

  ghost predicate Natural(arr: seq<int>) {
    forall i :: 0 <= i < |arr| ==> arr[i] >= 0
  }

  /** Below the first row every cell is positive. */
  lemma {:induction false} CellPositive(arr: seq<int>, i: nat, j: nat)
    requires Natural(arr) && i + j < |arr|
    ensures Cell(arr, i, j) >= 0 && (i > 0 ==> Cell(arr, i, j) > 0)
    decreases i
  {
    if i > 0 {
      CellPositive(arr, i - 1, j);
      CellPositive(arr, i - 1, j + 1);
      var a, b := Cell(arr, i - 1, j), Cell(arr, i - 1, j + 1);
      if b > 0 { GcdOfNaturals(a, b, 0); }
    }
  }

  lemma DividesRuns(d: nat, arr: seq<int>, j: nat, i: nat)
    requires Natural(arr) && i > 0 && j + i < |arr|
    ensures DividesAll(d, arr[j..j + i + 1]) <==>
              DividesAll(d, arr[j..j + i]) && DividesAll(d, arr[j + 1..j + i + 1])
  {
    hide Divides;
    var whole, left, right := arr[j..j + i + 1], arr[j..j + i], arr[j + 1..j + i + 1];
    assert forall k :: 0 <= k < i ==> left[k] == whole[k] && right[k] == whole[k + 1];
  }

  lemma {:induction false} NaturalDivisors(arr: seq<int>, i: nat, j: nat, d: nat)
    requires Natural(arr) && i + j < |arr|
    requires forall k :: j < k <= i + j ==> arr[k] > 0
    ensures Cell(arr, i, j) >= 0
    ensures Divides(d, Cell(arr, i, j)) <==> DividesAll(d, arr[j..j + i + 1])
    decreases i
  {
    CellPositive(arr, i, j);
    if i == 0 {
      assert arr[j..j + 1] == [arr[j]];
    } else {
      NaturalDivisors(arr, i - 1, j, d);
      NaturalDivisors(arr, i - 1, j + 1, d);
      CellPositive(arr, i - 1, j + 1);
      GcdOfNaturals(Cell(arr, i - 1, j), Cell(arr, i - 1, j + 1), d);
      DividesRuns(d, arr, j, i);
    }
  }

  lemma GcdCoupleWithOne(x: nat)
    requires x > 0
    ensures GcdCouple(x, 1) == 1 && GcdCouple(1, x) == 1
  {
    assert CMod(x, 1) == 0;
    if x > 1 {
      assert CMod(1, x) == 1;
    }
  }

  lemma {:induction false} ZeroSpoilsNaturals(arr: seq<int>, i: nat, j: nat, k: nat)
    requires Natural(arr) && i + j < |arr| && j < k <= i + j && arr[k] == 0
    ensures Cell(arr, i, j) == 1
    decreases i
  {
    if i > 1 {
      CellPositive(arr, i - 1, j);
      CellPositive(arr, i - 1, j + 1);
      if k < i + j {
        ZeroSpoilsNaturals(arr, i - 1, j, k);
        GcdCoupleWithOne(Cell(arr, i - 1, j + 1));
      } else {
        ZeroSpoilsNaturals(arr, i - 1, j + 1, k);
        GcdCoupleWithOne(Cell(arr, i - 1, j));
      }
    }
  }

  function Magnitudes(arr: seq<int>): (s: seq<nat>)
    ensures |s| == |arr|
  {
    seq(|arr|, i requires 0 <= i < |arr| => Abs(arr[i]))
  }

  lemma {:induction false} CellMagnitude(arr: seq<int>, i: nat, j: nat)
    requires i + j < |arr|
    ensures Abs(Cell(arr, i, j)) == Cell(Magnitudes(arr), i, j)
    decreases i
  {
    if i > 0 {
      CellMagnitude(arr, i - 1, j);
      CellMagnitude(arr, i - 1, j + 1);
      Magnitude(Cell(arr, i - 1, j), Cell(arr, i - 1, j + 1));
    }
  }

  /** A cell has the common divisors of its run, if only the first number of the run may be zero. */
  lemma CellDivisors(arr: seq<int>, i: nat, j: nat, d: nat)
    requires i + j < |arr|
    requires forall k :: j < k <= i + j ==> arr[k] != 0
    ensures Divides(d, Abs(Cell(arr, i, j))) <==> DividesAll(d, Magnitudes(arr)[j..j + i + 1])
  {
    CellMagnitude(arr, i, j);
    NaturalDivisors(Magnitudes(arr), i, j, d);
  }

  /** A zero anywhere but in front spoils a run: gcd_couple takes the divisor of x and 0 to be 1. */
  lemma ZeroSpoils(arr: seq<int>, i: nat, j: nat, k: nat)
    requires i + j < |arr| && j < k <= i + j && arr[k] == 0
    ensures Abs(Cell(arr, i, j)) == 1
  {
    CellMagnitude(arr, i, j);
    ZeroSpoilsNaturals(Magnitudes(arr), i, j, k);
  }

  /**
   The magnitude of the answer is the greatest common divisor of the numbers exactly when no number but the
   first is zero, or when the numbers have no common divisor but 1 anyway.
   */
  lemma AnswerIsGcd(arr: seq<int>)
    requires |arr| >= 1
    ensures IsGcd(Abs(Cell(arr, |arr| - 1, 0)), Magnitudes(arr)) <==>
            (forall k :: 0 < k < |arr| ==> arr[k] != 0) || IsGcd(1, Magnitudes(arr))
  {
    var g, s := Abs(Cell(arr, |arr| - 1, 0)), Magnitudes(arr);
    if k :| 0 < k < |arr| && arr[k] == 0 {
      ZeroSpoils(arr, |arr| - 1, 0, k);
    } else {
      assert s[0..|arr|] == s;
      forall d: nat ensures Divides(d, g) <==> DividesAll(d, s) {
        CellDivisors(arr, |arr| - 1, 0, d);
      }
    }
  }

  /** The sign of a cell, which it has from one of the numbers of its run. */
  ghost predicate Negative(arr: seq<int>, i: nat, j: nat)
    requires i + j < |arr|
    decreases i
  {
    if i == 0 then arr[j] < 0 else
    var a, b := Abs(Cell(arr, i - 1, j)), Abs(Cell(arr, i - 1, j + 1));
    b != 0 && if Steps(a, b) % 2 == 0 then Negative(arr, i - 1, j + 1) else Negative(arr, i - 1, j)
  }

  lemma {:induction false} SignOfCell(arr: seq<int>, i: nat, j: nat)
    requires i + j < |arr|
    ensures Cell(arr, i, j) < 0 <==> Negative(arr, i, j)
    ensures (forall k :: j <= k <= i + j ==> arr[k] >= 0) ==> Cell(arr, i, j) >= 0
    ensures (forall k :: j <= k <= i + j ==> arr[k] < 0) ==> Cell(arr, i, j) < 0
    decreases i
  {
    if i > 0 {
      SignOfCell(arr, i - 1, j);
      SignOfCell(arr, i - 1, j + 1);
      SignOfCouple(Cell(arr, i - 1, j), Cell(arr, i - 1, j + 1));
    }
  }

  /** The answer is negative exactly by that sign, never if no number is, and always if all are. */
  lemma AnswerIsNegative(arr: seq<int>)
    requires |arr| >= 1
    ensures Cell(arr, |arr| - 1, 0) < 0 <==> Negative(arr, |arr| - 1, 0)
    ensures (forall k :: 0 <= k < |arr| ==> arr[k] >= 0) ==> Cell(arr, |arr| - 1, 0) >= 0
    ensures (forall k :: 0 <= k < |arr| ==> arr[k] < 0) ==> Cell(arr, |arr| - 1, 0) < 0
  {
    SignOfCell(arr, |arr| - 1, 0);
  }

  /** Of 4 and 0 the shell says 1, of 4 and -2 it says -2. */
  lemma FourAndZero()
    ensures Cell([4, 0], 1, 0) == 1 && IsGcd(4, [4, 0])
    ensures Cell([4, -2], 1, 0) == -2
  {
    assert CMod(4, -2) == 0;
    forall d: nat ensures Divides(d, 4) <==> DividesAll(d, [4, 0]) {
      DividesZero(d);
      assert [4, 0][0] == 4;
    }
  }
}
