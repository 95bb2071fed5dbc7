/**
 Printing and parsing decimal numbers, as the shell's utilities do it: digits come out least
 significant first, the string is reversed in place, and parsing sums weighted digits from the right.
 */
module Decimal {
  import opened CTypes

  function DigitChar(d: int): (c: char)
    requires -10 < d < 10
    ensures c as int - '0' as int == d
  {
    ('0' as int + d) as char
  }

  /** The digits of a number, least significant first; a negative one ends with its first remainder. */
  function Digits(n: int): (s: string)
    ensures |s| > 0
  {
    if n < 10 then [DigitChar(CMod(n, 10))] else [DigitChar(n % 10)] + Digits(n / 10)
  }

  function Reversed(s: string): (r: string)
    ensures |r| == |s|
    ensures forall i :: 0 <= i < |s| ==> r[i] == s[|s| - 1 - i]
  {
    seq(|s|, i requires 0 <= i < |s| => s[|s| - 1 - i])
  }

  /** What the printer makes of any number; the negation of the least int is that int again. */
  function Printed(n: int): string {
    if n < 0 then "-" + Reversed(Digits(Wrap(-n))) else Reversed(Digits(n))
  }

  /** The positional value of any string; every character counts as its distance from '0'. */
  function Value(s: string): int {
    if s == [] then 0 else 10 * Value(s[..|s| - 1]) + (s[|s| - 1] as int - '0' as int)
  }

  /** What the parser makes of any string. */
  function Parse(s: string): int {
    Wrap(Value(s))
  }

  function Pow10(k: nat): (p: nat)
    ensures p > 0
  {
    if k == 0 then 1 else 10 * Pow10(k - 1)
  }

  // ---------------------------------------------------------------------------------------------
  // The functions of util.c

  lemma DigitsStep(n: int)
    ensures CDiv(n, 10) <= 0 ==> Digits(n) == [DigitChar(CMod(n, 10))]
    ensures CDiv(n, 10) > 0 ==> n >= 10 && CDiv(n, 10) < n
    ensures CDiv(n, 10) > 0 ==> Digits(n) == [DigitChar(CMod(n, 10))] + Digits(CDiv(n, 10))
  {
  }

  lemma TenDigitsSuffice(n: int)
    requires n <= INT_MAX
    ensures n < Pow10(10)
  {
    assert Pow10(5) == 100000;
    assert Pow10(10) == 100000 * Pow10(5);
  }

  lemma {:induction false} DigitCount(n: int, k: nat)
    requires k > 0 && n < Pow10(k)
    ensures |Digits(n)| <= k
    decreases k
  {
    if n >= 10 {
      DigitCount(n / 10, k - 1);
    }
  }

  /** Digits and sign from the right, then the terminator; returns the place of the terminator. */
  method IntToAscii(n: int, str: array<char>) returns (len: nat)
    requires IsInt(n) && str.Length >= 50
    modifies str
    ensures 0 < len < 50 && str[len] == '\0'
    ensures str[..len] == if n < 0 then Digits(Wrap(-n)) + "-" else Digits(n)
  {
    hide Pow10, Digits, DigitChar, CDiv, CMod;
    var m := if n < 0 then Wrap(-n) else n;
    ghost var all := Digits(m);
    TenDigitsSuffice(m);
    DigitCount(m, 10);
    var i := 0;
    while true
      invariant 0 <= i && i + |Digits(m)| == |all| <= 10
      invariant str[..i] + Digits(m) == all
      decreases m
    {
      DigitsStep(m);
      str[i] := DigitChar(CMod(m, 10));
      i := i + 1;
      m := CDiv(m, 10);
      if m <= 0 {
        break;
      }
    }
    if n < 0 {
      str[i] := '-';
      i := i + 1;
    }
    str[i] := '\0';
    len := i;
  }

  /** The characters of a C string: those before its terminator. */
  ghost predicate Terminated(str: array<char>, len: nat)
    reads str
  {
    len < str.Length && len < 0xffff && str[len] == '\0' && forall i :: 0 <= i < len ==> str[i] != '\0'
  }

  method StrLength(str: array<char>, ghost len: nat) returns (n: nat)
    requires Terminated(str, len)
    ensures n == len
  {
    var i := 0;
    while str[i] != '\0'
      invariant 0 <= i <= len
      decreases len - i
    {
      i := i + 1;
    }
    n := i;
  }

  /** The reversal loop: it turns round half the string, and the middle one of an odd number with itself. */
  method ReverseInPlace(ch: array<char>, len: nat)
    requires len <= ch.Length
    modifies ch
    ensures ch[..len] == Reversed(old(ch[..len]))
    ensures ch[len..] == old(ch[len..])
  {
    var i, j := 0, len - 1;
    while i < len / 2 + len % 2
      invariant 0 <= i <= len / 2 + len % 2 && j == len - 1 - i
      invariant forall k :: 0 <= k < len ==>
        ch[k] == if k < i || k > j then old(ch[len - 1 - k]) else old(ch[k])
      invariant forall k :: len <= k < ch.Length ==> ch[k] == old(ch[k])
    {
      var tmp := ch[i];
      ch[i] := ch[j];
      ch[j] := tmp;
      i := i + 1;
      j := j - 1;
    }
  }

  lemma {:induction false} DigitsAreDigits(n: int)
    ensures forall i :: 0 <= i < |Digits(n)| ==> (n >= 0 ==> '0' <= Digits(n)[i]) && '\0' < Digits(n)[i] <= '9'
  {
    if n >= 10 {
      DigitsAreDigits(n / 10);
    }
  }

  lemma NoTerminator(n: int)
    ensures n >= 0 ==> '\0' !in Digits(n)
    ensures n < 0 ==> '\0' !in Digits(Wrap(-n)) + "-"
  {
    DigitsAreDigits(if n < 0 then Wrap(-n) else n);
  }

  lemma ReversedSign(s: string)
    ensures Reversed(s + "-") == "-" + Reversed(s)
  {
  }

  method IntToString(n: int) returns (ch: array<char>, ghost len: nat)
    requires IsInt(n)
    ensures fresh(ch) && Terminated(ch, len) && ch[..len] == Printed(n)
  {
    ch := new char[50];
    len := IntToAscii(n, ch);
    NoTerminator(n);
    ghost var was := ch[..len];
    assert forall i :: 0 <= i < len ==> ch[i] == was[i];
    var length := StrLength(ch, len);
    ReverseInPlace(ch, length);
    assert ch[len] == ch[len..][0];
    assert forall i :: 0 <= i < len ==> ch[i] == ch[..len][i];
    if n < 0 {
      ReversedSign(Digits(Wrap(-n)));
    }
  }

  lemma Distribute(w: int, v: int, d: int)
    ensures w * (10 * v + d) == d * w + 10 * w * v
  {
  }

  lemma WeightedDigit(s: string, sum: int, weight: int)
    requires s != []
    ensures var k := |s| - 1;
            sum + weight * Value(s) == sum + (s[k] as int - '0' as int) * weight + 10 * weight * Value(s[..k])
  {
    var v, d := Value(s[..|s| - 1]), s[|s| - 1] as int - '0' as int;
    assert Value(s) == 10 * v + d;
    Distribute(weight, v, d);
  }

  /** Sum and weight wrap around in every step, which amounts to wrapping the value once. */
  method StrToInt(ch: array<char>, ghost len: nat) returns (n: int)
    requires Terminated(ch, len)
    ensures n == Parse(ch[..len])
  {
    hide Wrap;
    n := 0;
    var p := 1;
    ghost var sum, weight := 0, 1;
    var length: int := StrLength(ch, len);
    var i := length - 1;
    while i >= 0
      invariant -1 <= i < length
      invariant n == Wrap(sum) && p == Wrap(weight)
      invariant sum + weight * Value(ch[..i + 1]) == Value(ch[..len])
    {
      var d := ch[i] as int - '0' as int;
      WeightedDigit(ch[..i + 1], sum, weight);
      WrapProduct(d, weight);
      WrapSum(sum, d * weight);
      WrapProduct(10, weight);
      n := Wrap(n + Wrap(d * p));
      p := Wrap(10 * p);
      sum, weight := sum + d * weight, 10 * weight;
      assert ch[..i + 1][..i] == ch[..i];
      i := i - 1;
    }
    assert ch[..0] == [];
  }

  // ---------------------------------------------------------------------------------------------
  // Round trips

  lemma ReversedCons(c: char, s: string)
    ensures Reversed([c] + s) == Reversed(s) + [c]
  {
  }

  /** Parsing undoes printing on natural numbers. */
  lemma {:induction false} ValueOfDigits(n: nat)
    ensures Value(Reversed(Digits(n))) == n
  {
    if n < 10 {
      assert Reversed(Digits(n)) == [DigitChar(n)];
      assert [DigitChar(n)][..0] == [];
    } else {
      ValueOfDigits(n / 10);
      var s, c := Reversed(Digits(n / 10)), DigitChar(n % 10);
      ReversedCons(c, Digits(n / 10));
      assert (s + [c])[..|s|] == s;
    }
  }

  lemma {:induction false} ValuePrefixed(c: char, s: string)
    ensures Value([c] + s) == (c as int - '0' as int) * Pow10(|s|) + Value(s)
    decreases |s|
  {
    var t := [c] + s;
    if s == [] {
      assert t[..0] == [];
    } else {
      var k := |s| - 1;
      ValuePrefixed(c, s[..k]);
      assert t[..|t| - 1] == [c] + s[..k];
      var w, p := c as int - '0' as int, Pow10(k);
      assert 10 * (w * p) == w * (10 * p);
    }
  }

  lemma {:induction false} DigitsBound(n: nat)
    ensures n < Pow10(|Digits(n)|)
  {
    if n >= 10 {
      DigitsBound(n / 10);
    }
  }

  lemma {:induction false} PowMonotone(j: nat, k: nat)
    requires j <= k
    ensures Pow10(j) <= Pow10(k)
    decreases k
  {
    if j < k {
      PowMonotone(j, k - 1);
    }
  }

  lemma PowOfDigits(n: nat)
    requires n <= INT_MAX
    ensures Pow10(|Digits(n)|) <= 1_000_000_000 || Pow10(|Digits(n)|) == 10_000_000_000
  {
    TenDigitsSuffice(n);
    DigitCount(n, 10);
    assert Pow10(4) == 10_000;
    assert Pow10(9) == 100_000 * Pow10(4);
    if |Digits(n)| < 10 {
      PowMonotone(|Digits(n)|, 9);
    }
  }

  /** A minus sign is parsed as a digit of weight -3. */
  lemma ValueOfNegative(n: int)
    requires INT_MIN < n < 0
    ensures Value(Printed(n)) == -n - 3 * Pow10(|Digits(-n)|)
  {
    hide Digits, Value, Pow10, Wrap;
    ValueOfDigits(-n);
    ValuePrefixed('-', Reversed(Digits(-n)));
    assert Wrap(-n) == -n;
  }

  /** The least int is printed as a sign and the character eight places before '0'. */
  lemma LeastIsPrinted()
    ensures Printed(INT_MIN) == "-(" && Value("-(") == -38
  {
    assert Digits(INT_MIN) == ['('];
    assert "-("[..1] == "-" && "-"[..0] == "";
  }

  /** The one negative number that comes back, since the sum wraps around six times. */
  const LUCKY := -2115098112

  lemma OneComesBack(n: int, p: nat)
    requires INT_MIN < n < 0 && -n < p
    requires p <= 1_000_000_000 || p == 10_000_000_000
    ensures Wrap(-n - 3 * p) == n <==> n == LUCKY
  {
    hide Wrap;
    WrapIs(-n - 3 * p, n);
  }

  /** Parsing undoes printing exactly on the natural numbers and on that one. */
  lemma PrintThenParse(n: int)
    requires IsInt(n)
    ensures Parse(Printed(n)) == n <==> n >= 0 || n == LUCKY
  {
    hide Wrap, Digits, Value, Pow10;
    if n >= 0 {
      ValueOfDigits(n);
    } else if n == INT_MIN {
      LeastIsPrinted();
    } else {
      ValueOfNegative(n);
      DigitsBound(-n);
      PowOfDigits(-n);
      OneComesBack(n, Pow10(|Digits(-n)|));
    }
  }

  /** Decimal notation as people write it. */
  ghost predicate Canonical(s: string) {
    && s != [] && (forall i :: 0 <= i < |s| ==> '0' <= s[i] <= '9')
    && (s[0] == '0' ==> |s| == 1)
  }

  lemma {:induction false} ValueAtLeastOne(s: string)
    requires Canonical(s)
    ensures Value(s) >= 0 && (s[0] != '0' ==> Value(s) > 0)
    decreases |s|
  {
    if |s| == 1 {
      assert s[..0] == [];
    } else {
      ValueAtLeastOne(s[..|s| - 1]);
    }
  }

  lemma {:induction false} PrintValue(s: string)
    requires Canonical(s)
    ensures Value(s) >= 0 && Reversed(Digits(Value(s))) == s
    decreases |s|
  {
    ValueAtLeastOne(s);
    var k := |s| - 1;
    var front, c := s[..k], s[k];
    var d := c as int - '0' as int;
    assert s == front + [c] && DigitChar(d) == c;
    if k == 0 {
      assert Value(front) == 0;
    } else {
      ValueAtLeastOne(front);
      PrintValue(front);
      assert Value(s) / 10 == Value(front) && Value(s) % 10 == d;
      ReversedCons(c, Digits(Value(front)));
    }
  }

  lemma {:induction false} PrintedIsCanonical(n: nat)
    ensures Canonical(Printed(n)) && (n > 0 ==> Printed(n)[0] != '0')
  {
    if n >= 10 {
      PrintedIsCanonical(n / 10);
      ReversedCons(DigitChar(n % 10), Digits(n / 10));
    }
  }

  /** Printing undoes parsing exactly on the numerals without a leading zero up to the greatest int ... */
  lemma CanonicalExactly(s: string)
    ensures Printed(Parse(s)) == s <==> (Canonical(s) && Value(s) <= INT_MAX) || s == Printed(LUCKY)
  {
    PrintThenParse(LUCKY);
    if Canonical(s) && Value(s) <= INT_MAX {
      PrintValue(s);
    }
    if Printed(Parse(s)) == s {
      PrintThenParse(Parse(s));
      if Parse(s) >= 0 {
        PrintedIsCanonical(Parse(s));
        ValueOfDigits(Parse(s));
      }
    }
  }

  /** ... so among the numerals on exactly those that fit. */
  lemma ParseThenPrint(s: string)
    requires Canonical(s)
    ensures Printed(Parse(s)) == s <==> Value(s) <= INT_MAX
  {
    CanonicalExactly(s);
  }
}
