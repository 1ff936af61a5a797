/** Positional number text: what `{}`, `{:0w}`, `{:X}` print and what `from_str_radix` reads. */
module Digits {
  import opened Common
  import opened Arithmetic
  import opened Text

  type radix = b: int | 2 <= b <= 16 witness 10

  function Pow(b: nat, e: nat): nat {
    if e == 0 then 1 else Pow(b, e - 1) * b
  }

  lemma {:induction false} PowPositive(b: nat, e: nat)
    requires b > 0
    ensures Pow(b, e) > 0
  {
    if e > 0 { PowPositive(b, e - 1); }
  }

  lemma {:induction false} PowAdd(b: nat, m: nat, n: nat)
    ensures Pow(b, m + n) == Pow(b, m) * Pow(b, n)
  {
    if n > 0 {
      PowAdd(b, m, n - 1);
      assert Pow(b, m + n) == Pow(b, m + n - 1) * b;
      MulAssoc(Pow(b, m), Pow(b, n - 1), b);
    }
  }

  function DigitChar(d: nat): char
    requires d < 16
  {
    if d < 10 then '0' + d as char else 'A' + (d - 10) as char
  }

  predicate IsDigit(c: char, b: radix) {
    DigitValue(c) < b
  }

  /** The value of a digit character in radix up to 16; 99 for anything else. */
  function DigitValue(c: char): nat {
    if '0' <= c <= '9' then (c - '0') as int
    else if 'A' <= c <= 'F' then (c - 'A') as int + 10
    else if 'a' <= c <= 'f' then (c - 'a') as int + 10
    else 99
  }

  lemma DigitCharValue(d: nat)
    requires d < 16
    ensures DigitValue(DigitChar(d)) == d
  {
  }

  predicate AllDigits(s: string, b: radix) {
    forall i :: 0 <= i < |s| ==> IsDigit(s[i], b)
  }

  function Val(s: string, b: radix): nat
    requires AllDigits(s, b)
  {
    if s == [] then 0 else Val(s[..|s| - 1], b) * b + DigitValue(s[|s| - 1])
  }

  function Print(n: nat, b: radix): (s: string)
    ensures AllDigits(s, b) && |s| > 0
  {
    if n < b then [DigitChar(n)] else Print(n / b, b) + [DigitChar(n % b)]
  }

  function Zeros(k: nat): (s: string)
    ensures |s| == k
    ensures forall i :: 0 <= i < k ==> s[i] == '0'
  {
    seq(k, _ => '0')
  }

  function PadLeft(s: string, w: nat): string {
    if |s| >= w then s else Zeros(w - |s|) + s
  }

  lemma ValSnoc(s: string, d: nat, b: radix)
    requires AllDigits(s, b) && d < b
    ensures AllDigits(s + [DigitChar(d)], b)
    ensures Val(s + [DigitChar(d)], b) == Val(s, b) * b + d
  {
    DigitCharValue(d);
    var t := s + [DigitChar(d)];
    assert t[..|t| - 1] == s;
  }

  lemma {:induction false} ValPrint(n: nat, b: radix)
    ensures Val(Print(n, b), b) == n
  {
    if n < b {
      ValSnoc([], n, b);
      assert [] + [DigitChar(n)] == [DigitChar(n)];
    } else {
      var q, r := DivMod(n, b);
      ValPrint(q, b);
      ValSnoc(Print(q, b), r, b);
    }
  }

  /** Quotient and remainder of a number of at least two digits. */
  lemma DivMod(n: nat, b: radix) returns (q: nat, r: nat)
    requires n >= b
    ensures q == n / b && r == n % b && r < b && 0 < q < n && q * b + r == n
  {
    q, r := n / b, n % b;
  }

  lemma {:induction false} ValConcat(s: string, t: string, b: radix)
    requires AllDigits(s, b) && AllDigits(t, b)
    ensures AllDigits(s + t, b)
    ensures Val(s + t, b) == Val(s, b) * Pow(b, |t|) + Val(t, b)
  {
    if t == [] {
      assert s + t == s;
    } else {
      var t', d := t[..|t| - 1], DigitValue(t[|t| - 1]);
      ValConcat(s, t', b);
      assert (s + t)[..|s + t| - 1] == s + t';
      MulDistrib(Val(s, b) * Pow(b, |t'|), Val(t', b), b);
      MulAssoc(Val(s, b), Pow(b, |t'|), b);
    }
  }

  lemma {:induction false} ValZeros(k: nat, b: radix)
    ensures AllDigits(Zeros(k), b) && Val(Zeros(k), b) == 0
  {
    if k > 0 {
      ValZeros(k - 1, b);
      assert Zeros(k)[..k - 1] == Zeros(k - 1);
    }
  }

  lemma {:induction false} ValBound(s: string, b: radix)
    requires AllDigits(s, b)
    ensures Val(s, b) < Pow(b, |s|)
  {
    if s != [] {
      ValBound(s[..|s| - 1], b);
      MulLe(Val(s[..|s| - 1], b), Pow(b, |s| - 1) - 1, b);
      MulDistrib(Pow(b, |s| - 1), -1, b);
    }
  }

  lemma ValPadLeft(s: string, w: nat, b: radix)
    requires AllDigits(s, b)
    ensures AllDigits(PadLeft(s, w), b) && Val(PadLeft(s, w), b) == Val(s, b)
  {
    if |s| < w {
      ValZeros(w - |s|, b);
      ValConcat(Zeros(w - |s|), s, b);
    }
  }

  lemma PowUnfold(b: nat, e: nat)
    ensures Pow(b, 0) == 1 && Pow(b, e + 1) == Pow(b, e) * b
  {
  }

  lemma QuotientBelow(n: nat, p: nat, b: nat)
    requires b > 0 && n < p * b
    ensures n / b < p
  {
    if n / b >= p {
      MulLe(p, n / b, b);
    }
  }

  /** A number below `b^w` prints in at most `w` digits. */
  lemma {:induction false} PrintLength(n: nat, w: nat, b: radix)
    requires w > 0 && n < Pow(b, w)
    ensures |Print(n, b)| <= w
  {
    hide Pow;
    PowUnfold(b, w - 1);
    if n >= b {
      QuotientBelow(n, Pow(b, w - 1), b);
      if w > 1 {
        PrintLength(n / b, w - 1, b);
      }
    }
  }

  /** A canonical number text has no leading zero, except the text "0" itself. */
  predicate Canonical(s: string, b: radix) {
    AllDigits(s, b) && |s| > 0 && (|s| > 1 ==> s[0] != '0')
  }

  lemma {:induction false} PrintCanonical(n: nat, b: radix)
    ensures Canonical(Print(n, b), b)
    ensures n > 0 ==> Print(n, b)[0] != '0'
  {
    if n >= b {
      var q, r := DivMod(n, b);
      PrintCanonical(q, b);
    }
  }

  // ---- Rust's integer parsers --------------------------------------------

  /** `from_str_radix` for a signed type with the given range: optional sign, at least one digit. */
  function ParseSigned(s: string, b: radix, lo: int, hi: int): Option<int> {
    var negative := |s| > 0 && s[0] == '-';
    var digits := if |s| > 0 && (s[0] == '-' || s[0] == '+') then s[1..] else s;
    if digits == [] || !AllDigits(digits, b) then None
    else
      var v: int := if negative then 0 - Val(digits, b) else Val(digits, b);
      if lo <= v <= hi then Some(v) else None
  }

  function PrintSigned(x: int, b: radix): string {
    if x < 0 then "-" + Print(-x, b) else Print(x, b)
  }

  /** Digit text, even with leading zeros, reads as its value. */
  lemma ParseDigits(s: string, b: radix, lo: int, hi: int)
    requires AllDigits(s, b) && |s| > 0
    ensures ParseSigned(s, b, lo, hi) == if lo <= Val(s, b) <= hi then Some(Val(s, b)) else None
  {
    assert IsDigit(s[0], b);
  }

  /** Reading back a printed signed number gives the number, if it is in range. */
  lemma ParsePrintSigned(x: int, b: radix, lo: int, hi: int)
    ensures ParseSigned(PrintSigned(x, b), b, lo, hi) == if lo <= x <= hi then Some(x) else None
  {
    hide Print, Val;
    if x < 0 {
      ValPrint(-x, b);
      assert PrintSigned(x, b)[1..] == Print(-x, b);
    } else {
      ValPrint(x, b);
      ParseDigits(Print(x, b), b, lo, hi);
    }
  }

  // ---- separators -----------------------------------------------------------------

  lemma DigitsFree(s: string, c: char)
    requires AllDigits(s, 10) && !IsDigit(c, 10)
    ensures Free(s, c)
  {
  }

  lemma SignedFree(x: int, c: char)
    requires !IsDigit(c, 10) && c != '-'
    ensures Free(PrintSigned(x, 10), c)
  {
    DigitsFree(Print(if x < 0 then -x else x, 10), c);
  }
}
