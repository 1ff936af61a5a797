/**
 The NUMERIC type's binary format: base-10000 digits with a weight, a sign and a display scale.

 A decimal is a sign, an unscaled value and a scale, printed and parsed exactly.
 */
module Numeric {
  import opened Common
  import opened Arithmetic
  import opened Digits
  import opened Text

  datatype Decimal = Decimal(negative: bool, mantissa: nat, scale: nat)

  datatype Value = Number(d: Decimal) | NaN

  datatype Error = UnexpectedPayload | WrongSizeBinary(size: nat)

  // ---- decimal text ---------------------------------------------------------

  function PaddedDigits(d: Decimal): (s: string)
    ensures |s| > d.scale && AllDigits(s, 10) && Val(s, 10) == d.mantissa
  {
    ValPrint(d.mantissa, 10);
    ValPadLeft(Print(d.mantissa, 10), d.scale + 1, 10);
    PadLeft(Print(d.mantissa, 10), d.scale + 1)
  }

  function IntPart(d: Decimal): (s: string)
    ensures |s| > 0 && AllDigits(s, 10)
  {
    PaddedDigits(d)[..|PaddedDigits(d)| - d.scale]
  }

  function FracPart(d: Decimal): (s: string)
    ensures |s| == d.scale && AllDigits(s, 10)
  {
    PaddedDigits(d)[|PaddedDigits(d)| - d.scale..]
  }

  /** `Decimal::to_string` of the absolute value. */
  function AbsText(d: Decimal): string {
    if d.scale == 0 then IntPart(d) else IntPart(d) + "." + FracPart(d)
  }

  predicate IsNegative(s: string) {
    |s| > 0 && s[0] == '-'
  }

  function Unsigned(s: string): string {
    if |s| > 0 && (s[0] == '-' || s[0] == '+') then s[1..] else s
  }

  function Sign(negative: bool): string {
    if negative then "-" else ""
  }

  /** `Decimal::from_str`, exactly. */
  function ParseDecimal(s: string): Option<Decimal> {
    match ParseUnsigned(Unsigned(s))
    case Some((m, scale)) => Some(Decimal(IsNegative(s), m, scale))
    case None => None
  }

  function ParseUnsigned(s: string): Option<(nat, nat)> {
    var parts := Split(s, '.');
    if |parts| == 1 then
      if parts[0] != [] && AllDigits(parts[0], 10) then Some((Val(parts[0], 10), 0)) else None
    else if |parts| == 2 && AllDigits(parts[0], 10) && AllDigits(parts[1], 10) && (parts[0] != [] || parts[1] != []) then
      ValConcat(parts[0], parts[1], 10);
      Some((Val(parts[0] + parts[1], 10), |parts[1]|))
    else None
  }

  lemma SignedText(negative: bool, s: string)
    requires s != [] && IsDigit(s[0], 10)
    ensures Unsigned(Sign(negative) + s) == s && IsNegative(Sign(negative) + s) == negative
  {
    if !negative { assert "" + s == s; }
  }

  lemma ParseInteger(negative: bool, i: string)
    requires AllDigits(i, 10) && i != []
    ensures ParseDecimal(Sign(negative) + i) == Some(Decimal(negative, Val(i, 10), 0))
  {
    SignedText(negative, i);
    DigitsFree(i, '.');
    SplitJoin([i], '.');
  }

  lemma ParseMixed(negative: bool, i: string, f: string)
    requires AllDigits(i, 10) && i != [] && AllDigits(f, 10)
    ensures AllDigits(i + f, 10)
    ensures ParseDecimal(Sign(negative) + (i + "." + f)) == Some(Decimal(negative, Val(i + f, 10), |f|))
  {
    hide Val, Pow, Split, Unsigned, IsNegative, Sign;
    SignedText(negative, i + "." + f);
    DigitsFree(i, '.');
    DigitsFree(f, '.');
    SplitJoin([i, f], '.');
    assert Join([i, f], '.') == i + "." + f by { assert [i, f][1..] == [f]; }
    ValConcat(i, f, 10);
  }

  // ---- base-10000 digits -------------------------------------------------------

  predicate Groups(ds: seq<int>) {
    forall i :: 0 <= i < |ds| ==> 0 <= ds[i] < 10000
  }

  /** The number the digits spell. */
  function Number10000(ds: seq<int>): nat
    requires Groups(ds)
  {
    if ds == [] then 0 else Number10000(ds[..|ds| - 1]) * 10000 + ds[|ds| - 1]
  }

  lemma Pow4(k: nat)
    ensures Pow(10, 4 * k + 4) == Pow(10, 4 * k) * 10000
  {
    PowAdd(10, 4 * k, 4);
    assert Pow(10, 4) == Pow(10, 3) * 10 && Pow(10, 3) == Pow(10, 2) * 10;
    assert Pow(10, 2) == Pow(10, 1) * 10 && Pow(10, 1) == Pow(10, 0) * 10;
  }

  lemma {:induction false} NumberConcat(xs: seq<int>, ys: seq<int>)
    requires Groups(xs) && Groups(ys)
    ensures Groups(xs + ys)
    ensures Number10000(xs + ys) == Number10000(xs) * Pow(10, 4 * |ys|) + Number10000(ys)
  {
    if ys == [] {
      assert xs + ys == xs;
    } else {
      var n := |ys| - 1;
      NumberConcat(xs, ys[..n]);
      assert (xs + ys)[..|xs| + n] == xs + ys[..n];
      Pow4(n);
      MulDistrib(Number10000(xs) * Pow(10, 4 * n), Number10000(ys[..n]), 10000);
      MulAssoc(Number10000(xs), Pow(10, 4 * n), 10000);
    }
  }

  lemma {:induction false} NumberBound(ds: seq<int>)
    requires Groups(ds)
    ensures Number10000(ds) < Pow(10, 4 * |ds|)
  {
    if ds != [] {
      var n := |ds| - 1;
      NumberBound(ds[..n]);
      Pow4(n);
    }
  }

  /** The unscaled value `n * 10^e`, cut off towards zero. */
  function Scaled(n: nat, e: int): nat {
    if e >= 0 then n * Pow(10, e)
    else
      PowPositive(10, -e);
      n / Pow(10, -e)
  }

  // ---- encoding ------------------------------------------------------------------

  /** Groups of four from the right, the first one possibly shorter. */
  function IntGroups(s: string): (ds: seq<int>)
    requires AllDigits(s, 10)
    decreases |s|
  {
    if s == [] then [] else if |s| <= 4 then [Val(s, 10)] else IntGroups(s[..|s| - 4]) + [Val(s[|s| - 4..], 10)]
  }

  /** Groups of four from the left, the last one padded with zeros. */
  function FracGroups(s: string): (ds: seq<int>)
    requires AllDigits(s, 10)
    decreases |s|
  {
    if s == [] then []
    else if |s| <= 4 then
      ValZeros(4 - |s|, 10);
      [Val(s + Zeros(4 - |s|), 10)]
    else [Val(s[..4], 10)] + FracGroups(s[4..])
  }

  function TrimZeros(ds: seq<int>): seq<int> {
    if |ds| > 1 && ds[|ds| - 1] == 0 then TrimZeros(ds[..|ds| - 1]) else ds
  }

  function IntDigits(d: Decimal): seq<int> {
    if IntPart(d) == "0" then [] else IntGroups(IntPart(d))
  }

  function Weight(d: Decimal): int {
    |IntDigits(d)| - 1
  }

  function AllGroups(d: Decimal): seq<int> {
    var ds := IntDigits(d) + FracGroups(FracPart(d));
    if d.scale == 0 then TrimZeros(ds) else ds
  }

  lemma GroupBound(s: string)
    requires AllDigits(s, 10) && |s| <= 4
    ensures Val(s, 10) < 10000
  {
    ValBound(s, 10);
    PowMonotone(10, |s|, 4);
    Pow4(0);
  }

  lemma {:induction false} PowMonotone(b: nat, m: nat, n: nat)
    requires b > 0 && m <= n
    ensures Pow(b, m) <= Pow(b, n)
  {
    if m < n {
      PowMonotone(b, m, n - 1);
      PowPositive(b, n - 1);
      MulLe(1, b, Pow(b, n - 1));
    }
  }

  lemma SingleGroup(g: int)
    requires 0 <= g < 10000
    ensures Number10000([g]) == g
  {
    assert [g][..0] == [];
  }

  lemma {:induction false} IntGroupsValue(s: string)
    requires AllDigits(s, 10)
    ensures Groups(IntGroups(s)) && Number10000(IntGroups(s)) == Val(s, 10)
    ensures s != [] ==> IntGroups(s) != []
    decreases |s|
  {
    if |s| > 4 {
      var front, last := s[..|s| - 4], s[|s| - 4..];
      IntGroupsValue(front);
      GroupBound(last);
      assert s == front + last;
      AppendGroup(IntGroups(front), front, last);
    } else if s != [] {
      GroupBound(s);
      SingleGroup(Val(s, 10));
    }
  }

  /** Four more decimal digits are one more group. */
  lemma AppendGroup(ds: seq<int>, front: string, last: string)
    requires AllDigits(front, 10) && AllDigits(last, 10) && |last| == 4 && 0 <= Val(last, 10) < 10000
    requires Groups(ds) && Number10000(ds) == Val(front, 10)
    ensures AllDigits(front + last, 10) && Groups(ds + [Val(last, 10)])
    ensures Number10000(ds + [Val(last, 10)]) == Val(front + last, 10)
  {
    var more := ds + [Val(last, 10)];
    assert more[..|ds|] == ds;
    Pow4(0);
    hide Pow, Val;
    ValConcat(front, last, 10);
  }

  /** Scaling the sum of a shifted head and a tail. */
  lemma ScaleSum(h: nat, v: nat, m: nat, pad: nat)
    ensures (h * Pow(10, m) + v) * Pow(10, pad) == h * Pow(10, m + pad) + v * Pow(10, pad)
  {
    PowAdd(10, m, pad);
    MulDistrib(h * Pow(10, m), v, Pow(10, pad));
    MulAssoc(h, Pow(10, m), Pow(10, pad));
  }

  lemma LastFracGroup(s: string)
    requires AllDigits(s, 10) && 0 < |s| <= 4
    ensures Groups(FracGroups(s)) && |FracGroups(s)| == 1
    ensures Number10000(FracGroups(s)) == Val(s, 10) * Pow(10, 4 - |s|)
  {
    var z := Zeros(4 - |s|);
    ValZeros(4 - |s|, 10);
    ValConcat(s, z, 10);
    GroupBound(s + z);
    SingleGroup(Val(s + z, 10));
  }

  lemma NextFracGroup(s: string, gs: seq<int>, pad: nat)
    requires AllDigits(s, 10) && |s| > 4 && Groups(gs) && 4 * |gs| == |s| - 4 + pad
    requires Number10000(gs) == Val(s[4..], 10) * Pow(10, pad)
    ensures 0 <= Val(s[..4], 10) < 10000 && Groups([Val(s[..4], 10)] + gs)
    ensures Number10000([Val(s[..4], 10)] + gs) == Val(s, 10) * Pow(10, pad)
  {
    hide Val, Pow, Number10000;
    var head, tail := s[..4], s[4..];
    GroupBound(head);
    ValConcat(head, tail, 10);
    assert s == head + tail;
    NumberConcat([Val(head, 10)], gs);
    SingleGroup(Val(head, 10));
    ScaleSum(Val(head, 10), Val(tail, 10), |tail|, pad);
  }

  lemma {:induction false} FracGroupsValue(s: string)
    requires AllDigits(s, 10)
    ensures Groups(FracGroups(s)) && |s| <= 4 * |FracGroups(s)| < |s| + 4
    ensures Number10000(FracGroups(s)) == Val(s, 10) * Pow(10, 4 * |FracGroups(s)| - |s|)
    decreases |s|
  {
    if s == [] {
    } else if |s| <= 4 {
      LastFracGroup(s);
    } else {
      FracGroupsValue(s[4..]);
      var gs := FracGroups(s[4..]);
      NextFracGroup(s, gs, 4 * |gs| - |s[4..]|);
    }
  }

  lemma {:induction false} TrimZerosValue(ds: seq<int>)
    requires Groups(ds)
    ensures var t := TrimZeros(ds);
            && Groups(t) && |t| <= |ds| && (ds != [] ==> t != [])
            && Number10000(ds) == Number10000(t) * Pow(10, 4 * (|ds| - |t|))
  {
    if |ds| > 1 && ds[|ds| - 1] == 0 {
      var front := ds[..|ds| - 1];
      TrimZerosValue(front);
      var k := |front| - |TrimZeros(front)|;
      Pow4(k);
      MulAssoc(Number10000(TrimZeros(front)), Pow(10, 4 * k), 10000);
    }
  }

  /** The exponent of ten that turns the digits' number into the decimal's unscaled value. */
  function Exponent(weight: int, count: nat, scale: nat): int {
    4 * (weight - count + 1) + scale
  }

  /** The encoder's digits denote the decimal exactly: no digit is lost to grouping, padding or trimming. */
  lemma EncodeDenotes(d: Decimal)
    requires d.mantissa != 0
    ensures var ds := AllGroups(d);
            var e := Exponent(Weight(d), |ds|, d.scale);
            && Groups(ds) && ds != []
            && (e >= 0 ==> Number10000(ds) * Pow(10, e) == d.mantissa)
            && (e <= 0 ==> Number10000(ds) == d.mantissa * Pow(10, -e))
  {
    PowNone();
    hide Pow, Number10000, AllGroups, Weight;
    if d.scale == 0 {
      IntegerDenotes(d);
    } else {
      FractionDenotes(d);
    }
  }

  lemma PowNone()
    ensures Pow(10, 0) == 1
  {
  }

  lemma SplitMantissa(d: Decimal)
    ensures d.mantissa == Val(IntPart(d), 10) * Pow(10, d.scale) + Val(FracPart(d), 10)
  {
    assert PaddedDigits(d) == IntPart(d) + FracPart(d);
    ValConcat(IntPart(d), FracPart(d), 10);
  }

  lemma IntegerDenotes(d: Decimal)
    requires d.mantissa != 0 && d.scale == 0
    ensures var ds := AllGroups(d);
            var e := Exponent(Weight(d), |ds|, 0);
            Groups(ds) && ds != [] && e >= 0 && Number10000(ds) * Pow(10, e) == d.mantissa
  {
    SplitMantissa(d);
    IntDigitsValue(d);
    var ds := IntDigits(d);
    assert FracPart(d) == [] && ds + FracGroups([]) == ds;
    TrimZerosValue(ds);
  }

  lemma FractionDenotes(d: Decimal)
    requires d.mantissa != 0 && d.scale > 0
    ensures var ds := AllGroups(d);
            var e := Exponent(Weight(d), |ds|, d.scale);
            Groups(ds) && ds != [] && e <= 0 && Number10000(ds) == d.mantissa * Pow(10, -e)
  {
    hide Val, Pow, Number10000;
    SplitMantissa(d);
    IntDigitsValue(d);
    var i, f := Val(IntPart(d), 10), Val(FracPart(d), 10);
    FracGroupsValue(FracPart(d));
    var fs := FracGroups(FracPart(d));
    NumberConcat(IntDigits(d), fs);
    ScaleSum(i, f, d.scale, 4 * |fs| - d.scale);
  }

  lemma IntDigitsValue(d: Decimal)
    ensures Groups(IntDigits(d)) && Number10000(IntDigits(d)) == Val(IntPart(d), 10)
    ensures IntDigits(d) == [] ==> Val(IntPart(d), 10) == 0
  {
    IntGroupsValue(IntPart(d));
    if IntPart(d) == "0" {
      ValZeros(1, 10);
      assert Zeros(1) == "0";
    }
  }
}
