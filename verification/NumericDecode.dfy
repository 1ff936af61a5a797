/** Decoding NUMERIC's binary format: the text the decoder rebuilds and the number it denotes. */
module NumericDecode {
  import opened Common
  import opened Arithmetic
  import opened Digits
  import opened Numeric

  /** `{:04}`: the sign, if any, counts towards the width. */
  function Pad4(d: int): string {
    if d < 0 then "-" + PadLeft(Print(-d, 10), 3) else PadLeft(Print(d, 10), 4)
  }

  function FracText(ds: seq<int>): string {
    if ds == [] then "" else FracText(ds[..|ds| - 1]) + Pad4(ds[|ds| - 1])
  }

  /** The first digit as it is, the others padded to four places. */
  function IntText(ds: seq<int>): string {
    if ds == [] then "" else if |ds| == 1 then PrintSigned(ds[0], 10) else IntText(ds[..|ds| - 1]) + Pad4(ds[|ds| - 1])
  }

  /** How many of the `n` digits stand before the decimal point. */
  function IntCount(weight: int, n: nat): (k: nat)
    ensures k <= n
  {
    if weight < 0 then 0 else if weight + 1 < n then weight + 1 else n
  }

  function IntegerText(weight: int, ds: seq<int>): string {
    IntText(ds[..IntCount(weight, |ds|)]) + Zeros(if weight + 1 > |ds| then 4 * (weight + 1 - |ds|) else 0)
  }

  function FractionText(weight: int, ds: seq<int>): string {
    FracText(ds[IntCount(weight, |ds|)..])
  }

  /** Exactly `k` places: cut off or filled with zeros. */
  function Places(s: string, k: nat): (t: string)
    ensures |t| == k
  {
    if |s| >= k then s[..k] else s + Zeros(k - |s|)
  }

  function LeadingZeros(weight: int): nat {
    if weight < 0 then 4 * (-weight - 1) else 0
  }

  function DecimalText(negative: bool, weight: int, dscale: nat, ds: seq<int>): string {
    var i, f := IntegerText(weight, ds), FractionText(weight, ds);
    var whole := if i != "" then i else "0";
    Sign(negative)
    + if dscale == 0 then whole
      else if weight < 0 then
        var zeros := LeadingZeros(weight);
        "0." + Zeros(zeros) + if dscale > zeros then Places(f, dscale - zeros) else ""
      else whole + "." + Places(f, dscale)
  }

  /** The scale of the decoded decimal: the display scale, unless the leading zeros already exceed it. */
  function ResultScale(weight: int, dscale: nat): nat {
    if dscale > 0 && LeadingZeros(weight) > dscale then LeadingZeros(weight) else dscale
  }

  // ---- what the text denotes ---------------------------------------------------------

  lemma Pad4Value(d: int)
    requires 0 <= d < 10000
    ensures AllDigits(Pad4(d), 10) && |Pad4(d)| == 4 && Val(Pad4(d), 10) == d
  {
    ValPrint(d, 10);
    ValPadLeft(Print(d, 10), 4, 10);
    Pow4(0);
    PrintLength(d, 4, 10);
  }

  lemma Append4(s: string, n: nat, d: int)
    requires AllDigits(s, 10) && Val(s, 10) == n && 0 <= d < 10000
    ensures AllDigits(s + Pad4(d), 10) && Val(s + Pad4(d), 10) == n * 10000 + d && |s + Pad4(d)| == |s| + 4
  {
    Pad4Value(d);
    ValConcat(s, Pad4(d), 10);
    Pow4(0);
  }

  lemma {:induction false} FracTextValue(ds: seq<int>)
    requires Groups(ds)
    ensures AllDigits(FracText(ds), 10) && |FracText(ds)| == 4 * |ds| && Val(FracText(ds), 10) == Number10000(ds)
  {
    if ds != [] {
      var front := ds[..|ds| - 1];
      FracTextValue(front);
      Append4(FracText(front), Number10000(front), ds[|ds| - 1]);
    }
  }

  lemma {:induction false} IntTextValue(ds: seq<int>)
    requires Groups(ds)
    ensures AllDigits(IntText(ds), 10) && Val(IntText(ds), 10) == Number10000(ds)
    ensures ds != [] ==> IntText(ds) != []
  {
    if |ds| == 1 {
      ValPrint(ds[0], 10);
      SingleGroup(ds[0]);
      assert ds == [ds[0]];
    } else if |ds| > 1 {
      var front := ds[..|ds| - 1];
      IntTextValue(front);
      Append4(IntText(front), Number10000(front), ds[|ds| - 1]);
    }
  }

  lemma DivideSum(x: nat, v: nat, p: nat)
    requires p > 0
    ensures (x * p + v) / p == x + v / p
  {
    var a, b := v / p, v % p;
    assert v == a * p + b;
    MulDistrib(x, a, p);
    DivideOff(x + a, b, x * p + v, p);
  }

  lemma PowZero(b: nat)
    ensures Pow(b, 0) == 1
  {
  }

  lemma CutValue(head: string, tail: string)
    requires AllDigits(head, 10) && AllDigits(tail, 10)
    ensures AllDigits(head + tail, 10) && Scaled(Val(head + tail, 10), -|tail|) == Val(head, 10)
  {
    hide Val, Pow;
    ValConcat(head, tail, 10);
    ValBound(tail, 10);
    PowPositive(10, |tail|);
    DivideOff(Val(head, 10), Val(tail, 10), Val(head + tail, 10), Pow(10, |tail|));
    if tail == [] {
      assert head + tail == head;
      PowZero(10);
    }
  }

  lemma FillValue(s: string, k: nat)
    requires AllDigits(s, 10)
    ensures AllDigits(s + Zeros(k), 10) && Val(s + Zeros(k), 10) == Scaled(Val(s, 10), k)
  {
    hide Val, Pow;
    ValZeros(k, 10);
    ValConcat(s, Zeros(k), 10);
  }

  lemma DigitsSplit(s: string, k: nat)
    requires AllDigits(s, 10) && k <= |s|
    ensures AllDigits(s[..k], 10) && AllDigits(s[k..], 10) && s == s[..k] + s[k..]
  {
  }

  lemma PlacesCut(s: string, k: nat)
    requires AllDigits(s, 10) && |s| >= k
    ensures AllDigits(Places(s, k), 10) && Val(Places(s, k), 10) == Scaled(Val(s, 10), k - |s|)
  {
    DigitsSplit(s, k);
    hide Val, Pow, Scaled, AllDigits, Zeros;
    CutValue(s[..k], s[k..]);
    assert |s[k..]| == |s| - k;
  }

  lemma PlacesFill(s: string, k: nat)
    requires AllDigits(s, 10) && |s| < k
    ensures AllDigits(Places(s, k), 10) && Val(Places(s, k), 10) == Scaled(Val(s, 10), k - |s|)
  {
    hide Val, Pow, Scaled, AllDigits, Zeros;
    FillValue(s, k - |s|);
  }

  lemma PlacesValue(s: string, k: nat)
    requires AllDigits(s, 10)
    ensures AllDigits(Places(s, k), 10) && Val(Places(s, k), 10) == Scaled(Val(s, 10), k - |s|)
  {
    hide Val, Pow, Scaled, AllDigits, Zeros, Places;
    if |s| >= k {
      PlacesCut(s, k);
    } else {
      PlacesFill(s, k);
    }
  }

  lemma {:induction false} ScaledSmall(n: nat, m: nat, e: int)
    requires n < Pow(10, m) && e <= 0 - m
    ensures Scaled(n, e) == 0
  {
    PowMonotone(10, m, -e);
    PowPositive(10, -e);
    if e < 0 {
      DivideOff(0, n, n, Pow(10, -e));
    } else {
      assert n == 0;
    }
  }

  /** `h` followed by `m` further decimal digits of value `v`, cut or filled to `k` of them. */
  lemma ScaledSum(h: nat, v: nat, m: nat, k: nat)
    requires v < Pow(10, m)
    ensures Scaled(h * Pow(10, m) + v, k - m) == h * Pow(10, k) + Scaled(v, k - m)
  {
    hide Pow;
    if k >= m {
      ScaleSum(h, v, m, k - m);
    } else {
      var p, q := Pow(10, m - k), Pow(10, k);
      PowPositive(10, m - k);
      PowAdd(10, k, m - k);
      MulAssoc(h, q, p);
      DivideSum(h * q, v, p);
    }
  }

  lemma IntegerTextValue(weight: int, ds: seq<int>)
    requires Groups(ds) && ds != []
    ensures var i := IntegerText(weight, ds);
            var k := IntCount(weight, |ds|);
            && AllDigits(i, 10) && (weight >= 0 <==> i != [])
            && Groups(ds[..k]) && Groups(ds[k..])
            && Val(i, 10) == Number10000(ds[..k]) * Pow(10, if weight + 1 > |ds| then 4 * (weight + 1 - |ds|) else 0)
  {
    var k := IntCount(weight, |ds|);
    IntTextValue(ds[..k]);
    var z := if weight + 1 > |ds| then 4 * (weight + 1 - |ds|) else 0;
    ValZeros(z, 10);
    ValConcat(IntText(ds[..k]), Zeros(z), 10);
  }

  lemma ValZero()
    ensures AllDigits("0", 10) && Val("0", 10) == 0 && Val("", 10) == 0
  {
    ValZeros(1, 10);
    assert Zeros(1) == "0";
  }

  lemma HeadValue(weight: int, ds: seq<int>)
    requires Groups(ds) && 0 <= weight < |ds| - 1
    ensures var i := IntegerText(weight, ds);
            && AllDigits(i, 10) && i != [] && Groups(ds[..weight + 1])
            && Val(i, 10) == Number10000(ds[..weight + 1])
  {
    hide Val, Pow, Number10000, IntText, AllDigits, IntegerText;
    IntegerTextValue(weight, ds);
    PowZero(10);
  }

  lemma TailValue(weight: int, dscale: nat, ds: seq<int>)
    requires Groups(ds) && 0 <= weight < |ds| - 1
    ensures var f, tail := FractionText(weight, ds), ds[weight + 1..];
            && AllDigits(f, 10) && AllDigits(Places(f, dscale), 10) && Groups(tail)
            && Val(Places(f, dscale), 10) == Scaled(Number10000(tail), dscale - 4 * |tail|)
  {
    hide Val, Pow, Number10000, FracText, Places, AllDigits, Scaled;
    FracTextValue(ds[weight + 1..]);
    PlacesValue(FracText(ds[weight + 1..]), dscale);
  }

  lemma NumberSplit(head: seq<int>, tail: seq<int>, dscale: nat)
    requires Groups(head) && Groups(tail)
    ensures Groups(head + tail)
    ensures Scaled(Number10000(head + tail), dscale - 4 * |tail|)
         == Number10000(head) * Pow(10, dscale) + Scaled(Number10000(tail), dscale - 4 * |tail|)
  {
    hide Pow, Number10000, Scaled;
    NumberConcat(head, tail);
    NumberBound(tail);
    ScaledSum(Number10000(head), Number10000(tail), 4 * |tail|, dscale);
  }

  /** Some digits after the point: the integer text is the head, the fraction text the tail. */
  lemma SplitInside(weight: int, dscale: nat, ds: seq<int>)
    requires Groups(ds) && 0 <= weight < |ds| - 1
    ensures SplitsAs(weight, dscale, ds)
  {
    hide Val, Pow, Number10000, Places, AllDigits, Scaled, IntegerText, FractionText;
    HeadValue(weight, ds);
    TailValue(weight, dscale, ds);
    var head, tail := ds[..weight + 1], ds[weight + 1..];
    NumberSplit(head, tail, dscale);
    assert ds == head + tail;
    assert dscale - 4 * |tail| == Exponent(weight, |ds|, dscale);
  }

  /** No digits after the point: the integer text is filled up with zero groups. */
  lemma SplitOutside(weight: int, dscale: nat, ds: seq<int>)
    requires Groups(ds) && ds != [] && weight >= |ds| - 1
    ensures SplitsAs(weight, dscale, ds)
  {
    hide Val, Pow, Number10000, IntText, AllDigits, Places, IntegerText;
    IntegerTextValue(weight, ds);
    var z := 4 * (weight + 1 - |ds|);
    assert ds[|ds|..] == [] && ds[..|ds|] == ds;
    ScaledFilled(Number10000(ds), z, dscale, Val(IntegerText(weight, ds), 10));
    PlacesOfNothing(dscale);
    assert FractionText(weight, ds) == "";
  }

  lemma ScaledFilled(n: nat, z: nat, k: nat, v: nat)
    requires v == n * Pow(10, z)
    ensures v * Pow(10, k) == Scaled(n, z + k)
  {
    hide Pow;
    PowAdd(10, z, k);
    MulAssoc(n, Pow(10, z), Pow(10, k));
  }

  lemma PlacesOfNothing(k: nat)
    ensures AllDigits("", 10) && AllDigits(Places("", k), 10) && Val(Places("", k), 10) == 0
  {
    ValZeros(k, 10);
    assert Places("", k) == Zeros(k);
  }

  /** With `weight >= 0`, integer and fraction text together carry the digits' number. */
  predicate SplitsAs(weight: int, dscale: nat, ds: seq<int>)
    requires Groups(ds)
  {
    var i, f := IntegerText(weight, ds), FractionText(weight, ds);
    && AllDigits(i, 10) && AllDigits(f, 10) && AllDigits(Places(f, dscale), 10) && i != []
    && Val(i, 10) * Pow(10, dscale) + Val(Places(f, dscale), 10)
       == Scaled(Number10000(ds), Exponent(weight, |ds|, dscale))
  }

  lemma SplitNumber(weight: int, dscale: nat, ds: seq<int>)
    requires Groups(ds) && ds != [] && weight >= 0
    ensures SplitsAs(weight, dscale, ds)
  {
    if weight < |ds| - 1 {
      SplitInside(weight, dscale, ds);
    } else {
      SplitOutside(weight, dscale, ds);
    }
  }

  lemma DecodeInteger(negative: bool, weight: int, ds: seq<int>)
    requires Groups(ds) && ds != [] && weight >= 0
    ensures ParseDecimal(DecimalText(negative, weight, 0, ds))
            == Some(Decimal(negative, Scaled(Number10000(ds), Exponent(weight, |ds|, 0)), 0))
  {
    hide Val, Pow, Number10000, IntegerText, FractionText, ParseDecimal, AllDigits;
    SplitNumber(weight, 0, ds);
    assert Places(FractionText(weight, ds), 0) == [];
    PowZero(10);
    ValZero();
    ParseInteger(negative, IntegerText(weight, ds));
  }

  lemma DecodeCutToZero(negative: bool, weight: int, ds: seq<int>)
    requires Groups(ds) && ds != [] && weight < 0
    ensures ParseDecimal(DecimalText(negative, weight, 0, ds))
            == Some(Decimal(negative, Scaled(Number10000(ds), Exponent(weight, |ds|, 0)), 0))
  {
    assert IntegerText(weight, ds) == "";
    hide Val, Pow, Number10000, ParseDecimal, AllDigits;
    NumberBound(ds);
    ScaledSmall(Number10000(ds), 4 * |ds|, Exponent(weight, |ds|, 0));
    ValZero();
    ParseInteger(negative, "0");
  }

  lemma DecodeMixed(negative: bool, weight: int, dscale: nat, ds: seq<int>)
    requires Groups(ds) && ds != [] && dscale > 0 && weight >= 0
    ensures ParseDecimal(DecimalText(negative, weight, dscale, ds))
            == Some(Decimal(negative, Scaled(Number10000(ds), Exponent(weight, |ds|, dscale)), dscale))
  {
    hide Val, Pow, Number10000, IntegerText, FractionText, ParseDecimal, Places;
    SplitNumber(weight, dscale, ds);
    var i, f := IntegerText(weight, ds), Places(FractionText(weight, ds), dscale);
    PlacesValue(FractionText(weight, ds), dscale);
    ValConcat(i, f, 10);
    ParseMixed(negative, i, f);
  }

  lemma FractionValue(weight: int, dscale: nat, ds: seq<int>, tail: string)
    requires Groups(ds) && ds != [] && dscale > 0 && weight < 0
    requires tail == if dscale > LeadingZeros(weight)
                     then Places(FractionText(weight, ds), dscale - LeadingZeros(weight)) else ""
    ensures AllDigits(tail, 10) && |tail| == ResultScale(weight, dscale) - LeadingZeros(weight)
    ensures Val(tail, 10) == Scaled(Number10000(ds), Exponent(weight, |ds|, dscale))
  {
    hide Val, Pow, Number10000, FracText, AllDigits, Places;
    assert ds[0..] == ds;
    FracTextValue(ds);
    ValZero();
    if dscale > LeadingZeros(weight) {
      PlacesValue(FracText(ds), dscale - LeadingZeros(weight));
    } else {
      PlacesOfNothing(0);
      NumberBound(ds);
      ScaledSmall(Number10000(ds), 4 * |ds|, Exponent(weight, |ds|, dscale));
    }
  }

  /** `0.` and any digits: leading zeros of the fraction do not change its value. */
  lemma BelowOneValue(zeros: nat, tail: string)
    requires AllDigits(tail, 10)
    ensures var places := Zeros(zeros) + tail;
            AllDigits(places, 10) && AllDigits("0" + places, 10) && Val("0" + places, 10) == Val(tail, 10)
  {
    hide Val, Pow, AllDigits;
    ValZeros(zeros, 10);
    ValConcat(Zeros(zeros), tail, 10);
    ValZero();
    ValConcat("0", Zeros(zeros) + tail, 10);
  }

  lemma BelowOneText(negative: bool, weight: int, dscale: nat, ds: seq<int>, tail: string)
    requires dscale > 0 && weight < 0
    requires tail == if dscale > LeadingZeros(weight)
                     then Places(FractionText(weight, ds), dscale - LeadingZeros(weight)) else ""
    ensures DecimalText(negative, weight, dscale, ds) == Sign(negative) + ("0" + "." + (Zeros(LeadingZeros(weight)) + tail))
  {
    hide Places, FractionText, IntegerText, Sign, Zeros;
    var z := Zeros(LeadingZeros(weight));
    assert "0." + z + tail == "0" + "." + (z + tail);
  }

  lemma DecodeFraction(negative: bool, weight: int, dscale: nat, ds: seq<int>)
    requires Groups(ds) && ds != [] && dscale > 0 && weight < 0
    ensures ParseDecimal(DecimalText(negative, weight, dscale, ds))
            == Some(Decimal(negative, Scaled(Number10000(ds), Exponent(weight, |ds|, dscale)), ResultScale(weight, dscale)))
  {
    hide Val, Pow, Number10000, ParseDecimal, Places, FractionText, AllDigits, DecimalText, Scaled,
      ResultScale, Exponent;
    var zeros := LeadingZeros(weight);
    var tail := if dscale > zeros then Places(FractionText(weight, ds), dscale - zeros) else "";
    FractionValue(weight, dscale, ds, tail);
    BelowOneValue(zeros, tail);
    ValZero();
    ParseMixed(negative, "0", Zeros(zeros) + tail);
    BelowOneText(negative, weight, dscale, ds, tail);
  }

  /**
   For every weight, display scale and digits, whichever of the three shapes the decoder builds, the
   text denotes the digits' number shifted by the weight and cut off after `dscale` decimals.
   */
  lemma DecodeDenotes(negative: bool, weight: int, dscale: nat, ds: seq<int>)
    requires Groups(ds) && ds != []
    ensures ParseDecimal(DecimalText(negative, weight, dscale, ds))
            == Some(Decimal(negative, Scaled(Number10000(ds), Exponent(weight, |ds|, dscale)), ResultScale(weight, dscale)))
  {
    if dscale == 0 && weight >= 0 {
      DecodeInteger(negative, weight, ds);
    } else if dscale == 0 {
      DecodeCutToZero(negative, weight, ds);
    } else if weight < 0 {
      DecodeFraction(negative, weight, dscale, ds);
    } else {
      DecodeMixed(negative, weight, dscale, ds);
    }
  }
}
