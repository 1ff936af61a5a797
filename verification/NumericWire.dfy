/** NUMERIC on the wire: the byte layout, the two procedures, and the round trip. */
module NumericWire {
  import opened Common
  import opened Arithmetic
  import opened Bytes
  import opened Digits
  import opened Text
  import opened Numeric
  import opened NumericDecode

  newtype i16 = x: int | -0x8000 <= x < 0x8000

  /** A cast to i16: the low sixteen bits. */
  function AsI16(n: int): (r: int)
    ensures -0x8000 <= r < 0x8000
    ensures -0x8000 <= n < 0x8000 ==> r == n
  {
    (n + 0x8000) % 0x1_0000 - 0x8000
  }

  lemma SixteenBits()
    ensures Pow256(2) == 0x1_0000 && Pow256(2) / 2 == 0x8000
  {
  }

  function Put16(x: int): (bs: seq<byte>)
    ensures |bs| == 2
  {
    SixteenBits();
    PutSigned(AsI16(x), 2)
  }

  function Get16(bs: seq<byte>): (x: int)
    requires |bs| == 2
    ensures -0x8000 <= x < 0x8000
  {
    SixteenBits();
    GetSigned(bs)
  }

  function PutDigits(ds: seq<int>): (bs: seq<byte>)
    ensures |bs| == 2 * |ds|
  {
    if ds == [] then [] else PutDigits(ds[..|ds| - 1]) + Put16(ds[|ds| - 1])
  }

  function GetDigits(bs: seq<byte>, n: nat): (ds: seq<int>)
    requires 2 * n <= |bs|
    ensures |ds| == n
  {
    if n == 0 then [] else GetDigits(bs, n - 1) + [Get16(bs[2 * n - 2..2 * n])]
  }

  function Frame(count: int, weight: int, sign: nat, dscale: int, ds: seq<int>): seq<byte> {
    Put16(count) + Put16(weight) + PutBE(sign, 2) + Put16(dscale) + PutDigits(ds)
  }

  function EncodeBinary(v: Value): seq<byte> {
    match v
    case NaN => Frame(0, 0, 0xC000, 0, [])
    case Number(d) =>
      if d.mantissa == 0 then Frame(0, 0, 0, 0, [])
      else
        var ds := AllGroups(d);
        Frame(|ds|, Weight(d), if d.negative then 0x4000 else 0, d.scale, ds)
  }

  function DecodeBinary(bytes: seq<byte>): Result<Value, Error> {
    if |bytes| < 8 then Err(WrongSizeBinary(|bytes|))
    else
      var count, weight := Get16(bytes[0..2]), Get16(bytes[2..4]);
      var sign, dscale := GetBE(bytes[4..6]), Get16(bytes[6..8]);
      if count < 0 || dscale < 0 || weight < -8192 then Err(UnexpectedPayload)
      else if sign == 0xC000 then if count != 0 then Err(UnexpectedPayload) else Ok(NaN)
      else if sign != 0 && sign != 0x4000 then Err(UnexpectedPayload)
      else if count == 0 then Ok(Number(Decimal(false, 0, 0)))
      else if |bytes| - 8 < 2 * count then Err(WrongSizeBinary(|bytes|))
      else if weight == 0x7FFF then Err(UnexpectedPayload)
      else match ParseDecimal(DecimalText(sign == 0x4000, weight, dscale, GetDigits(bytes[8..], count)))
        case Some(d) => Ok(Number(d))
        case None => Err(UnexpectedPayload)
  }

  // ---- the round trip ------------------------------------------------------------

  lemma GetPut16(x: int)
    requires -0x8000 <= x < 0x8000
    ensures Get16(Put16(x)) == x
  {
    SixteenBits();
    GetPutSigned(x, 2);
  }

  lemma {:induction false} GetPutDigits(ds: seq<int>, rest: seq<byte>)
    requires Groups(ds)
    ensures GetDigits(PutDigits(ds) + rest, |ds|) == ds
  {
    if ds != [] {
      var n := |ds| - 1;
      var front, last := ds[..n], ds[n];
      GetPutDigits(front, Put16(last) + rest);
      assert PutDigits(ds) + rest == PutDigits(front) + (Put16(last) + rest);
      assert (PutDigits(ds) + rest)[2 * n..2 * n + 2] == Put16(last);
      GetPut16(last);
      assert ds == front + [last];
    }
  }

  /** A header and digits that fit their fields are read back field by field. */
  lemma FrameFields(count: int, weight: int, sign: nat, dscale: int, ds: seq<int>)
    requires 0 <= count < 0x8000 && -0x8000 <= weight < 0x8000 && sign < 0x1_0000 && 0 <= dscale < 0x8000
    requires Groups(ds) && |ds| == count
    ensures var b := Frame(count, weight, sign, dscale, ds);
            && |b| == 8 + 2 * count
            && Get16(b[0..2]) == count && Get16(b[2..4]) == weight && GetBE(b[4..6]) == sign && Get16(b[6..8]) == dscale
            && GetDigits(b[8..], count) == ds
  {
    var b := Frame(count, weight, sign, dscale, ds);
    assert b[0..2] == Put16(count) && b[2..4] == Put16(weight) && b[4..6] == PutBE(sign, 2) && b[6..8] == Put16(dscale);
    assert b[8..] == PutDigits(ds) + [];
    SixteenBits();
    GetPut16(count);
    GetPut16(weight);
    GetPutBE(sign, 2);
    GetPut16(dscale);
    GetPutDigits(ds, []);
  }

  /** Nothing the encoder writes outgrows its header field. */
  predicate Fits(d: Decimal) {
    d.scale < 0x8000 && |AllGroups(d)| < 0x8000 && |IntDigits(d)| < 0x8000
  }

  lemma {:induction false} IntGroupsCount(s: string)
    requires AllDigits(s, 10)
    ensures |IntGroups(s)| <= |s|
    decreases |s|
  {
    if |s| > 4 { IntGroupsCount(s[..|s| - 4]); }
  }

  /** Every value of the decimal type (96-bit unscaled value, scale at most 28) fits. */
  lemma DecimalsFit(d: Decimal)
    requires d.mantissa < Pow(10, 29) && d.scale <= 28
    ensures Fits(d)
  {
    PrintLength(d.mantissa, 29, 10);
    IntGroupsCount(IntPart(d));
    FracGroupsValue(FracPart(d));
    IntDigitsValue(d);
    var ds := IntDigits(d) + FracGroups(FracPart(d));
    NumberConcat(IntDigits(d), FracGroups(FracPart(d)));
    TrimZerosValue(ds);
  }

  lemma EncodeScalesBack(d: Decimal)
    requires d.mantissa != 0
    ensures var ds := AllGroups(d);
            && Groups(ds) && ds != []
            && Scaled(Number10000(ds), Exponent(Weight(d), |ds|, d.scale)) == d.mantissa
  {
    EncodeDenotes(d);
    var ds := AllGroups(d);
    var e := Exponent(Weight(d), |ds|, d.scale);
    hide AllGroups, Number10000, Pow, Weight;
    if e < 0 {
      PowPositive(10, -e);
      DivideOff(d.mantissa, 0, Number10000(ds), Pow(10, -e));
    }
  }

  /** Value and scale both survive: grouping, padding and trimming undo each other exactly. */
  lemma NumberRoundTrip(d: Decimal)
    requires d.mantissa != 0 && Fits(d)
    ensures DecodeBinary(EncodeBinary(Number(d))) == Ok(Number(d))
  {
    hide AllGroups, Number10000, IntDigits, ParseDecimal, DecimalText, GetDigits, Get16, GetBE, Frame;
    var ds := AllGroups(d);
    EncodeScalesBack(d);
    FrameFields(|ds|, Weight(d), if d.negative then 0x4000 else 0, d.scale, ds);
    DecodeDenotes(d.negative, Weight(d), d.scale, ds);
  }

  /** A value comes back identical exactly when it is not a zero that carries a scale or a sign. */
  lemma RoundTripIff(v: Value)
    requires v.Number? ==> Fits(v.d)
    ensures DecodeBinary(EncodeBinary(v)) == Ok(v)
            <==> (v.Number? && v.d.mantissa == 0 ==> v.d.scale == 0 && !v.d.negative)
    ensures v.Number? && v.d.mantissa == 0 ==> DecodeBinary(EncodeBinary(v)) == Ok(Number(Decimal(false, 0, 0)))
  {
    match v {
      case NaN => FrameFields(0, 0, 0xC000, 0, []);
      case Number(d) =>
        if d.mantissa == 0 {
          FrameFields(0, 0, 0, 0, []);
        } else {
          NumberRoundTrip(d);
        }
    }
  }

  /**
   Every payload with digits in range decodes to the number its digits denote, truncated to its
   display scale; only its header can make it fail.
   */
  lemma DecodedValue(bytes: seq<byte>)
    requires |bytes| >= 8
    requires var count := Get16(bytes[0..2]);
             && 0 < count && 8 + 2 * count <= |bytes| && Groups(GetDigits(bytes[8..], count))
             && -8192 <= Get16(bytes[2..4]) < 0x7FFF && Get16(bytes[6..8]) >= 0
             && (GetBE(bytes[4..6]) == 0 || GetBE(bytes[4..6]) == 0x4000)
    ensures var weight, dscale := Get16(bytes[2..4]), Get16(bytes[6..8]);
            var ds := GetDigits(bytes[8..], Get16(bytes[0..2]));
            DecodeBinary(bytes)
            == Ok(Number(Decimal(GetBE(bytes[4..6]) == 0x4000, Scaled(Number10000(ds), Exponent(weight, |ds|, dscale)),
                                 ResultScale(weight, dscale))))
  {
    hide DecimalText, ParseDecimal, GetDigits, Get16, GetBE, Number10000, Scaled, Exponent, ResultScale;
    DecodeDenotes(GetBE(bytes[4..6]) == 0x4000, Get16(bytes[2..4]), Get16(bytes[6..8]),
                  GetDigits(bytes[8..], Get16(bytes[0..2])));
  }

  /** The decoded number has the display scale exactly when the zeros its weight implies do not outnumber it. */
  lemma ScaleSurvivesIff(bytes: seq<byte>)
    requires |bytes| >= 8
    requires var count := Get16(bytes[0..2]);
             && 0 < count && 8 + 2 * count <= |bytes| && Groups(GetDigits(bytes[8..], count))
             && -8192 <= Get16(bytes[2..4]) < 0x7FFF && Get16(bytes[6..8]) >= 0
             && (GetBE(bytes[4..6]) == 0 || GetBE(bytes[4..6]) == 0x4000)
    ensures var weight, dscale, r := Get16(bytes[2..4]), Get16(bytes[6..8]), DecodeBinary(bytes);
            && r.Ok? && r.value.Number?
            && (r.value.d.scale == dscale <==> dscale == 0 || weight >= 0 || 4 * (-weight - 1) <= dscale)
  {
    hide DecodeBinary, GetDigits, Get16, GetBE, Number10000, Scaled, Exponent;
    DecodedValue(bytes);
  }

  /** One digit group, two groups below the first decimals and displayed with two decimals: the scale becomes eight. */
  lemma ScaleGrows(bytes: seq<byte>)
    requires bytes == [0, 1, 0xFF, 0xFD, 0, 0, 0, 2, 0, 1]
    ensures DecodeBinary(bytes).Ok? && DecodeBinary(bytes).value.Number? && DecodeBinary(bytes).value.d.scale == 8
  {
    assert bytes[0..2] == [0, 1] && bytes[2..4] == [0xFF, 0xFD] && bytes[4..6] == [0, 0] && bytes[6..8] == [0, 2];
    assert bytes[8..] == [0, 1];
    assert Get16([0, 1]) == 1 && Get16([0xFF, 0xFD]) == -3 && Get16([0, 2]) == 2 && GetBE([0, 0]) == 0;
    assert GetDigits([0, 1], 1) == [1];
    DecodedValue(bytes);
  }

  // ---- the procedures --------------------------------------------------------------

  /** Integer digits: the first as it is, the others to four places. */
  method BuildInteger(ds: seq<int>, weight: i16) returns (s: string)
    requires weight < 0x7FFF
    ensures s == IntegerText(weight as int, ds)
  {
    hide PrintSigned, Pad4, Zeros;
    var count: nat := if weight >= 0 then (weight + 1) as int else 0;
    var m := if count < |ds| then count else |ds|;
    s := "";
    for i := 0 to m
      invariant s == IntText(ds[..i])
    {
      assert ds[..i + 1][..i] == ds[..i];
      if i == 0 && ds[i] < 1000 && weight >= 0 {
        s := s + PrintSigned(ds[i], 10);
      } else if i == 0 && weight >= 0 {
        s := s + PrintSigned(ds[i], 10);
      } else {
        s := s + Pad4(ds[i]);
      }
    }
    if 0 <= weight < 0x7FFF {
      s := FillGroups(s, |ds|, (weight + 1) as int);
    } else {
      assert s + Zeros(0) == s;
    }
  }

  /** A group of four zeros for every digit position from `j` up to `expected`. */
  method FillGroups(digits: string, j: nat, expected: nat) returns (s: string)
    ensures s == digits + Zeros(if expected > j then 4 * (expected - j) else 0)
  {
    s := digits;
    var k := j;
    while k < expected
      invariant j <= k && (k <= expected || k == j)
      invariant s == digits + Zeros(4 * (k - j))
    {
      s := s + "0000";
      assert Zeros(4 * (k - j)) + "0000" == Zeros(4 * (k + 1 - j));
      k := k + 1;
    }
  }

  method BuildFraction(ds: seq<int>, weight: i16) returns (s: string)
    requires weight < 0x7FFF
    ensures s == FractionText(weight as int, ds)
  {
    hide Pad4;
    var count: nat := if weight >= 0 then (weight + 1) as int else 0;
    s := "";
    if count < |ds| {
      var rest := ds[count..];
      for i := 0 to |rest|
        invariant s == FracText(rest[..i])
      {
        assert rest[..i + 1][..i] == rest[..i];
        s := s + Pad4(rest[i]);
      }
      assert rest[..|rest|] == rest;
    } else {
      assert ds[|ds|..] == [];
    }
  }

  method PushZeros(s: string, k: nat) returns (t: string)
    ensures t == s + Zeros(k)
  {
    t := s;
    for i := 0 to k
      invariant t == s + Zeros(i)
    {
      t := t + "0";
      assert Zeros(i) + "0" == Zeros(i + 1);
    }
  }

  /** Exactly `k` places of the fraction digits. */
  method TakePlaces(s: string, f: string, k: nat) returns (t: string)
    ensures t == s + Places(f, k)
  {
    var take := if k < |f| then k else |f|;
    t := PushZeros(s + f[..take], k - take);
    assert t == s + (f[..take] + Zeros(k - take));
    assert |f| >= k ==> f[..take] + Zeros(k - take) == f[..k];
  }

  /** A number below one: zeros for the weight, then the digits' places the scale still asks for. */
  method BuildBelowOne(s: string, f: string, weight: i16, dscale: i16) returns (t: string)
    requires -8192 <= weight < 0 && dscale > 0
    ensures var zeros := LeadingZeros(weight as int);
            t == s + ("0." + Zeros(zeros) + if dscale as int > zeros then Places(f, dscale as int - zeros) else "")
  {
    var zeros := ((-weight - 1) * 4) as int;
    t := PushZeros(s + "0.", zeros);
    var needed := if dscale as int > zeros then dscale as int - zeros else 0;
    assert t == s + ("0." + Zeros(zeros));
    if needed > 0 {
      t := TakePlaces(t, f, needed);
    }
    assert t == s + ("0." + Zeros(zeros) + if dscale as int > zeros then Places(f, dscale as int - zeros) else "");
  }

  /** The whole text. Arithmetic on weight and scale is in i16, as declared, and stays in range. */
  method BuildText(negative: bool, weight: i16, dscale: i16, ds: seq<int>) returns (s: string)
    requires -8192 <= weight < 0x7FFF && dscale >= 0
    ensures s == DecimalText(negative, weight as int, dscale as int, ds)
  {
    hide IntegerText, FractionText, Places;
    var sign := Sign(negative);
    var i := BuildInteger(ds, weight);
    var f := BuildFraction(ds, weight);
    if dscale == 0 {
      return sign + if i != "" then i else "0";
    } else if weight < 0 {
      s := BuildBelowOne(sign, f, weight, dscale);
    } else {
      var whole := if i != "" then i else "0";
      s := TakePlaces(sign + whole + ".", f, dscale as int);
      assert s == sign + (whole + "." + Places(f, dscale as int));
    }
  }

  /** Decoding any byte string whatsoever: a value or an error, with every read and slice in range. */
  method Decode(bytes: seq<byte>) returns (r: Result<Value, Error>)
    ensures r == DecodeBinary(bytes)
  {
    if |bytes| < 8 {
      return Err(WrongSizeBinary(|bytes|));
    }
    var count := Get16(bytes[0..2]) as i16;
    if count < 0 {
      return Err(UnexpectedPayload);
    }
    var weight := Get16(bytes[2..4]) as i16;
    var sign := GetBE(bytes[4..6]);
    var dscale := Get16(bytes[6..8]) as i16;
    if dscale < 0 {
      return Err(UnexpectedPayload);
    }
    if weight < -8192 {
      return Err(UnexpectedPayload);
    }
    if sign == 0xC000 {
      return if count != 0 then Err(UnexpectedPayload) else Ok(NaN);
    }
    if sign != 0 && sign != 0x4000 {
      return Err(UnexpectedPayload);
    }
    if count == 0 {
      return Ok(Number(Decimal(false, 0, 0)));
    }
    var buf := bytes[8..];
    if |buf| < count as int * 2 {
      return Err(WrongSizeBinary(|bytes|));
    }
    var ds: seq<int> := [];
    for i := 0 to count as int
      invariant ds == GetDigits(buf, i)
    {
      ds := ds + [Get16(buf[2 * i..2 * i + 2])];
    }
    if weight == 0x7FFF {
      return Err(UnexpectedPayload);
    }
    var text := BuildText(sign == 0x4000, weight, dscale, ds);
    match ParseDecimal(text) {
      case Some(d) => return Ok(Number(d));
      case None => return Err(UnexpectedPayload);
    }
  }

  /** Groups of four, right to left, each inserted in front. */
  method ChunkInteger(s: string) returns (ds: seq<int>)
    requires AllDigits(s, 10)
    ensures ds == IntGroups(s)
  {
    hide IntGroups, Val;
    ds := [];
    var pos := |s|;
    assert s[..pos] == s && IntGroups(s) + [] == IntGroups(s);
    while pos > 0
      invariant 0 <= pos <= |s|
      invariant IntGroups(s) == IntGroups(s[..pos]) + ds
    {
      var start := if pos > 4 then pos - 4 else 0;
      var chunk := s[start..pos];
      IntGroupsStep(s, start, pos);
      assert IntGroups(s[..start]) + [Val(chunk, 10)] + ds == IntGroups(s[..start]) + ([Val(chunk, 10)] + ds);
      ds := [Val(chunk, 10)] + ds;
      pos := start;
    }
    IntGroupsNone(s);
  }

  lemma IntGroupsNone(s: string)
    ensures IntGroups(s[..0]) == []
  {
  }

  lemma IntGroupsStep(s: string, start: nat, pos: nat)
    requires AllDigits(s, 10) && 0 < pos <= |s| && start == if pos > 4 then pos - 4 else 0
    ensures IntGroups(s[..pos]) == IntGroups(s[..start]) + [Val(s[start..pos], 10)]
  {
    hide Val;
    assert s[..pos][start..] == s[start..pos] && s[..pos][..start] == s[..start];
    if pos <= 4 {
      assert s[start..pos] == s[..pos];
      IntGroupsNone(s);
    }
  }

  /** Groups of four, left to right, the last one padded. */
  method ChunkFraction(s: string) returns (ds: seq<int>)
    requires AllDigits(s, 10)
    ensures ds == FracGroups(s)
  {
    hide FracGroups, Val, Zeros;
    ds := [];
    var pos := 0;
    assert s[0..] == s && [] + FracGroups(s) == FracGroups(s);
    while pos < |s|
      invariant 0 <= pos <= |s|
      invariant FracGroups(s) == ds + FracGroups(s[pos..])
    {
      var end := if pos + 4 < |s| then pos + 4 else |s|;
      var chunk := PushZeros(s[pos..end], 4 - (end - pos));
      FracGroupsStep(s, pos, end);
      assert ds + ([Val(chunk, 10)] + FracGroups(s[end..])) == ds + [Val(chunk, 10)] + FracGroups(s[end..]);
      ds := ds + [Val(chunk, 10)];
      pos := end;
    }
    FracGroupsNone(s);
  }

  lemma FracGroupsNone(s: string)
    ensures FracGroups(s[|s|..]) == []
  {
  }

  lemma FracGroupsStep(s: string, pos: nat, end: nat)
    requires AllDigits(s, 10) && pos < |s| && end == if pos + 4 < |s| then pos + 4 else |s|
    ensures var chunk := s[pos..end] + Zeros(4 - (end - pos));
            AllDigits(chunk, 10) && FracGroups(s[pos..]) == [Val(chunk, 10)] + FracGroups(s[end..])
  {
    hide Val;
    ValZeros(4 - (end - pos), 10);
    assert s[pos..][..end - pos] == s[pos..end] && s[pos..][end - pos..] == s[end..];
    if |s| - pos <= 4 {
      assert s[pos..] == s[pos..end];
      FracGroupsNone(s);
    } else {
      assert s[pos..end] + Zeros(0) == s[pos..end];
    }
  }

  method PopTrailingZeros(digits: seq<int>) returns (ds: seq<int>)
    ensures ds == TrimZeros(digits)
  {
    ds := digits;
    while |ds| > 1 && ds[|ds| - 1] == 0
      invariant TrimZeros(ds) == TrimZeros(digits)
    {
      ds := ds[..|ds| - 1];
    }
  }

  /** The decimal's digits and weight, from its text. */
  method EncodeDigits(d: Decimal) returns (digits: seq<int>, weight: int, dscale: nat)
    requires d.mantissa != 0
    ensures digits == AllGroups(d) && weight == Weight(d) && dscale == d.scale
  {
    var parts := Split(AbsText(d), '.');
    SplitAbsText(d);
    var integer, fraction := parts[0], if |parts| > 1 then parts[1] else "";
    assert integer == IntPart(d) && fraction == FracPart(d);
    dscale := |fraction|;
    var ints: seq<int> := [];
    if integer != "0" {
      ints := ChunkInteger(integer);
    }
    var fracs: seq<int> := [];
    if fraction != [] {
      fracs := ChunkFraction(fraction);
    }
    hide IntPart, FracPart, AbsText, Split;
    assert ints == IntDigits(d) && fracs == FracGroups(FracPart(d));
    weight := if integer == "0" then -1 else |ints| - 1;
    digits := ints + fracs;
    FracGroupsValue(fraction);
    if fracs == [] && digits != [] && weight >= 0 {
      digits := PopTrailingZeros(digits);
    }
    EncodeDenotes(d);
    if digits == [] {
      digits := [0];
    }
  }

  method WriteFrame(digits: seq<int>, weight: int, sign: nat, dscale: nat) returns (bytes: seq<byte>)
    ensures bytes == Frame(|digits|, weight, sign, dscale, digits)
  {
    bytes := Put16(|digits|) + Put16(weight) + PutBE(sign, 2) + Put16(dscale);
    ghost var header := bytes;
    for i := 0 to |digits|
      invariant bytes == header + PutDigits(digits[..i])
    {
      assert digits[..i + 1][..i] == digits[..i];
      bytes := bytes + Put16(digits[i]);
    }
    assert digits[..|digits|] == digits;
  }

  method Encode(v: Value) returns (bytes: seq<byte>)
    ensures bytes == EncodeBinary(v)
  {
    match v {
      case NaN => bytes := WriteFrame([], 0, 0xC000, 0);
      case Number(d) =>
        if d.mantissa == 0 {
          bytes := WriteFrame([], 0, 0, 0);
        } else {
          var digits, weight, dscale := EncodeDigits(d);
          bytes := WriteFrame(digits, weight, if d.negative then 0x4000 else 0, dscale);
        }
    }
  }

  lemma SplitAbsText(d: Decimal)
    ensures Split(AbsText(d), '.') == if d.scale == 0 then [IntPart(d)] else [IntPart(d), FracPart(d)]
  {
    var i, f := IntPart(d), FracPart(d);
    DigitsFree(i, '.');
    DigitsFree(f, '.');
    SplitJoin([i], '.');
    SplitJoin([i, f], '.');
    assert Join([i, f], '.') == i + "." + f by { assert [i, f][1..] == [f]; }
  }
}
