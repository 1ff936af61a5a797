/** The text form of intervals. */
module IntervalText {
  import opened Common
  import opened Digits
  import opened Text
  import opened IntervalBinary
  import opened Bytes

  // ---- encoding -------------------------------------------------------------------

  /** All time fields as one signed count, saturating at every step. */
  function Total(v: Interval): (r: int)
    ensures IsI64(r)
  {
    SaturateI64(SaturateI64(SaturateI64(SaturateI64(v.hours * HOUR) + SaturateI64(v.minutes * MINUTE))
                            + SaturateI64(v.seconds * SECOND)) + v.micros)
  }

  function TrimZeros(s: string): string {
    if s != [] && s[|s| - 1] == '0' then TrimZeros(s[..|s| - 1]) else s
  }

  function FractionText(micros: nat): string {
    if micros == 0 then "0" else TrimZeros(PadLeft(Print(micros, 10), 6))
  }

  method FormatFractionalMicros(micros: nat) returns (digits: string)
    ensures digits == FractionText(micros)
  {
    if micros == 0 {
      return "0";
    }
    digits := PadLeft(Print(micros, 10), 6);
    while |digits| > 0 && digits[|digits| - 1] == '0'
      invariant TrimZeros(digits) == TrimZeros(PadLeft(Print(micros, 10), 6))
    {
      digits := digits[..|digits| - 1];
    }
  }

  function TwoDigits(n: nat): string { PadLeft(Print(n, 10), 2) }

  /** Hours, minutes, seconds and microseconds of a count, sign aside. */
  function Clock(n: nat): (nat, nat, nat, nat) {
    var secs := n / SECOND;
    (secs / 3600, secs % 3600 / 60, secs % 60, n % SECOND)
  }

  function Abs(x: int): nat { if x < 0 then -x else x }

  function SecondsText(seconds: nat, micros: nat): string {
    Join([TwoDigits(seconds), FractionText(micros)], '.')
  }

  function Signed(negative: bool, n: nat): int { if negative then 0 - n else n }

  function HoursText(negative: bool, hours: nat): string {
    (if negative then "-" else "") + TwoDigits(hours)
  }

  function TimeText(total: int): string {
    var (h, m, s, u) := Clock(Abs(total));
    Join([HoursText(total < 0, h), TwoDigits(m), SecondsText(s, u)], ':')
  }

  function Tokens(v: Interval): seq<string> {
    [PrintSigned(v.years, 10), if v.years == 1 then "year" else "years", PrintSigned(v.months, 10), "mons",
     PrintSigned(v.days, 10), if v.days == 1 then "day" else "days", TimeText(Total(v))]
  }

  function EncodeText(v: Interval): string {
    Join(Tokens(v), ' ')
  }

  // ---- decoding -------------------------------------------------------------------

  function SkipZeros(s: string): string {
    if s != [] && s[0] == '0' then SkipZeros(s[1..]) else s
  }

  /** A number with leading zeros skipped; nothing left, or nothing at all, is zero. */
  function ReadNumber(s: string, lo: int, hi: int): Result<int, Error> {
    var rest := SkipZeros(s);
    if rest == [] then Ok(0)
    else match ParseSigned(rest, 10, lo, hi)
         case Some(x) => Ok(x)
         case None => Err(BadNumber)
  }

  method ParseNumber(s: string, lo: int, hi: int) returns (r: Result<int, Error>)
    ensures r == ReadNumber(s, lo, hi)
  {
    var count := 0;
    assert s[0..] == s;
    while count < |s| && s[count] == '0'
      invariant count <= |s| && SkipZeros(s) == SkipZeros(s[count..])
    {
      count := count + 1;
    }
    if s[count..] == [] {
      return Ok(0);
    }
    match ParseSigned(s[count..], 10, lo, hi)
    case Some(x) => r := Ok(x);
    case None => r := Err(BadNumber);
  }

  /** One to six digits after the point, scaled to microseconds. */
  function ReadFraction(s: string): Result<int, Error> {
    if s == [] || |s| > 6 || !AllDigits(s, 10) then Err(UnexpectedPayload)
    else Ok(Val(s, 10) * Pow(10, 6 - |s|))
  }

  function ReadPair(acc: Interval, value: string, unit: string): Result<Interval, Error> {
    if unit == "year" || unit == "years" then
      match ReadNumber(value, I64_MIN, I64_MAX) case Ok(x) => Ok(acc.(years := x)) case Err(e) => Err(e)
    else if unit == "mon" || unit == "mons" then
      match ReadNumber(value, I32_MIN, I32_MAX) case Ok(x) => Ok(acc.(months := x)) case Err(e) => Err(e)
    else if unit == "day" || unit == "days" then
      match ReadNumber(value, I32_MIN, I32_MAX) case Ok(x) => Ok(acc.(days := x)) case Err(e) => Err(e)
    else Ok(acc)
  }

  function ReadSeconds(acc: Interval, s: string): Result<Interval, Error> {
    var parts := Split(s, '.');
    match ReadNumber(parts[0], I64_MIN, I64_MAX)
    case Err(e) => Err(e)
    case Ok(x) =>
      var acc := acc.(seconds := x);
      if |parts| == 1 then Ok(acc)
      else match ReadFraction(parts[1]) case Ok(u) => Ok(acc.(micros := u)) case Err(e) => Err(e)
  }

  function ReadTime(acc: Interval, s: string): Result<Interval, Error> {
    var parts := Split(s, ':');
    match ReadNumber(parts[0], I64_MIN, I64_MAX)
    case Err(e) => Err(e)
    case Ok(h) =>
      var acc := acc.(hours := h);
      if |parts| == 1 then Ok(acc)
      else match ReadNumber(parts[1], I64_MIN, I64_MAX)
           case Err(e) => Err(e)
           case Ok(m) =>
             var acc := acc.(minutes := m);
             if |parts| == 2 then Ok(acc) else ReadSeconds(acc, parts[2])
  }

  /** Tokens in pairs of value and label; a last token on its own is the time. */
  function ReadTokens(acc: Interval, tokens: seq<string>): Result<Interval, Error>
    decreases |tokens|
  {
    if tokens == [] then Ok(acc)
    else if |tokens| == 1 then ReadTime(acc, tokens[0])
    else match ReadPair(acc, tokens[0], tokens[1])
         case Ok(acc') => ReadTokens(acc', tokens[2..])
         case Err(e) => Err(e)
  }

  function DecodeText(s: string): Result<Interval, Error> {
    ReadTokens(DEFAULT, Split(s, ' '))
  }

  method Decode(s: string) returns (r: Result<Interval, Error>)
    ensures r == DecodeText(s)
  {
    var result := DEFAULT;
    var iter := Split(s, ' ');
    while iter != []
      invariant DecodeText(s) == ReadTokens(result, iter)
      decreases |iter|
    {
      var value := iter[0];
      if |iter| > 1 {
        var unit := iter[1];
        iter := iter[2..];
        if unit == "year" || unit == "years" {
          var x := ParseNumber(value, I64_MIN, I64_MAX);
          if x.Err? { return Err(x.error); }
          result := result.(years := x.value);
        } else if unit == "mon" || unit == "mons" {
          var x := ParseNumber(value, I32_MIN, I32_MAX);
          if x.Err? { return Err(x.error); }
          result := result.(months := x.value);
        } else if unit == "day" || unit == "days" {
          var x := ParseNumber(value, I32_MIN, I32_MAX);
          if x.Err? { return Err(x.error); }
          result := result.(days := x.value);
        }
      } else {
        iter := [];
        var parsed := DecodeTime(result, value);
        if parsed.Err? { return parsed; }
        result := parsed.value;
      }
    }
    return Ok(result);
  }

  method DecodeTime(acc: Interval, value: string) returns (r: Result<Interval, Error>)
    ensures r == ReadTime(acc, value)
  {
    var result := acc;
    var parts := Split(value, ':');
    var hours := ParseNumber(parts[0], I64_MIN, I64_MAX);
    if hours.Err? { return Err(hours.error); }
    result := result.(hours := hours.value);
    if |parts| > 1 {
      var minutes := ParseNumber(parts[1], I64_MIN, I64_MAX);
      if minutes.Err? { return Err(minutes.error); }
      result := result.(minutes := minutes.value);
    }
    if |parts| > 2 {
      var halves := Split(parts[2], '.');
      var seconds := ParseNumber(halves[0], I64_MIN, I64_MAX);
      if seconds.Err? { return Err(seconds.error); }
      result := result.(seconds := seconds.value);
      if |halves| > 1 {
        var micros := ReadFraction(halves[1]);
        if micros.Err? { return Err(micros.error); }
        result := result.(micros := micros.value);
      }
    }
    return Ok(result);
  }

  // ---- numbers come back --------------------------------------------------------------

  lemma {:induction false} SkipZerosValue(s: string)
    requires AllDigits(s, 10)
    ensures AllDigits(SkipZeros(s), 10) && Val(SkipZeros(s), 10) == Val(s, 10)
  {
    if s != [] && s[0] == '0' {
      SkipZerosValue(s[1..]);
      assert s == [s[0]] + s[1..];
      assert [s[0]] == Zeros(1);
      ValZeros(1, 10);
      ValConcat([s[0]], s[1..], 10);
    }
  }

  lemma ReadDigits(s: string, lo: int, hi: int)
    requires AllDigits(s, 10) && lo <= 0 <= Val(s, 10) <= hi
    ensures ReadNumber(s, lo, hi) == Ok(Val(s, 10))
  {
    SkipZerosValue(s);
    if SkipZeros(s) != [] {
      ParseDigits(SkipZeros(s), 10, lo, hi);
    }
  }

  lemma ReadSignedNumber(x: int, lo: int, hi: int)
    requires lo <= x <= hi && lo <= 0
    ensures ReadNumber(PrintSigned(x, 10), lo, hi) == Ok(x)
  {
    if x < 0 {
      ParsePrintSigned(x, 10, lo, hi);
    } else {
      ValPrint(x, 10);
      ReadDigits(Print(x, 10), lo, hi);
    }
  }

  lemma ReadTwoDigits(n: nat, hi: int)
    requires n <= hi
    ensures AllDigits(TwoDigits(n), 10) && TwoDigits(n) != []
    ensures ReadNumber(TwoDigits(n), I64_MIN, hi) == Ok(n)
  {
    hide Val, TwoDigits, ReadNumber;
    TwoDigitsValue(n);
    ReadDigits(TwoDigits(n), I64_MIN, hi);
  }

  lemma TwoDigitsValue(n: nat)
    ensures AllDigits(TwoDigits(n), 10) && TwoDigits(n) != [] && Val(TwoDigits(n), 10) == n
  {
    hide Val, Print;
    ValPrint(n, 10);
    ValPadLeft(Print(n, 10), 2, 10);
  }

  /** A leading minus stops the zero skipping; the digits after it are read as they stand. */
  lemma ReadHours(negative: bool, h: nat)
    requires h <= I64_MAX
    ensures ReadNumber(HoursText(negative, h), I64_MIN, I64_MAX) == Ok(Signed(negative, h))
  {
    hide ReadNumber, TwoDigits, Val;
    ReadTwoDigits(h, I64_MAX);
    if negative {
      TwoDigitsValue(h);
      NegativeDigits(TwoDigits(h));
    } else {
      assert HoursText(negative, h) == TwoDigits(h);
    }
  }

  lemma NegativeDigits(s: string)
    requires AllDigits(s, 10) && s != [] && Val(s, 10) <= I64_MAX
    ensures ReadNumber("-" + s, I64_MIN, I64_MAX) == Ok(0 - Val(s, 10))
  {
    hide Val;
    var t := "-" + s;
    assert t[0] == '-' && t[1..] == s;
    assert SkipZeros(t) == t;
  }

  lemma {:induction false} TrimmedZeros(s: string)
    requires AllDigits(s, 10)
    ensures var t := TrimZeros(s); |t| <= |s| && AllDigits(t, 10) && s == t + Zeros(|s| - |t|)
  {
    if s != [] && s[|s| - 1] == '0' {
      TrimmedZeros(s[..|s| - 1]);
    }
  }

  /** Six padded digits with trailing zeros dropped read back as the same microseconds. */
  lemma FractionRoundTrip(u: nat)
    requires u < SECOND
    ensures AllDigits(FractionText(u), 10) && ReadFraction(FractionText(u)) == Ok(u)
  {
    if u == 0 {
      ValZeros(1, 10);
      assert FractionText(0) == Zeros(1);
    } else {
      SixDigits(u);
      TrimmedFraction(PadLeft(Print(u, 10), 6), u);
    }
  }

  lemma SixDigits(u: nat)
    requires u < SECOND
    ensures var s := PadLeft(Print(u, 10), 6); |s| == 6 && AllDigits(s, 10) && Val(s, 10) == u
  {
    PowSix();
    hide Val, Print, Pow;
    PrintLength(u, 6, 10);
    ValPrint(u, 10);
    ValPadLeft(Print(u, 10), 6, 10);
  }

  lemma TrimmedFraction(s: string, u: nat)
    requires |s| == 6 && AllDigits(s, 10) && Val(s, 10) == u != 0
    ensures AllDigits(TrimZeros(s), 10) && ReadFraction(TrimZeros(s)) == Ok(u)
  {
    TrimmedZeros(s);
    NoDigits();
    hide Val, Pow, TrimZeros, Zeros;
    var t := TrimZeros(s);
    ValZeros(6 - |t|, 10);
    ValConcat(t, Zeros(6 - |t|), 10);
  }

  lemma NoDigits()
    ensures Val("", 10) == 0
  {
  }

  lemma PowSix()
    ensures Pow(10, 6) == SECOND
  {
    assert Pow(10, 3) == 1000;
  }

  // ---- separators -----------------------------------------------------------------

  lemma JoinThree(a: string, b: string, d: string, c: char)
    ensures Join([a, b, d], c) == a + [c] + (b + [c] + d)
  {
    assert [a, b, d][1..] == [b, d] && [b, d][1..] == [d];
    assert Join([b, d], c) == b + [c] + Join([d], c);
  }

  lemma SecondsRead(acc: Interval, s: nat, u: nat)
    requires s < 60 && u < SECOND
    ensures Free(SecondsText(s, u), ':') && Free(SecondsText(s, u), ' ')
    ensures ReadSeconds(acc, SecondsText(s, u)) == Ok(acc.(seconds := s, micros := u))
  {
    hide ReadNumber, ReadFraction, Print, PadLeft, Val, TrimZeros;
    ReadTwoDigits(s, I64_MAX);
    FractionRoundTrip(u);
    var parts := [TwoDigits(s), FractionText(u)];
    forall i | 0 <= i < 2 ensures Free(parts[i], '.') && Free(parts[i], ':') && Free(parts[i], ' ') {
      DigitsFree(parts[i], '.');
      DigitsFree(parts[i], ':');
      DigitsFree(parts[i], ' ');
    }
    SplitJoin(parts, '.');
    assert SecondsText(s, u) == parts[0] + "." + parts[1];
  }

  lemma ClockRanges(n: nat)
    ensures var (h, m, s, u) := Clock(n);
            0 <= m < 60 && 0 <= s < 60 && 0 <= u < SECOND && 0 <= h * HOUR <= n
            && h * HOUR + m * MINUTE + s * SECOND + u == n
            && n % HOUR == m * MINUTE + s * SECOND + u
  {
    ClockDigits(n);
  }

  /** The fields read from a printed time: the sign stays on the hours alone. */
  function ReadBack(acc: Interval, total: int): Interval {
    var (h, m, s, u) := Clock(Abs(total));
    acc.(hours := Signed(total < 0, h), minutes := m, seconds := s, micros := u)
  }

  lemma TimeRead(acc: Interval, total: int)
    requires IsI64(total)
    ensures Free(TimeText(total), ' ')
    ensures ReadTime(acc, TimeText(total)) == Ok(ReadBack(acc, total))
  {
    ClockRanges(Abs(total));
    hide ReadNumber, Print, PadLeft, Val, ReadSeconds, SecondsText;
    var (h, m, s, u) := Clock(Abs(total));
    ReadHours(total < 0, h);
    ReadTwoDigits(h, I64_MAX);
    ReadTwoDigits(m, I64_MAX);
    var parts := [HoursText(total < 0, h), TwoDigits(m), SecondsText(s, u)];
    DigitsFree(TwoDigits(h), ':');
    DigitsFree(TwoDigits(m), ':');
    DigitsFree(TwoDigits(h), ' ');
    DigitsFree(TwoDigits(m), ' ');
    var acc' := acc.(hours := Signed(total < 0, h), minutes := m);
    SecondsRead(acc', s, u);
    SplitJoin(parts, ':');
    JoinThree(parts[0], parts[1], parts[2], ':');
  }

  // ---- round trip ------------------------------------------------------------------

  lemma TokensFree(v: Interval, i: nat)
    requires i < 7
    ensures Free(Tokens(v)[i], ' ')
  {
    hide TimeText, PrintSigned, Total;
    SignedFree(v.years, ' ');
    SignedFree(v.months, ' ');
    SignedFree(v.days, ' ');
    TimeRead(v, Total(v));
  }

  lemma TwoTokens(acc: Interval, tokens: seq<string>, acc': Interval)
    requires |tokens| >= 2 && ReadPair(acc, tokens[0], tokens[1]) == Ok(acc')
    ensures ReadTokens(acc, tokens) == ReadTokens(acc', tokens[2..])
  {
  }

  lemma PairsRead(v: Interval)
    requires Typed(v)
    ensures ReadTokens(DEFAULT, Tokens(v))
         == ReadTokens(DEFAULT.(years := v.years, months := v.months, days := v.days), Tokens(v)[6..])
  {
    hide ReadNumber, ReadTime, TimeText, PrintSigned, Total, ReadTokens;
    ReadSignedNumber(v.years, I64_MIN, I64_MAX);
    ReadSignedNumber(v.months, I32_MIN, I32_MAX);
    ReadSignedNumber(v.days, I32_MIN, I32_MAX);
    var t := Tokens(v);
    var y := DEFAULT.(years := v.years);
    var ym := y.(months := v.months);
    TwoTokens(DEFAULT, t, y);
    TwoTokens(y, t[2..], ym);
    assert t[2..][2..] == t[4..] && t[4..][2..] == t[6..];
    TwoTokens(ym, t[4..], ym.(days := v.days));
  }

  lemma TokensRead(v: Interval)
    requires Typed(v)
    ensures ReadTokens(DEFAULT, Tokens(v)) == Ok(ReadBack(v, Total(v)))
  {
    PairsRead(v);
    hide ReadNumber, ReadTime, TimeText, PrintSigned, Clock, Total;
    TimeRead(DEFAULT.(years := v.years, months := v.months, days := v.days), Total(v));
    assert Tokens(v)[6..] == [TimeText(Total(v))];
  }

  /** What comes back from the text of an interval, field by field. */
  lemma TextReadsBack(v: Interval)
    requires Typed(v)
    ensures DecodeText(EncodeText(v)) == Ok(ReadBack(v, Total(v)))
  {
    TokensRead(v);
    hide ReadTokens, Tokens;
    forall i | 0 <= i < 7 ensures Free(Tokens(v)[i], ' ') {
      TokensFree(v, i);
    }
    assert |Tokens(v)| == 7 by { TokensCount(v); }
    SplitJoin(Tokens(v), ' ');
  }

  lemma TokensCount(v: Interval)
    ensures |Tokens(v)| == 7
  {
  }

  lemma Unsaturated(v: Interval)
    requires IsI64(v.hours * HOUR) && IsI64(v.minutes * MINUTE) && IsI64(v.seconds * SECOND)
    requires IsI64(v.hours * HOUR + v.minutes * MINUTE) && IsI64(v.hours * HOUR + v.minutes * MINUTE + v.seconds * SECOND)
    requires IsI64(TimeSum(v))
    ensures Total(v) == TimeSum(v)
  {
  }

  /** A negative time comes back with everything below the hour counted the wrong way. */
  lemma ReadBackTotal(v: Interval, total: int)
    requires IsI64(total)
    ensures var r := ReadBack(v, total);
            && Total(r) == TimeSum(r) == PackedMicros(r)
            && TimeSum(r) == if total < 0 then total + 2 * (-total % HOUR) else total
  {
    ClockRanges(Abs(total));
    hide Clock, Total;
    var r := ReadBack(v, total);
    assert r.minutes >= 0 && r.seconds >= 0 && r.micros >= 0;
    Unsaturated(r);
  }

  lemma SameTime(total: int)
    ensures (if total < 0 then total + 2 * (-total % HOUR) else total) == total <==> total >= 0 || total % HOUR == 0
  {
  }

  /**
   Through the text form, years, months and days always survive. The time survives exactly when it
   is not negative or is a whole number of hours; otherwise it comes back too large by twice the
   part below the hour.
   */
  lemma TextRoundTrip(v: Interval)
    requires Typed(v)
    ensures var r := DecodeText(EncodeText(v));
            && r.Ok? && r.value.years == v.years && r.value.months == v.months && r.value.days == v.days
            && (Total(r.value) == Total(v) <==> Total(v) >= 0 || Total(v) % HOUR == 0)
            && (Total(v) < 0 ==> Total(r.value) == Total(v) + 2 * (-Total(v) % HOUR))
  {
    hide DecodeText, EncodeText, Total, Clock;
    TextReadsBack(v);
    ReadBackTotal(v, Total(v));
    SameTime(Total(v));
  }

  /** The shortest witness: half an hour ago is read as half an hour ahead. */
  lemma NegativeTimeFlips()
    ensures var v := DEFAULT.(minutes := -30);
            Total(v) == -30 * MINUTE && DecodeText(EncodeText(v)) == Ok(DEFAULT.(minutes := 30))
  {
    hide DecodeText, EncodeText;
    TextReadsBack(DEFAULT.(minutes := -30));
  }

  lemma SameBytes(v: Interval, r: Interval)
    requires IsI32(v.days) && v.days == r.days && v.years == r.years && v.months == r.months
    ensures EncodeBinary(v) == EncodeBinary(r) <==> PackedMicros(v) == PackedMicros(r)
  {
    hide PackedMicros;
    Widths();
    GetPutSigned(PackedMicros(v), 8);
    GetPutSigned(PackedMicros(r), 8);
    assert EncodeBinary(v)[..8] == PutI64(PackedMicros(v)) && EncodeBinary(r)[..8] == PutI64(PackedMicros(r));
  }

  /** A binary payload relayed as text is the same payload again under the same condition. */
  lemma RelayedPayload(bytes: seq<byte>)
    requires |bytes| == 16
    ensures var v := DecodeBinary(bytes).value;
            var micros := GetSigned(bytes[..8]);
            var r := DecodeText(EncodeText(v));
            && r.Ok? && IsI32(r.value.days)
            && (EncodeBinary(r.value) == bytes <==> micros >= 0 || micros % HOUR == 0)
  {
    hide DecodeText, EncodeText, Total, Clock, EncodeBinary, Unpack;
    PayloadRoundTrip(bytes);
    Widths();
    var v, micros := DecodeBinary(bytes).value, GetSigned(bytes[..8]);
    UnpackExact(micros, GetSigned(bytes[8..12]), GetSigned(bytes[12..]));
    NoOverflowExact(v);
    Unsaturated(v);
    TextReadsBack(v);
    ReadBackTotal(v, micros);
    SameBytes(v, ReadBack(v, micros));
    SameTime(micros);
  }
}
