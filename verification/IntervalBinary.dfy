/** PostgreSQL intervals and their 16-byte binary form. */
module IntervalBinary {
  import opened Common
  import opened Arithmetic
  import opened Bytes

  datatype Interval = Interval(years: int, months: int, days: int, hours: int, minutes: int, seconds: int, micros: int)

  datatype Error = WrongSizeBinary(size: nat) | BadNumber | UnexpectedPayload

  const DEFAULT := Interval(0, 0, 0, 0, 0, 0, 0)

  const HOUR := 3_600_000_000
  const MINUTE := 60_000_000
  const SECOND := 1_000_000

  predicate IsI32(x: int) { I32_MIN <= x <= I32_MAX }

  /** The field types: `i32` for months, days and micros, `i64` for the rest. */
  predicate Typed(v: Interval) {
    && IsI64(v.years) && IsI32(v.months) && IsI32(v.days)
    && IsI64(v.hours) && IsI64(v.minutes) && IsI64(v.seconds) && IsI32(v.micros)
  }

  // ---- machine arithmetic -----------------------------------------------------

  /** Division and remainder that truncate toward zero. */
  function TruncDiv(a: int, b: int): int
    requires b > 0
  {
    if a >= 0 then a / b else -(-a / b)
  }

  function TruncRem(a: int, b: int): int
    requires b > 0
  {
    if a >= 0 then a % b else -(-a % b)
  }

  function SaturateI64(x: int): (r: int)
    ensures IsI64(r)
  {
    if x < I64_MIN then I64_MIN else if x > I64_MAX then I64_MAX else x
  }

  // ---- binary ---------------------------------------------------------------------

  lemma Widths()
    ensures Pow256(4) == 0x1_0000_0000 && Pow256(8) == 0x1_0000_0000_0000_0000
  {
    assert Pow256(2) == 65536;
    assert Pow256(4) == 0x1_0000_0000;
    assert Pow256(6) == 0x1_0000_0000_0000;
  }

  function PutI32(x: int): (bs: seq<byte>)
    requires IsI32(x)
    ensures |bs| == 4
  {
    Widths();
    PutSigned(x, 4)
  }

  function PutI64(x: int): (bs: seq<byte>)
    requires IsI64(x)
    ensures |bs| == 8
  {
    Widths();
    PutSigned(x, 8)
  }

  /** The fields of a payload: microseconds, days, months. */
  function Unpack(micros: int, days: int, months: int): Interval {
    var secs := TruncDiv(micros, SECOND);
    Interval(TruncDiv(months, 12), TruncRem(months, 12), days,
             TruncDiv(secs, 3600), TruncDiv(TruncRem(secs, 3600), 60), TruncRem(secs, 60), TruncRem(micros, SECOND))
  }

  function DecodeBinary(bytes: seq<byte>): Result<Interval, Error> {
    if |bytes| != 16 then Err(WrongSizeBinary(|bytes|))
    else Ok(Unpack(GetSigned(bytes[..8]), GetSigned(bytes[8..12]), GetSigned(bytes[12..])))
  }

  function PackedMicros(v: Interval): (r: int)
    ensures IsI64(r)
  {
    WrapI64(WrapI64(WrapI64(WrapI64(v.hours * HOUR) + WrapI64(v.minutes * MINUTE)) + WrapI64(v.seconds * SECOND)) + v.micros)
  }

  function PackedMonths(v: Interval): (r: int)
    ensures IsI32(r)
  {
    WrapI32(WrapI32(WrapI32(v.years) * 12) + v.months)
  }

  function EncodeBinary(v: Interval): (bs: seq<byte>)
    requires IsI32(v.days)
    ensures |bs| == 16
  {
    PutI64(PackedMicros(v)) + PutI32(v.days) + PutI32(PackedMonths(v))
  }

  /** No operation of the binary encoder wraps. */
  predicate NoOverflow(v: Interval) {
    && IsI64(v.hours * HOUR) && IsI64(v.minutes * MINUTE) && IsI64(v.seconds * SECOND)
    && IsI64(v.hours * HOUR + v.minutes * MINUTE) && IsI64(v.hours * HOUR + v.minutes * MINUTE + v.seconds * SECOND)
    && IsI64(TimeSum(v)) && IsI32(v.years) && IsI32(v.years * 12) && IsI32(v.years * 12 + v.months)
  }

  function TimeSum(v: Interval): int {
    v.hours * HOUR + v.minutes * MINUTE + v.seconds * SECOND + v.micros
  }

  /** Whole months in years, whole seconds, minutes and hours carried up, and one sign throughout each group. */
  predicate Normal(v: Interval) {
    && (if v.years * 12 + v.months >= 0 then v.years >= 0 && 0 <= v.months < 12 else v.years <= 0 && -12 < v.months <= 0)
    && if TimeSum(v) >= 0 then v.hours >= 0 && 0 <= v.minutes < 60 && 0 <= v.seconds < 60 && 0 <= v.micros < SECOND
       else v.hours <= 0 && -60 < v.minutes <= 0 && -60 < v.seconds <= 0 && -SECOND < v.micros <= 0
  }

  lemma NoOverflowExact(v: Interval)
    requires NoOverflow(v)
    ensures PackedMicros(v) == TimeSum(v) && PackedMonths(v) == v.years * 12 + v.months
  {
  }

  /** Time of day from a count of microseconds, sign aside. */
  lemma ClockDigits(n: nat)
    ensures var secs := n / SECOND;
            && secs / 3600 * HOUR + secs % 3600 / 60 * MINUTE + secs % 60 * SECOND + n % SECOND == n
            && secs % 3600 / 60 < 60
            && n % HOUR == secs % 3600 / 60 * MINUTE + secs % 60 * SECOND + n % SECOND
  {
    var secs := n / SECOND;
    var r := secs % 3600;
    assert n == secs * SECOND + n % SECOND && secs == secs / 3600 * 3600 + r && r == r / 60 * 60 + r % 60;
    assert secs % 60 == r % 60;
    DivideOff(secs / 3600, r * SECOND + n % SECOND, n, HOUR);
  }

  lemma UnpackExact(micros: int, days: int, months: int)
    requires IsI64(micros) && IsI32(days) && IsI32(months)
    ensures var v := Unpack(micros, days, months);
            Typed(v) && NoOverflow(v) && Normal(v) && TimeSum(v) == micros && v.years * 12 + v.months == months
  {
    assert Unpack(micros, days, months).days == days;
    hide Unpack;
    UnpackedTime(micros, days, months);
    UnpackedMonths(micros, days, months);
  }

  lemma UnpackedTime(micros: int, days: int, months: int)
    requires IsI64(micros)
    ensures var v := Unpack(micros, days, months);
            && TimeSum(v) == micros && IsI64(v.hours * HOUR)
            && if micros >= 0 then v.hours >= 0 && 0 <= v.minutes < 60 && 0 <= v.seconds < 60 && 0 <= v.micros < SECOND
               else v.hours <= 0 && -60 < v.minutes <= 0 && -60 < v.seconds <= 0 && -SECOND < v.micros <= 0
  {
    ClockDigits(if micros >= 0 then micros else -micros);
  }

  lemma UnpackedMonths(micros: int, days: int, months: int)
    requires IsI32(months)
    ensures var v := Unpack(micros, days, months);
            && v.years * 12 + v.months == months && IsI32(v.years) && IsI32(v.years * 12)
            && if months >= 0 then v.years >= 0 && 0 <= v.months < 12 else v.years <= 0 && -12 < v.months <= 0
  {
  }

  lemma ClockUnique(h: nat, m: nat, s: nat, u: nat)
    requires m < 60 && s < 60 && u < SECOND
    ensures var n := h * HOUR + m * MINUTE + s * SECOND + u;
            var secs := n / SECOND;
            secs / 3600 == h && secs % 3600 / 60 == m && secs % 60 == s && n % SECOND == u
  {
    var secs := h * 3600 + m * 60 + s;
    DivideOff(secs, u, secs * SECOND + u, SECOND);
    DivideOff(h, m * 60 + s, secs, 3600);
    DivideOff(m, s, m * 60 + s, 60);
    DivideOff(h * 60 + m, s, secs, 60);
  }

  /** Only normal intervals come out of a payload, and each from just one. */
  lemma NormalUnpacks(v: Interval)
    requires Normal(v)
    ensures Unpack(TimeSum(v), v.days, v.years * 12 + v.months) == v
  {
    NormalTime(v, v.years * 12 + v.months);
    NormalMonths(v, TimeSum(v));
  }

  lemma NormalTime(v: Interval, months: int)
    requires Normal(v)
    ensures var r := Unpack(TimeSum(v), v.days, months);
            r.hours == v.hours && r.minutes == v.minutes && r.seconds == v.seconds && r.micros == v.micros
  {
    if TimeSum(v) >= 0 {
      ClockUnique(v.hours, v.minutes, v.seconds, v.micros);
    } else {
      ClockUnique(-v.hours, -v.minutes, -v.seconds, -v.micros);
    }
  }

  lemma NormalMonths(v: Interval, micros: int)
    requires Normal(v)
    ensures var r := Unpack(micros, v.days, v.years * 12 + v.months);
            r.years == v.years && r.months == v.months
  {
    if v.years * 12 + v.months >= 0 {
      DivideOff(v.years, v.months, v.years * 12 + v.months, 12);
    } else {
      DivideOff(-v.years, -v.months, -(v.years * 12 + v.months), 12);
    }
  }

  /** Every 16-byte payload decodes without overflow and encodes back to the same bytes. */
  lemma PayloadRoundTrip(bytes: seq<byte>)
    requires |bytes| == 16
    ensures var v := DecodeBinary(bytes).value;
            Typed(v) && NoOverflow(v) && Normal(v) && EncodeBinary(v) == bytes
  {
    Widths();
    var micros, days, months := GetSigned(bytes[..8]), GetSigned(bytes[8..12]), GetSigned(bytes[12..]);
    UnpackExact(micros, days, months);
    NoOverflowExact(Unpack(micros, days, months));
    PutGetSigned(bytes[..8]);
    PutGetSigned(bytes[8..12]);
    PutGetSigned(bytes[12..]);
    assert bytes == bytes[..8] + bytes[8..12] + bytes[12..];
  }

  lemma EncodedFields(v: Interval)
    requires Typed(v)
    ensures DecodeBinary(EncodeBinary(v)) == Ok(Unpack(PackedMicros(v), v.days, PackedMonths(v)))
  {
    Widths();
    GetPutSigned(PackedMicros(v), 8);
    GetPutSigned(v.days, 4);
    GetPutSigned(PackedMonths(v), 4);
    var bs := EncodeBinary(v);
    assert bs[..8] == PutI64(PackedMicros(v)) && bs[8..12] == PutI32(v.days) && bs[12..] == PutI32(PackedMonths(v));
  }

  /** An interval survives the binary form exactly when it is normal and nothing wraps. */
  lemma BinaryRoundTripIff(v: Interval)
    requires Typed(v)
    ensures DecodeBinary(EncodeBinary(v)) == Ok(v) <==> Normal(v) && NoOverflow(v)
  {
    hide Unpack, PackedMicros, PackedMonths, EncodeBinary, DecodeBinary;
    EncodedFields(v);
    UnpackExact(PackedMicros(v), v.days, PackedMonths(v));
    if Normal(v) && NoOverflow(v) {
      NoOverflowExact(v);
      NormalUnpacks(v);
    }
  }
}
