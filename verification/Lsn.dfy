/** Log sequence numbers: two 32-bit halves printed in hexadecimal. */
module Lsn {
  import opened Common
  import opened Digits
  import opened Text

  const HALF := 0x1_0000_0000
  const WORD := 0x1_0000_0000_0000_0000

  datatype Lsn = Lsn(high: int, low: int, lsn: int)

  datatype Error = LsnDecode | NotANumber

  /** The upper and the lower 32 bits, each as an unsigned number. */
  function FromI64(x: int): Lsn {
    Lsn(x / HALF % HALF, x % HALF, x)
  }

  function Combine(high: int, low: int): int {
    WrapI64(WrapI64(high * HALF) + low)
  }

  /** An `i64` in upper-case hexadecimal; a negative one as its 64-bit pattern. */
  function Hex(x: int): string
    requires IsI64(x)
  {
    Print(if x < 0 then x + WORD else x, 16)
  }

  function Show(v: Lsn): string
    requires IsI64(v.high) && IsI64(v.low)
  {
    Hex(v.high) + "/" + Hex(v.low)
  }

  /** Parts beyond the second are ignored. */
  function Parse(s: string): Result<Lsn, Error> {
    var parts := Split(s, '/');
    match ParseSigned(parts[0], 16, I64_MIN, I64_MAX)
    case None => Err(NotANumber)
    case Some(high) =>
      if |parts| < 2 then Err(LsnDecode)
      else
        match ParseSigned(parts[1], 16, I64_MIN, I64_MAX)
        case None => Err(NotANumber)
        case Some(low) => Ok(Lsn(high, low, Combine(high, low)))
  }

  lemma HexFree(x: int)
    requires IsI64(x)
    ensures Free(Hex(x), '/')
  {
    var s := Hex(x);
    forall i | 0 <= i < |s| ensures s[i] != '/' {
      assert IsDigit(s[i], 16);
    }
  }

  /** A half reads back unless it was printed as the bit pattern of a negative number. */
  lemma HexReads(x: int)
    requires IsI64(x)
    ensures ParseSigned(Hex(x), 16, I64_MIN, I64_MAX) == if x >= 0 then Some(x) else None
  {
    var n := if x < 0 then x + WORD else x;
    ValPrint(n, 16);
    ParseDigits(Print(n, 16), 16, I64_MIN, I64_MAX);
  }

  lemma ShownParses(v: Lsn)
    requires IsI64(v.high) && IsI64(v.low)
    ensures Parse(Show(v))
         == if v.high >= 0 && v.low >= 0 then Ok(Lsn(v.high, v.low, Combine(v.high, v.low))) else Err(NotANumber)
  {
    hide Hex, ParseSigned, Combine;
    HexFree(v.high);
    HexFree(v.low);
    HexReads(v.high);
    HexReads(v.low);
    var parts := [Hex(v.high), Hex(v.low)];
    assert parts[1..] == [Hex(v.low)];
    assert Join(parts, '/') == Show(v);
    SplitJoin(parts, '/');
  }

  /** Printing and parsing give an LSN back exactly when its halves are not negative and agree with its number. */
  lemma TextRoundTripIff(v: Lsn)
    requires IsI64(v.high) && IsI64(v.low)
    ensures Parse(Show(v)) == Ok(v) <==> v.high >= 0 && v.low >= 0 && v.lsn == Combine(v.high, v.low)
  {
    hide Show, Parse, Combine;
    ShownParses(v);
  }

  /** The halves shifted and added are the number again, sign included. */
  lemma CombineHalves(x: int)
    requires IsI64(x)
    ensures Combine(x / HALF % HALF, x % HALF) == x
  {
    var q, low := x / HALF, x % HALF;
    assert x == q * HALF + low && -0x8000_0000 <= q < 0x8000_0000;
    var high := q % HALF;
    if q >= 0 {
      assert high == q;
    } else {
      assert high == q + HALF;
    }
  }

  /** Every 64-bit position survives the text form. */
  lemma PositionRoundTrip(x: int)
    requires IsI64(x)
    ensures Parse(Show(FromI64(x))) == Ok(FromI64(x))
  {
    CombineHalves(x);
    hide Show, Parse, Combine;
    TextRoundTripIff(FromI64(x));
  }

  /** The derived order: high half, low half, number. */
  predicate Less(a: Lsn, b: Lsn) {
    a.high < b.high || (a.high == b.high && (a.low < b.low || (a.low == b.low && a.lsn < b.lsn)))
  }

  function Unsigned(x: int): int { if x < 0 then x + WORD else x }

  lemma UnsignedHalves(x: int)
    requires IsI64(x)
    ensures Unsigned(x) == x / HALF % HALF * HALF + x % HALF
  {
    var q := x / HALF;
    assert x == q * HALF + x % HALF && -0x8000_0000 <= q < 0x8000_0000;
    if q >= 0 {
      assert q % HALF == q;
    } else {
      assert q % HALF == q + HALF;
    }
  }

  lemma UnsignedOrder(x: int, y: int)
    requires IsI64(x) && IsI64(y)
    ensures Less(FromI64(x), FromI64(y)) <==> Unsigned(x) < Unsigned(y)
  {
    UnsignedHalves(x);
    UnsignedHalves(y);
    var a, b := FromI64(x), FromI64(y);
    assert 0 <= a.low < HALF && 0 <= b.low < HALF;
  }

  /**
   Two positions that went through text: their order agrees with their numbers exactly when both lie
   on the same side of zero, and then the lag in bytes does not overflow and has the order's sign.
   */
  lemma ShownOrder(x: int, y: int)
    requires IsI64(x) && IsI64(y) && x != y
    ensures Parse(Show(FromI64(x))).Ok? && Parse(Show(FromI64(y))).Ok?
    ensures var a, b := Parse(Show(FromI64(x))).value, Parse(Show(FromI64(y))).value;
            && ((Less(a, b) <==> x < y) <==> (x < 0 <==> y < 0))
            && ((x < 0 <==> y < 0) ==> IsI64(a.lsn - b.lsn) && (a.lsn - b.lsn < 0 <==> Less(a, b)))
  {
    hide Show, Parse;
    PositionRoundTrip(x);
    PositionRoundTrip(y);
    UnsignedOrder(x, y);
  }
}
