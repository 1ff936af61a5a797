/** One-dimensional arrays in binary form: a header, then length-prefixed elements. */
module ArrayBinary {
  import opened Common
  import opened Bytes
  import opened ArrayText

  /** The element codec for each element type id. */
  datatype BinaryCodec<!T> = BinaryCodec(enc: T -> Result<seq<byte>, Error>, dec: seq<byte> -> Result<T, Error>)

  lemma ThirtyTwoBits()
    ensures Pow256(4) == 0x1_0000_0000 && Pow256(4) / 2 == 0x8000_0000
  {
  }

  function Put32(x: int): (bs: seq<byte>)
    ensures |bs| == 4
  {
    ThirtyTwoBits();
    PutSigned(WrapI32(x), 4)
  }

  function Get32(bs: seq<byte>): (x: int)
    requires |bs| == 4
    ensures I32_MIN <= x <= I32_MAX
  {
    ThirtyTwoBits();
    GetSigned(bs)
  }

  lemma GetPut32(x: int)
    requires I32_MIN <= x <= I32_MAX
    ensures Get32(Put32(x)) == x
  {
    ThirtyTwoBits();
    GetPutSigned(x, 4);
  }

  // ---- encoding ----------------------------------------------------------------

  function PutElement<T>(c: BinaryCodec<T>, e: Option<T>): Result<seq<byte>, Error> {
    match e
    case None => Ok(Put32(-1))
    case Some(x) =>
      match c.enc(x)
      case Err(err) => Err(err)
      case Ok(b) => Ok(Put32(|b|) + b)
  }

  function PutElements<T>(c: BinaryCodec<T>, es: seq<Option<T>>): Result<seq<byte>, Error> {
    if es == [] then Ok([])
    else
      match PutElement(c, es[0])
      case Err(err) => Err(err)
      case Ok(b) =>
        match PutElements(c, es[1..])
        case Err(err) => Err(err)
        case Ok(rest) => Ok(b + rest)
  }

  predicate HasNulls<T>(es: seq<Option<T>>) {
    exists i :: 0 <= i < |es| && es[i].None?
  }

  /** A default-bounded empty array is written without a dimension; any other bounds need one. */
  predicate HasDim<T>(a: Array<T>) {
    a.elements != [] || a.dim.lower != 1
  }

  function Header<T>(a: Array<T>): seq<byte> {
    Put32(if HasDim(a) then 1 else 0) + Put32(if HasNulls(a.elements) then 1 else 0) + Put32(a.oid)
    + if HasDim(a) then Put32(a.dim.size) + Put32(a.dim.lower) else []
  }

  function EncodeBinary<T>(codec: int -> BinaryCodec<T>, a: Array<T>): Result<seq<byte>, Error> {
    match PutElements(codec(a.oid), a.elements)
    case Err(err) => Err(err)
    case Ok(body) => Ok(Header(a) + body)
  }

  // ---- decoding -------------------------------------------------------------------

  function GetElements<T>(c: BinaryCodec<T>, bytes: seq<byte>): Result<seq<Option<T>>, Error>
    decreases |bytes|
  {
    if bytes == [] then Ok([])
    else if |bytes| < 4 then Err(UnexpectedPayload)
    else
      var len, rest := Get32(bytes[..4]), bytes[4..];
      if len == -1 then
        match GetElements(c, rest)
        case Err(e) => Err(e)
        case Ok(es) => Ok([None] + es)
      else if len < 0 || |rest| < len then Err(UnexpectedPayload)
      else
        match c.dec(rest[..len])
        case Err(e) => Err(e)
        case Ok(x) =>
          match GetElements(c, rest[len..])
          case Err(e) => Err(e)
          case Ok(es) => Ok([Some(x)] + es)
  }

  /** The dimension and what follows it; a negative count of dimensions reads as a huge one. */
  function GetDimension(dims: int, rest: seq<byte>): Result<(Dimension, seq<byte>), Error> {
    if dims == 0 then
      if rest != [] then Err(UnexpectedPayload) else Ok((Dimension(0, 1), []))
    else if |rest| < 8 then Err(UnexpectedPayload)
    else
      var size, lower := Get32(rest[..4]), Get32(rest[4..8]);
      if size < 0 || (size > 0 && lower + (size - 1) > I32_MAX) then Err(UnexpectedPayload)
      else Ok((Dimension(size, lower), rest[8..]))
  }

  function DecodeBinary<T>(codec: int -> BinaryCodec<T>, bytes: seq<byte>, expected: int): Result<Array<T>, Error> {
    if |bytes| < 12 then Err(UnexpectedPayload)
    else
      var dims, oid := Get32(bytes[..4]), Get32(bytes[8..12]);
      if dims < 0 || dims > 1 then Err(ArrayDimensions(if dims < 0 then dims + 0x1_0000_0000_0000_0000 else dims))
      else if expected != 0 && oid != expected then Err(UnexpectedPayload)
      else
        match GetDimension(dims, bytes[12..])
        case Err(e) => Err(e)
        case Ok((dim, rest)) =>
          match GetElements(codec(oid), rest)
          case Err(e) => Err(e)
          case Ok(es) => if |es| != dim.size then Err(UnexpectedPayload) else Ok(Array(es, oid, dim))
  }

  // ---- the round trip ----------------------------------------------------------------

  predicate BinaryRoundTrips<T(==)>(c: BinaryCodec<T>, e: Option<T>) {
    e.Some? ==> match c.enc(e.value)
                case Ok(b) => |b| <= I32_MAX && c.dec(b) == Ok(e.value)
                case Err(_) => false
  }

  lemma GetPutElement<T>(c: BinaryCodec<T>, e: Option<T>, rest: seq<byte>)
    requires BinaryRoundTrips(c, e)
    ensures PutElement(c, e).Ok?
    ensures GetElements(c, PutElement(c, e).value + rest)
            == match GetElements(c, rest) case Err(x) => Err(x) case Ok(es) => Ok([e] + es)
  {
    var b := PutElement(c, e).value + rest;
    match e {
      case None =>
        GetPut32(-1);
        assert b[..4] == Put32(-1) && b[4..] == rest;
      case Some(x) =>
        var p := c.enc(x).value;
        GetPut32(|p|);
        assert b[..4] == Put32(|p|) && b[4..] == p + rest;
        assert (p + rest)[..|p|] == p && (p + rest)[|p|..] == rest;
    }
  }

  lemma {:induction false} GetPutElements<T>(c: BinaryCodec<T>, es: seq<Option<T>>)
    requires forall i :: 0 <= i < |es| ==> BinaryRoundTrips(c, es[i])
    ensures PutElements(c, es).Ok? && GetElements(c, PutElements(c, es).value) == Ok(es)
  {
    if es != [] {
      assert BinaryRoundTrips(c, es[0]);
      GetPutElements(c, es[1..]);
      GetPutElement(c, es[0], PutElements(c, es[1..]).value);
      assert es == [es[0]] + es[1..];
    }
  }

  lemma HeaderFields<T>(a: Array<T>, body: seq<byte>)
    requires I32_MIN <= a.oid <= I32_MAX
    ensures var b := Header(a) + body;
            && |b| >= 12 && Get32(b[..4]) == (if HasDim(a) then 1 else 0) && Get32(b[8..12]) == a.oid
            && b[12..] == (if HasDim(a) then Put32(a.dim.size) + Put32(a.dim.lower) else []) + body
  {
    hide Get32;
    var b := Header(a) + body;
    assert b[..4] == Put32(if HasDim(a) then 1 else 0) && b[8..12] == Put32(a.oid);
    GetPut32(if HasDim(a) then 1 else 0);
    GetPut32(a.oid);
  }

  /** Size and bounds as the binary form can carry them; every array with a text form qualifies. */
  predicate Sized<T>(a: Array<T>) {
    && |a.elements| <= I32_MAX && a.dim.size == |a.elements| && I32_MIN <= a.dim.lower <= I32_MAX
    && (a.dim.size > 0 ==> a.dim.lower + (a.dim.size - 1) <= I32_MAX)
  }

  lemma DimensionFields<T>(a: Array<T>, body: seq<byte>)
    requires Sized(a) && (a.elements == [] ==> body == [])
    ensures GetDimension(if HasDim(a) then 1 else 0, (if HasDim(a) then Put32(a.dim.size) + Put32(a.dim.lower) else []) + body)
            == Ok((a.dim, body))
  {
    if HasDim(a) {
      var rest := Put32(a.dim.size) + Put32(a.dim.lower) + body;
      assert rest[..4] == Put32(a.dim.size) && rest[4..8] == Put32(a.dim.lower) && rest[8..] == body;
      GetPut32(a.dim.size);
      GetPut32(a.dim.lower);
    }
  }

  /** Encoding then decoding gives the array back: NULLs, empty arrays and non-default bounds included. */
  lemma BinaryRoundTrip<T>(codec: int -> BinaryCodec<T>, a: Array<T>, expected: int)
    requires Sized(a)
    requires I32_MIN <= a.oid <= I32_MAX && (expected == 0 || expected == a.oid)
    requires forall i :: 0 <= i < |a.elements| ==> BinaryRoundTrips(codec(a.oid), a.elements[i])
    ensures EncodeBinary(codec, a).Ok? && DecodeBinary(codec, EncodeBinary(codec, a).value, expected) == Ok(a)
  {
    hide PutElements, GetElements, GetDimension, Header, HasDim;
    GetPutElements(codec(a.oid), a.elements);
    var body := PutElements(codec(a.oid), a.elements).value;
    assert a.elements == [] ==> body == [] by { EmptyBody(codec(a.oid)); }
    HeaderFields(a, body);
    DimensionFields(a, body);
  }

  lemma EmptyBody<T>(c: BinaryCodec<T>)
    ensures PutElements(c, []) == Ok([])
  {
  }

  /** An array sent on in binary and received there prints as if it had never left. */
  lemma CrossFormat<T>(text: Codec<T>, codec: int -> BinaryCodec<T>, a: Array<T>)
    requires WellFormed(a) && I32_MIN <= a.oid <= I32_MAX
    requires forall i :: 0 <= i < |a.elements| ==> RoundTrips(text, a.elements[i])
    requires forall i :: 0 <= i < |a.elements| ==> BinaryRoundTrips(codec(a.oid), a.elements[i])
    ensures EncodeText(text, a).Ok? && EncodeBinary(codec, a).Ok?
    ensures var received := DecodeBinary(codec, EncodeBinary(codec, a).value, a.oid);
            && received.Ok? && EncodeText(text, received.value) == EncodeText(text, a)
            && DecodeText(text, EncodeText(text, received.value).value, a.oid) == Ok(a)
  {
    BinaryRoundTrip(codec, a, a.oid);
    TextRoundTrip(text, a);
  }

  /**
   An array received in binary can be printed exactly when it is not an empty one whose lower
   bound is the least i32: that one has no upper bound to print.
   */
  lemma ReceivedPrintsIff<T>(text: Codec<T>, codec: int -> BinaryCodec<T>, bytes: seq<byte>, expected: int)
    requires DecodeBinary(codec, bytes, expected).Ok?
    requires var a := DecodeBinary(codec, bytes, expected).value;
             forall i :: 0 <= i < |a.elements| && a.elements[i].Some? ==> text.enc(a.elements[i].value).Ok?
    ensures var a := DecodeBinary(codec, bytes, expected).value;
            EncodeText(text, a).Ok? <==> !(a.dim.size == 0 && a.dim.lower == I32_MIN)
  {
    var a := DecodeBinary(codec, bytes, expected).value;
    PrintsIff(text, a.elements);
  }

  /** Such an array does arrive: twenty bytes that decode and cannot be printed. */
  lemma UnprintableArrives<T>(text: Codec<T>, codec: int -> BinaryCodec<T>)
    ensures var bytes := Put32(1) + Put32(0) + Put32(23) + Put32(0) + Put32(I32_MIN);
            && DecodeBinary(codec, bytes, 23) == Ok(Array([], 23, Dimension(0, I32_MIN)))
            && EncodeText(text, DecodeBinary(codec, bytes, 23).value) == Err(UnexpectedPayload)
  {
    var bytes := Put32(1) + Put32(0) + Put32(23) + Put32(0) + Put32(I32_MIN);
    GetPut32(1);
    GetPut32(23);
    GetPut32(0);
    GetPut32(I32_MIN);
    assert bytes[..4] == Put32(1) && bytes[8..12] == Put32(23);
    assert bytes[12..][..4] == Put32(0) && bytes[12..][4..8] == Put32(I32_MIN) && bytes[12..][8..] == [];
  }

  // ---- the procedures --------------------------------------------------------------------

  method Encode<T>(codec: int -> BinaryCodec<T>, a: Array<T>) returns (r: Result<seq<byte>, Error>)
    ensures r == EncodeBinary(codec, a)
  {
    hide Header, PutElement;
    var buf := Header(a);
    ghost var header := buf;
    var c := codec(a.oid);
    ghost var done: seq<byte> := [];
    PrependNothing(PutElements(c, a.elements));
    assert a.elements[0..] == a.elements;
    for i := 0 to |a.elements|
      invariant buf == header + done
      invariant PutElements(c, a.elements) == Prepend(done, PutElements(c, a.elements[i..]))
    {
      assert a.elements[i..][1..] == a.elements[i + 1..];
      var e := PutElement(c, a.elements[i]);
      if e.Err? {
        return Err(e.error);
      }
      PrependStep(done, e.value, PutElements(c, a.elements[i + 1..]));
      buf := buf + e.value;
      done := done + e.value;
    }
    assert a.elements[|a.elements|..] == [];
    assert done + [] == done;
    return Ok(buf);
  }

  function Prepend(done: seq<byte>, r: Result<seq<byte>, Error>): Result<seq<byte>, Error> {
    match r
    case Err(e) => Err(e)
    case Ok(rest) => Ok(done + rest)
  }

  lemma PrependNothing(r: Result<seq<byte>, Error>)
    ensures Prepend([], r) == r
  {
    if r.Ok? { assert [] + r.value == r.value; }
  }

  lemma PrependStep(done: seq<byte>, b: seq<byte>, r: Result<seq<byte>, Error>)
    ensures Prepend(done, Prepend(b, r)) == Prepend(done + b, r)
  {
    if r.Ok? { assert done + (b + r.value) == done + b + r.value; }
  }

  function After<T>(es: seq<Option<T>>, r: Result<seq<Option<T>>, Error>): Result<seq<Option<T>>, Error> {
    match r
    case Err(e) => Err(e)
    case Ok(more) => Ok(es + more)
  }

  lemma AfterStep<T>(es: seq<Option<T>>, e: Option<T>, r: Result<seq<Option<T>>, Error>)
    ensures After([], r) == r
    ensures After(es, After([e], r)) == After(es + [e], r)
  {
    if r.Ok? { assert [] + r.value == r.value && es + ([e] + r.value) == es + [e] + r.value; }
  }

  method ReadElements<T>(c: BinaryCodec<T>, input: seq<byte>) returns (r: Result<seq<Option<T>>, Error>)
    ensures r == GetElements(c, input)
  {
    var elements: seq<Option<T>>, bytes := [], input;
    AfterStep([], None, GetElements(c, input));
    while bytes != []
      invariant GetElements(c, input) == After(elements, GetElements(c, bytes))
      decreases |bytes|
    {
      if |bytes| < 4 {
        return Err(UnexpectedPayload);
      }
      var len, rest := Get32(bytes[..4]), bytes[4..];
      if len == -1 {
        AfterStep(elements, None, GetElements(c, rest));
        elements, bytes := elements + [None], rest;
      } else if len < 0 {
        return Err(UnexpectedPayload);
      } else {
        if |rest| < len {
          return Err(UnexpectedPayload);
        }
        var x := c.dec(rest[..len]);
        if x.Err? {
          return Err(x.error);
        }
        AfterStep(elements, Some(x.value), GetElements(c, rest[len..]));
        elements, bytes := elements + [Some(x.value)], rest[len..];
      }
    }
    assert elements + [] == elements;
    return Ok(elements);
  }

  method Decode<T>(codec: int -> BinaryCodec<T>, bytes: seq<byte>, expected: int) returns (r: Result<Array<T>, Error>)
    ensures r == DecodeBinary(codec, bytes, expected)
  {
    if |bytes| < 12 {
      return Err(UnexpectedPayload);
    }
    var dims := Get32(bytes[..4]);
    if dims < 0 || dims > 1 {
      return Err(ArrayDimensions(if dims < 0 then dims + 0x1_0000_0000_0000_0000 else dims));
    }
    var oid := Get32(bytes[8..12]);
    if expected != 0 && oid != expected {
      return Err(UnexpectedPayload);
    }
    var d := GetDimension(dims, bytes[12..]);
    if d.Err? {
      return Err(d.error);
    }
    var (dim, rest) := d.value;
    var es := ReadElements(codec(oid), rest);
    if es.Err? {
      return Err(es.error);
    }
    return if |es.value| != dim.size then Err(UnexpectedPayload) else Ok(Array(es.value, oid, dim));
  }
}
