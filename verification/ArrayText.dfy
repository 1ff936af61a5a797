/**
 One-dimensional arrays in text form: the quoting printer and the character-level parser.

 Elements are of any type with a text codec, which stands for the datum codec chosen by the
 element's type id. The parser's character iterator is the text that is left to read.
 */
module ArrayText {
  import opened Common
  import opened Digits

  datatype Error = UnexpectedPayload | ArrayDimensions(count: int) | BadElement

  datatype Dimension = Dimension(size: int, lower: int)

  datatype Array<T> = Array(elements: seq<Option<T>>, oid: int, dim: Dimension)

  datatype Codec<!T> = Codec(enc: T -> Result<string, Error>, dec: string -> Result<T, Error>)

  // ---- characters ------------------------------------------------------------

  predicate IsAsciiWs(c: char) {
    c == ' ' || c == '\t' || c == '\n' || c == '\r' || c == '\U{0C}'
  }

  /** The Unicode White_Space property, which `str::trim` uses. */
  predicate IsUnicodeWs(c: char) {
    || '\U{09}' <= c <= '\U{0D}' || c == ' ' || c == '\U{85}' || c == '\U{A0}' || c == '\U{1680}'
    || '\U{2000}' <= c <= '\U{200A}' || c == '\U{2028}' || c == '\U{2029}' || c == '\U{202F}'
    || c == '\U{205F}' || c == '\U{3000}'
  }

  predicate IsNullWord(s: string) {
    |s| == 4 && s[0] in "nN" && s[1] in "uU" && s[2] in "lL" && s[3] in "lL"
  }

  predicate Special(c: char) {
    c == ',' || c == '{' || c == '}' || c == '"' || c == '\\' || IsAsciiWs(c)
  }

  predicate NeedsQuoting(s: string) {
    s == "" || IsNullWord(s) || exists i :: 0 <= i < |s| && Special(s[i])
  }

  function TrimStart(s: string): string {
    if s != [] && IsUnicodeWs(s[0]) then TrimStart(s[1..]) else s
  }

  function TrimEnd(s: string, ws: char -> bool): string {
    if s != [] && ws(s[|s| - 1]) then TrimEnd(s[..|s| - 1], ws) else s
  }

  function Trim(s: string): string {
    TrimEnd(TrimStart(s), IsUnicodeWs)
  }

  // ---- printing -----------------------------------------------------------------

  function EscapeChar(c: char): string {
    if c == '"' then "\\\"" else if c == '\\' then "\\\\" else [c]
  }

  function Escape(s: string): string {
    if s == [] then [] else EscapeChar(s[0]) + Escape(s[1..])
  }

  function PrintElement<T>(c: Codec<T>, e: Option<T>): Result<string, Error> {
    match e
    case None => Ok("NULL")
    case Some(x) =>
      match c.enc(x)
      case Err(err) => Err(err)
      case Ok(t) => Ok(if NeedsQuoting(t) then "\"" + Escape(t) + "\"" else t)
  }

  /** The elements after the opening brace, each followed by what comes next. */
  function PrintElements<T>(c: Codec<T>, es: seq<Option<T>>): Result<string, Error> {
    if es == [] then Ok("}")
    else
      match PrintElement(c, es[0])
      case Err(err) => Err(err)
      case Ok(t) =>
        match PrintElements(c, es[1..])
        case Err(err) => Err(err)
        case Ok(rest) => Ok(t + (if |es| > 1 then "," else "") + rest)
  }

  /** The upper bound in i32; none when it does not exist there. */
  function UpperBound(dim: Dimension): Option<int> {
    var ub := if dim.size == 0 then dim.lower - 1 else dim.lower + dim.size - 1;
    if I32_MIN <= ub <= I32_MAX then Some(ub) else None
  }

  function PrintBounds(dim: Dimension): Result<string, Error> {
    if dim.lower == 1 then Ok("")
    else
      match UpperBound(dim)
      case None => Err(UnexpectedPayload)
      case Some(ub) => Ok("[" + PrintSigned(dim.lower, 10) + ":" + PrintSigned(ub, 10) + "]=")
  }

  function EncodeText<T>(c: Codec<T>, a: Array<T>): Result<string, Error> {
    match PrintBounds(a.dim)
    case Err(err) => Err(err)
    case Ok(bounds) =>
      match PrintElements(c, a.elements)
      case Err(err) => Err(err)
      case Ok(body) => Ok(bounds + "{" + body)
  }

  // ---- parsing --------------------------------------------------------------------

  function SkipWs(s: string): (r: string)
    ensures |r| <= |s|
  {
    if s != [] && IsAsciiWs(s[0]) then SkipWs(s[1..]) else s
  }

  /** After an opening quote: the unescaped text and what follows the closing quote. */
  function ReadQuoted(s: string): (r: Option<(string, string)>)
    ensures r.Some? ==> |r.value.1| < |s|
    decreases |s|
  {
    if s == [] then None
    else if s[0] == '"' then Some(("", s[1..]))
    else if s[0] == '\\' then
      if |s| == 1 then None
      else
        match ReadQuoted(s[2..])
        case None => None
        case Some((t, rest)) => Some(([s[1]] + t, rest))
    else
      match ReadQuoted(s[1..])
      case None => None
      case Some((t, rest)) => Some(([s[0]] + t, rest))
  }

  datatype Bare = Bare(text: string, escaped: bool, rest: string) | BareError(error: Error)

  /** An unquoted element up to a comma, a closing brace or the end of the text. */
  function ReadBare(s: string): (r: Bare)
    ensures r.Bare? ==> |r.rest| <= |s|
    decreases |s|
  {
    if s == [] || s[0] == ',' || s[0] == '}' then Bare("", false, s)
    else if s[0] == '{' then BareError(ArrayDimensions(2))
    else if s[0] == '\\' then
      if |s| == 1 then BareError(UnexpectedPayload)
      else
        match ReadBare(s[2..])
        case BareError(e) => BareError(e)
        case Bare(t, _, rest) => Bare([s[1]] + t, true, rest)
    else
      match ReadBare(s[1..])
      case BareError(e) => BareError(e)
      case Bare(t, esc, rest) => Bare([s[0]] + t, esc, rest)
  }

  function MakeElement<T>(c: Codec<T>, t: string, rest: string): (r: Result<(Option<T>, string), Error>)
    ensures r.Ok? ==> r.value.1 == rest
  {
    match c.dec(t)
    case Err(e) => Err(e)
    case Ok(x) => Ok((Some(x), rest))
  }

  function ReadElement<T>(c: Codec<T>, s: string): (r: Result<(Option<T>, string), Error>)
    ensures r.Ok? ==> |r.value.1| <= |s|
  {
    if s == [] then Err(UnexpectedPayload)
    else if s[0] == '"' then
      match ReadQuoted(s[1..])
      case None => Err(UnexpectedPayload)
      case Some((t, rest)) => MakeElement(c, t, rest)
    else
      match ReadBare(s)
      case BareError(e) => Err(e)
      case Bare(t, escaped, rest) => FinishBare(c, t, escaped, rest)
  }

  /** Escapes keep an unquoted element from being trimmed or read as NULL. */
  function FinishBare<T>(c: Codec<T>, t: string, escaped: bool, rest: string): (r: Result<(Option<T>, string), Error>)
    ensures r.Ok? ==> r.value.1 == rest
  {
    if escaped then if t == [] then Err(UnexpectedPayload) else MakeElement(c, t, rest)
    else
      var trimmed := TrimEnd(t, IsAsciiWs);
      if trimmed == [] then Err(UnexpectedPayload)
      else if IsNullWord(trimmed) then Ok((None, rest))
      else MakeElement(c, trimmed, rest)
  }

  /** Elements up to the closing brace, which is left unread. */
  function ReadElements<T>(c: Codec<T>, s: string): (r: Result<(seq<Option<T>>, string), Error>)
    ensures r.Ok? ==> |r.value.0| > 0 && |r.value.1| <= |s| && r.value.1 != [] && r.value.1[0] == '}'
    ensures r.Ok? ==> |r.value.0| <= |s| + 1
    decreases |s|
  {
    match ReadElement(c, SkipWs(s))
    case Err(e) => Err(e)
    case Ok((x, rest)) =>
      var next := SkipWs(rest);
      if next == [] then Err(UnexpectedPayload)
      else if next[0] == '}' then Ok(([x], next))
      else if next[0] != ',' then Err(UnexpectedPayload)
      else
        match ReadElements(c, next[1..])
        case Err(e) => Err(e)
        case Ok((xs, end)) => Ok(([x] + xs, end))
  }

  function ReadUntil(s: string, stop: char): (r: (string, string))
    ensures |r.1| <= |s|
  {
    if s == [] || s[0] == stop then ("", s)
    else
      var r := ReadUntil(s[1..], stop);
      ([s[0]] + r.0, r.1)
  }

  /** Drop one character, whatever it is, if there is one. */
  function Next(s: string): string {
    if s == [] then [] else s[1..]
  }

  datatype Bounds = Bounds(lower: int, expected: Option<int>, rest: string)

  function ReadBounds(s: string): Result<Bounds, Error> {
    if s == [] || s[0] != '[' then Ok(Bounds(1, None, s))
    else
      var (lb, s1) := ReadUntil(s[1..], ':');
      var (ub, s2) := ReadUntil(Next(s1), ']');
      MakeBounds(lb, ub, Next(Next(s2)))
  }

  function MakeBounds(lb: string, ub: string, rest: string): Result<Bounds, Error> {
    match (ParseSigned(lb, 10, I32_MIN, I32_MAX), ParseSigned(ub, 10, I32_MIN, I32_MAX))
    case (Some(l), Some(u)) =>
      if I32_MIN <= u - l <= I32_MAX && u - l + 1 <= I32_MAX then Ok(Bounds(l, Some(u - l + 1), rest))
      else Err(UnexpectedPayload)
    case _ => Err(UnexpectedPayload)
  }

  function Check<T>(elements: seq<Option<T>>, oid: int, b: Bounds, rest: string): Result<Array<T>, Error> {
    var size := WrapI32(|elements|);
    if rest != [] || (b.expected.Some? && b.expected.value != size) then Err(UnexpectedPayload)
    else Ok(Array(elements, oid, Dimension(size, b.lower)))
  }

  /** The braces and what is between them, once the bounds are read. */
  function DecodeBody<T>(c: Codec<T>, b: Bounds, oid: int): Result<Array<T>, Error> {
    if b.rest == [] || b.rest[0] != '{' then Err(UnexpectedPayload)
    else
      var s := SkipWs(b.rest[1..]);
      if s != [] && s[0] == '}' then Check([], oid, b, s[1..])
      else
        match ReadElements(c, s)
        case Err(e) => Err(e)
        case Ok((es, end)) => Check(es, oid, b, end[1..])
  }

  function DecodeText<T>(c: Codec<T>, input: string, oid: int): Result<Array<T>, Error> {
    match ReadBounds(Trim(input))
    case Err(e) => Err(e)
    case Ok(b) => DecodeBody(c, b, oid)
  }

  // ---- the round trip ----------------------------------------------------------------

  predicate Ends(s: string) {
    s != [] && (s[0] == ',' || s[0] == '}')
  }

  lemma {:induction false} ReadEscaped(t: string, rest: string)
    ensures ReadQuoted(Escape(t) + "\"" + rest) == Some((t, rest))
  {
    if t == [] {
      assert (Escape(t) + "\"" + rest)[1..] == rest;
    } else {
      hide ReadQuoted, EscapeChar;
      ReadEscaped(t[1..], rest);
      var e, tail := EscapeChar(t[0]), Escape(t[1..]) + "\"" + rest;
      assert Escape(t) + "\"" + rest == e + tail;
      ReadEscapedChar(t[0], tail);
      assert t == [t[0]] + t[1..];
    }
  }

  lemma ReadEscapedChar(c: char, tail: string)
    ensures var r := ReadQuoted(tail);
            ReadQuoted(EscapeChar(c) + tail) == if r.None? then None else Some(([c] + r.value.0, r.value.1))
  {
    var e := EscapeChar(c);
    assert (e + tail)[|e|..] == tail;
  }

  lemma {:induction false} ReadPlain(t: string, rest: string)
    requires forall i :: 0 <= i < |t| ==> !Special(t[i])
    requires Ends(rest)
    ensures ReadBare(t + rest) == Bare(t, false, rest)
  {
    if t == [] {
      assert t + rest == rest;
    } else {
      ReadPlain(t[1..], rest);
      assert (t + rest)[1..] == t[1..] + rest;
      assert t == [t[0]] + t[1..];
    }
  }

  /** The element is one its codec reads back from its own text. */
  predicate RoundTrips<T(==)>(c: Codec<T>, e: Option<T>) {
    e.Some? ==> c.enc(e.value).Ok? && c.dec(c.enc(e.value).value) == Ok(e.value)
  }

  /** A printed element reads back, whatever its text holds and whatever follows it. */
  lemma ReadPrinted<T>(c: Codec<T>, e: Option<T>, rest: string)
    requires RoundTrips(c, e) && Ends(rest)
    ensures PrintElement(c, e).Ok?
    ensures var p := PrintElement(c, e).value;
            p != [] && !IsAsciiWs(p[0]) && p[0] != '}' && ReadElement(c, p + rest) == Ok((e, rest))
  {
    hide ReadElement;
    match e {
      case None => ReadNull(c, rest);
      case Some(x) =>
        var t := c.enc(x).value;
        if NeedsQuoting(t) {
          ReadQuotedElement(c, t, rest);
        } else {
          ReadPlainElement(c, t, rest);
          assert !Special(t[0]);
        }
    }
  }

  lemma ReadNull<T>(c: Codec<T>, rest: string)
    requires Ends(rest)
    ensures ReadElement(c, "NULL" + rest) == Ok((None, rest))
  {
    ReadPlain("NULL", rest);
    hide ReadBare;
  }

  lemma ReadQuotedElement<T>(c: Codec<T>, t: string, rest: string)
    ensures ReadElement(c, "\"" + Escape(t) + "\"" + rest) == MakeElement(c, t, rest)
  {
    hide ReadQuoted, MakeElement, Escape;
    ReadEscaped(t, rest);
    assert ("\"" + Escape(t) + "\"" + rest)[1..] == Escape(t) + "\"" + rest;
  }

  lemma ReadPlainElement<T>(c: Codec<T>, t: string, rest: string)
    requires !NeedsQuoting(t) && Ends(rest)
    ensures ReadElement(c, t + rest) == MakeElement(c, t, rest)
  {
    hide ReadBare, MakeElement;
    ReadPlain(t, rest);
    assert !Special(t[0]) && !Special(t[|t| - 1]);
    assert (t + rest)[0] == t[0];
  }

  lemma {:induction false} ReadAllPrinted<T>(c: Codec<T>, es: seq<Option<T>>)
    requires es != [] && forall i :: 0 <= i < |es| ==> RoundTrips(c, es[i])
    ensures PrintElements(c, es).Ok?
    ensures ReadElements(c, PrintElements(c, es).value) == Ok((es, "}"))
    ensures PrintElements(c, es).value != [] && !IsAsciiWs(PrintElements(c, es).value[0]) && PrintElements(c, es).value[0] != '}'
  {
    hide ReadElement, PrintElement, RoundTrips;
    var e := es[0];
    assert RoundTrips(c, e);
    if |es| == 1 {
      assert es[1..] == [];
      ReadPrinted(c, e, "}");
      assert PrintElements(c, es[1..]) == Ok("}");
      var p := PrintElement(c, e).value;
      assert PrintElements(c, es).value == p + "" + "}" == p + "}";
      assert (p + "}")[0] == p[0];
      assert es == [e];
    } else {
      ReadAllPrinted(c, es[1..]);
      var more := PrintElements(c, es[1..]).value;
      ReadPrinted(c, e, "," + more);
      var p := PrintElement(c, e).value;
      assert PrintElements(c, es).value == p + "," + more == p + ("," + more);
      assert (p + ("," + more))[0] == p[0];
      assert ("," + more)[1..] == more;
      assert es == [e] + es[1..];
    }
  }

  lemma {:induction false} ReadUntilStop(t: string, stop: char, rest: string)
    requires stop !in t
    ensures ReadUntil(t + [stop] + rest, stop) == (t, [stop] + rest)
  {
    if t == [] {
      assert t + [stop] + rest == [stop] + rest;
    } else {
      ReadUntilStop(t[1..], stop, rest);
      assert (t + [stop] + rest)[1..] == t[1..] + [stop] + rest;
      assert t == [t[0]] + t[1..];
    }
  }

  /** What an array's size and bounds must satisfy to have a text form. */
  predicate WellFormed<T>(a: Array<T>) {
    && |a.elements| <= I32_MAX && a.dim.size == |a.elements| && I32_MIN <= a.dim.lower <= I32_MAX
    && (a.dim.lower != 1 ==> UpperBound(a.dim).Some?)
  }

  lemma BoundsScan(l: string, u: string, rest: string)
    requires ':' !in l && ']' !in u
    ensures ReadBounds("[" + l + ":" + u + "]=" + rest) == MakeBounds(l, u, rest)
  {
    hide MakeBounds, ReadUntil;
    var tail := "=" + rest;
    var s := "[" + l + ":" + u + "]=" + rest;
    assert s[1..] == l + [':'] + (u + "]" + tail);
    ReadUntilStop(l, ':', u + "]" + tail);
    assert Next([':'] + (u + "]" + tail)) == u + [']'] + tail;
    ReadUntilStop(u, ']', tail);
    assert Next([']'] + tail) == tail && Next(tail) == rest;
  }

  lemma PrintedBounds(lower: int, ub: int, rest: string)
    requires I32_MIN <= lower <= I32_MAX && I32_MIN <= ub <= I32_MAX && -1 <= ub - lower < I32_MAX
    ensures ReadBounds("[" + PrintSigned(lower, 10) + ":" + PrintSigned(ub, 10) + "]=" + rest)
         == Ok(Bounds(lower, Some(ub - lower + 1), rest))
  {
    hide ReadBounds, PrintSigned, ParseSigned;
    SignedFree(lower, ':');
    SignedFree(ub, ']');
    BoundsScan(PrintSigned(lower, 10), PrintSigned(ub, 10), rest);
    ParsePrintSigned(lower, 10, I32_MIN, I32_MAX);
    ParsePrintSigned(ub, 10, I32_MIN, I32_MAX);
  }

  lemma BoundsRoundTrip(dim: Dimension, rest: string)
    requires 0 <= dim.size <= I32_MAX && I32_MIN <= dim.lower <= I32_MAX && PrintBounds(dim).Ok?
    requires rest != [] && rest[0] == '{'
    ensures ReadBounds(PrintBounds(dim).value + rest)
            == Ok(Bounds(dim.lower, if dim.lower == 1 then None else Some(dim.size), rest))
  {
    hide PrintSigned, ReadUntil, MakeBounds;
    if dim.lower == 1 {
      assert "" + rest == rest;
    } else {
      PrintedBounds(dim.lower, UpperBound(dim).value, rest);
    }
  }

  lemma TrimClosed(s: string)
    requires s != [] && !IsUnicodeWs(s[0]) && !IsUnicodeWs(s[|s| - 1])
    ensures Trim(s) == s
  {
  }

  lemma {:induction false} PrintElementsCloses<T>(c: Codec<T>, es: seq<Option<T>>)
    requires PrintElements(c, es).Ok?
    ensures var p := PrintElements(c, es).value; p != [] && p[|p| - 1] == '}'
  {
    if es != [] { PrintElementsCloses(c, es[1..]); }
  }

  /** A bounds prefix, if there is one, opens with a bracket. */
  predicate BoundsStart(dim: Dimension)
    requires PrintBounds(dim).Ok?
  {
    var p := PrintBounds(dim).value;
    p == "" || p[0] == '['
  }

  lemma BoundsStartOk(dim: Dimension)
    requires PrintBounds(dim).Ok?
    ensures BoundsStart(dim)
  {
  }

  /**
   Printing then parsing gives the array back, for arbitrary element texts: empty ones, quotes,
   backslashes, braces, white space, and the word NULL against a real NULL.
   */
  lemma TextRoundTrip<T>(c: Codec<T>, a: Array<T>)
    requires WellFormed(a) && forall i :: 0 <= i < |a.elements| ==> RoundTrips(c, a.elements[i])
    ensures EncodeText(c, a).Ok? && DecodeText(c, EncodeText(c, a).value, a.oid) == Ok(a)
  {
    hide PrintElements, ReadBounds, PrintBounds, DecodeBody, Trim, WellFormed;
    BodyRoundTrip(c, a);
    PrintedText(c, a);
  }

  lemma PrintedText<T>(c: Codec<T>, a: Array<T>)
    requires WellFormed(a) && PrintElements(c, a.elements).Ok?
    ensures var body := PrintElements(c, a.elements).value;
            && EncodeText(c, a).Ok?
            && ReadBounds(Trim(EncodeText(c, a).value))
               == Ok(Bounds(a.dim.lower, if a.dim.lower == 1 then None else Some(a.dim.size), "{" + body))
  {
    hide PrintElements, ReadBounds, Trim;
    var bounds, body := PrintBounds(a.dim).value, PrintElements(c, a.elements).value;
    PrintElementsCloses(c, a.elements);
    BoundsStartOk(a.dim);
    BoundsRoundTrip(a.dim, "{" + body);
    TrimPrinted(bounds, body);
    assert bounds + "{" + body == bounds + ("{" + body);
  }

  lemma TrimPrinted(bounds: string, body: string)
    requires (bounds == "" || bounds[0] == '[') && body != [] && body[|body| - 1] == '}'
    ensures Trim(bounds + "{" + body) == bounds + "{" + body
  {
    var s := bounds + "{" + body;
    assert s[|s| - 1] == '}' && (s[0] == '[' || s[0] == '{');
    TrimClosed(s);
  }

  lemma BodyRoundTrip<T>(c: Codec<T>, a: Array<T>)
    requires WellFormed(a) && forall i :: 0 <= i < |a.elements| ==> RoundTrips(c, a.elements[i])
    ensures PrintElements(c, a.elements).Ok?
    ensures DecodeBody(c, Bounds(a.dim.lower, if a.dim.lower == 1 then None else Some(a.dim.size),
                                 "{" + PrintElements(c, a.elements).value), a.oid) == Ok(a)
  {
    if a.elements != [] {
      ReadAllPrinted(c, a.elements);
    }
    var body := PrintElements(c, a.elements).value;
    assert a.elements == [] ==> body == "}";
    hide PrintElements, ReadElements, RoundTrips;
    assert ("{" + body)[1..] == body;
    assert SkipWs(body) == body;
  }

  /** The elements print exactly when every one that is not NULL can be encoded. */
  lemma {:induction false} PrintsIff<T>(c: Codec<T>, es: seq<Option<T>>)
    ensures PrintElements(c, es).Ok? <==> forall i :: 0 <= i < |es| && es[i].Some? ==> c.enc(es[i].value).Ok?
  {
    if es != [] {
      PrintsIff(c, es[1..]);
      assert forall i :: 1 <= i < |es| ==> es[i] == es[1..][i - 1];
      assert forall i :: 0 <= i < |es[1..]| ==> es[1..][i] == es[i + 1];
    }
  }

  /** Whatever text was accepted, the array has a text form again. */
  lemma DecodedIsWellFormed<T>(c: Codec<T>, input: string, oid: int)
    requires |Trim(input)| < I32_MAX && DecodeText(c, input, oid).Ok?
    ensures WellFormed(DecodeText(c, input, oid).value) && DecodeText(c, input, oid).value.oid == oid
  {
    hide ReadElements, ReadBounds, Trim;
    BoundsShape(Trim(input));
  }

  lemma BoundsShape(s: string)
    requires ReadBounds(s).Ok?
    ensures var b := ReadBounds(s).value;
            && |b.rest| <= |s| && I32_MIN <= b.lower <= I32_MAX
            && (b.expected == None ==> b.lower == 1)
            && (b.expected.Some? ==> I32_MIN <= b.lower + b.expected.value - 1 <= I32_MAX)
  {
  }
}
