/** The array printer and parser as loops over a growing string and a character iterator. */
module ArrayTextProcedures {
  import opened Common
  import opened Digits
  import opened ArrayText

  lemma {:induction false} EscapeAppend(t: string, ch: char)
    ensures Escape(t + [ch]) == Escape(t) + EscapeChar(ch)
  {
    hide EscapeChar;
    if t == [] {
      assert [ch][1..] == [] && EscapeChar(ch) + [] == EscapeChar(ch);
      assert t + [ch] == [ch];
    } else {
      EscapeAppend(t[1..], ch);
      assert (t + [ch])[1..] == t[1..] + [ch];
      assert EscapeChar(t[0]) + (Escape(t[1..]) + EscapeChar(ch)) == EscapeChar(t[0]) + Escape(t[1..]) + EscapeChar(ch);
    }
  }

  method PushQuoted(result: string, t: string) returns (r: string)
    ensures r == result + ("\"" + Escape(t) + "\"")
  {
    hide Escape;
    var open := result + "\"";
    r := open;
    EscapeNone();
    for i := 0 to |t|
      invariant r == open + Escape(t[..i])
    {
      EscapeAppend(t[..i], t[i]);
      assert t[..i + 1] == t[..i] + [t[i]];
      assert open + Escape(t[..i]) + EscapeChar(t[i]) == open + (Escape(t[..i]) + EscapeChar(t[i]));
      match t[i] {
        case '"' => r := r + "\\\"";
        case '\\' => r := r + "\\\\";
        case ch => r := r + [ch];
      }
    }
    assert t[..|t|] == t;
    r := r + "\"";
  }

  lemma EscapeNone()
    ensures Escape([]) == []
  {
  }

  /** What is printed so far, with the separator due before the next element, leads to the whole. */
  predicate Continues<T(==)>(c: Codec<T>, es: seq<Option<T>>, i: nat, printed: string)
    requires i <= |es|
  {
    match PrintElements(c, es[i..])
    case Err(e) => PrintElements(c, es) == Err(e)
    case Ok(rest) => PrintElements(c, es) == Ok(printed + (if 0 < i < |es| then "," else "") + rest)
  }

  lemma ContinuesStart<T>(c: Codec<T>, es: seq<Option<T>>)
    ensures Continues(c, es, 0, "")
  {
    assert es[0..] == es;
    if PrintElements(c, es).Ok? {
      assert "" + "" + PrintElements(c, es).value == PrintElements(c, es).value;
    }
  }

  lemma ContinuesEnd<T>(c: Codec<T>, es: seq<Option<T>>, printed: string)
    requires Continues(c, es, |es|, printed)
    ensures PrintElements(c, es) == Ok(printed + "}")
  {
    assert es[|es|..] == [];
    assert printed + "" + "}" == printed + "}";
  }

  lemma ContinuesNext<T>(c: Codec<T>, es: seq<Option<T>>, i: nat, printed: string)
    requires i < |es| && Continues(c, es, i, printed)
    ensures PrintElement(c, es[i]).Err? ==> PrintElements(c, es) == Err(PrintElement(c, es[i]).error)
    ensures PrintElement(c, es[i]).Ok? ==>
              Continues(c, es, i + 1, printed + (if i > 0 then "," else "") + PrintElement(c, es[i]).value)
  {
    hide PrintElement;
    assert es[i..][0] == es[i] && es[i..][1..] == es[i + 1..];
    if PrintElement(c, es[i]).Ok? && PrintElements(c, es[i + 1..]).Ok? {
      var t, rest := PrintElement(c, es[i]).value, PrintElements(c, es[i + 1..]).value;
      Regroup(printed + if i > 0 then "," else "", t, if i + 1 < |es| then "," else "", rest);
    }
  }

  lemma Regroup(a: string, b: string, c: string, d: string)
    ensures a + (b + c + d) == a + b + c + d
  {
  }

  method PushElement<T>(c: Codec<T>, e: Option<T>, result: string) returns (r: Result<string, Error>)
    ensures var p := PrintElement(c, e);
            r == if p.Err? then Err(p.error) else Ok(result + p.value)
  {
    hide NeedsQuoting, Escape;
    match e {
      case None => return Ok(result + "NULL");
      case Some(x) =>
        var t := c.enc(x);
        if t.Err? {
          return Err(t.error);
        }
        if NeedsQuoting(t.value) {
          var quoted := PushQuoted(result, t.value);
          return Ok(quoted);
        }
        return Ok(result + t.value);
    }
  }

  method Encode<T>(c: Codec<T>, a: Array<T>) returns (r: Result<string, Error>)
    ensures r == EncodeText(c, a)
  {
    hide PrintElement, PrintElements, PrintBounds;
    var bounds := PrintBounds(a.dim);
    if bounds.Err? {
      return Err(bounds.error);
    }
    var result := "";
    ContinuesStart(c, a.elements);
    for i := 0 to |a.elements|
      invariant Continues(c, a.elements, i, result)
    {
      ContinuesNext(c, a.elements, i, result);
      var separated := if i > 0 then result + "," else result;
      assert separated == result + if i > 0 then "," else "";
      var pushed := PushElement(c, a.elements[i], separated);
      if pushed.Err? {
        return Err(pushed.error);
      }
      result := pushed.value;
    }
    ContinuesEnd(c, a.elements, result);
    return Ok(bounds.value + "{" + (result + "}"));
  }

  method SkipSpace(s: string) returns (chars: string)
    ensures chars == SkipWs(s)
  {
    chars := s;
    while chars != [] && IsAsciiWs(chars[0])
      invariant SkipWs(chars) == SkipWs(s)
    {
      chars := chars[1..];
    }
  }

  function BeforeQuoted(elem: string, r: Option<(string, string)>): Option<(string, string)> {
    match r
    case None => None
    case Some((t, rest)) => Some((elem + t, rest))
  }

  lemma BeforeQuotedStep(elem: string, ch: char, r: Option<(string, string)>)
    ensures BeforeQuoted("", r) == r
    ensures BeforeQuoted(elem, BeforeQuoted([ch], r)) == BeforeQuoted(elem + [ch], r)
  {
    if r.Some? {
      assert "" + r.value.0 == r.value.0 && elem + ([ch] + r.value.0) == elem + [ch] + r.value.0;
    }
  }

  method CollectQuoted(s: string) returns (r: Option<(string, string)>)
    ensures r == ReadQuoted(s)
  {
    var elem, chars := "", s;
    BeforeQuotedStep("", ' ', ReadQuoted(s));
    while true
      invariant ReadQuoted(s) == BeforeQuoted(elem, ReadQuoted(chars))
      decreases |chars|
    {
      if chars == [] {
        return None;
      }
      var ch := chars[0];
      if ch == '\\' {
        if |chars| > 1 {
          BeforeQuotedStep(elem, chars[1], ReadQuoted(chars[2..]));
          elem, chars := elem + [chars[1]], chars[2..];
        } else {
          chars := chars[1..];
        }
      } else if ch == '"' {
        assert elem + "" == elem;
        return Some((elem, chars[1..]));
      } else {
        BeforeQuotedStep(elem, ch, ReadQuoted(chars[1..]));
        elem, chars := elem + [ch], chars[1..];
      }
    }
  }

  function BeforeBare(elem: string, escapes: bool, r: Bare): Bare {
    match r
    case BareError(e) => BareError(e)
    case Bare(t, esc, rest) => Bare(elem + t, escapes || esc, rest)
  }

  lemma BeforeBareStep(elem: string, escapes: bool, ch: char, esc: bool, r: Bare)
    ensures BeforeBare("", false, r) == r
    ensures BeforeBare(elem, escapes, BeforeBare([ch], esc, r)) == BeforeBare(elem + [ch], escapes || esc, r)
  {
    if r.Bare? {
      assert "" + r.text == r.text && elem + ([ch] + r.text) == elem + [ch] + r.text;
    }
  }

  method CollectBare(s: string) returns (r: Bare)
    ensures r == ReadBare(s)
  {
    var elem, chars, escapes := "", s, false;
    BeforeBareStep("", false, ' ', false, ReadBare(s));
    while chars != [] && chars[0] != ',' && chars[0] != '}'
      invariant ReadBare(s) == BeforeBare(elem, escapes, ReadBare(chars))
      decreases |chars|
    {
      var ch := chars[0];
      if ch == '{' {
        return BareError(ArrayDimensions(2));
      }
      if ch == '\\' {
        if |chars| == 1 {
          return BareError(UnexpectedPayload);
        }
        BeforeBareStep(elem, escapes, chars[1], true, ReadBare(chars[2..]));
        elem, chars, escapes := elem + [chars[1]], chars[2..], true;
      } else {
        BeforeBareStep(elem, escapes, ch, false, ReadBare(chars[1..]));
        elem, chars := elem + [ch], chars[1..];
      }
    }
    assert elem + "" == elem;
    return Bare(elem, escapes, chars);
  }

  method CollectUntil(s: string, stop: char) returns (t: string, chars: string)
    ensures (t, chars) == ReadUntil(s, stop)
  {
    t, chars := "", s;
    assert "" + ReadUntil(s, stop).0 == ReadUntil(s, stop).0;
    while chars != [] && chars[0] != stop
      invariant ReadUntil(s, stop).0 == t + ReadUntil(chars, stop).0
      invariant ReadUntil(s, stop).1 == ReadUntil(chars, stop).1
    {
      ghost var u := ReadUntil(chars[1..], stop).0;
      assert t + ([chars[0]] + u) == t + [chars[0]] + u;
      t, chars := t + [chars[0]], chars[1..];
    }
    assert t + "" == t;
  }

  method CollectElement<T>(c: Codec<T>, chars: string) returns (r: Result<(Option<T>, string), Error>)
    ensures r == ReadElement(c, chars)
  {
    if chars == [] {
      return Err(UnexpectedPayload);
    }
    if chars[0] == '"' {
      var q := CollectQuoted(chars[1..]);
      match q {
        case None => return Err(UnexpectedPayload);
        case Some((t, rest)) => return MakeElement(c, t, rest);
      }
    }
    var b := CollectBare(chars);
    match b {
      case BareError(e) => return Err(e);
      case Bare(t, escaped, rest) => return FinishBare(c, t, escaped, rest);
    }
  }

  function BeforeElements<T>(xs: seq<Option<T>>, r: Result<(seq<Option<T>>, string), Error>)
    : Result<(seq<Option<T>>, string), Error>
  {
    match r
    case Err(e) => Err(e)
    case Ok((ys, end)) => Ok((xs + ys, end))
  }

  lemma BeforeElementsStep<T>(xs: seq<Option<T>>, x: Option<T>, r: Result<(seq<Option<T>>, string), Error>)
    ensures BeforeElements([], r) == r
    ensures BeforeElements(xs, BeforeElements([x], r)) == BeforeElements(xs + [x], r)
  {
    if r.Ok? {
      assert [] + r.value.0 == r.value.0 && xs + ([x] + r.value.0) == xs + [x] + r.value.0;
    }
  }

  /** One turn of the element loop: an element, then a comma or the closing brace. */
  lemma ReadElementsStep<T>(c: Codec<T>, s: string)
    ensures var e := ReadElement(c, SkipWs(s));
            && (e.Err? ==> ReadElements(c, s) == Err(e.error))
            && (e.Ok? ==>
                  var next := SkipWs(e.value.1);
                  && (next == [] || (next[0] != ',' && next[0] != '}') ==> ReadElements(c, s) == Err(UnexpectedPayload))
                  && (next != [] && next[0] == '}' ==> ReadElements(c, s) == Ok(([e.value.0], next)))
                  && (next != [] && next[0] == ',' ==>
                        ReadElements(c, s) == BeforeElements([e.value.0], ReadElements(c, next[1..]))))
  {
  }

  method CollectElements<T>(c: Codec<T>, s: string) returns (r: Result<(seq<Option<T>>, string), Error>)
    ensures r == ReadElements(c, s)
  {
    hide ReadElements, ReadElement;
    var elements: seq<Option<T>>, chars := [], s;
    BeforeElementsStep([], None, ReadElements(c, s));
    while true
      invariant ReadElements(c, s) == BeforeElements(elements, ReadElements(c, chars))
      decreases |chars|
    {
      ReadElementsStep(c, chars);
      var start := SkipSpace(chars);
      var e := CollectElement(c, start);
      if e.Err? {
        return Err(e.error);
      }
      var (x, rest) := e.value;
      var next := SkipSpace(rest);
      if next == [] || (next[0] != ',' && next[0] != '}') {
        return Err(UnexpectedPayload);
      }
      if next[0] == '}' {
        return Ok((elements + [x], next));
      }
      BeforeElementsStep(elements, x, ReadElements(c, next[1..]));
      elements, chars := elements + [x], next[1..];
    }
  }

  method CollectBounds(s: string) returns (r: Result<Bounds, Error>)
    ensures r == ReadBounds(s)
  {
    hide ReadUntil, MakeBounds;
    if s == [] || s[0] != '[' {
      return Ok(Bounds(1, None, s));
    }
    var lb, s1 := CollectUntil(s[1..], ':');
    var ub, s2 := CollectUntil(Next(s1), ']');
    r := CheckBounds(lb, ub, Next(Next(s2)));
  }

  method CheckBounds(lb: string, ub: string, rest: string) returns (r: Result<Bounds, Error>)
    ensures r == MakeBounds(lb, ub, rest)
  {
    hide ParseSigned;
    match (ParseSigned(lb, 10, I32_MIN, I32_MAX), ParseSigned(ub, 10, I32_MIN, I32_MAX)) {
      case (Some(l), Some(u)) =>
        if !(I32_MIN <= u - l <= I32_MAX) || u - l + 1 > I32_MAX {
          return Err(UnexpectedPayload);
        }
        return Ok(Bounds(l, Some(u - l + 1), rest));
      case _ => return Err(UnexpectedPayload);
    }
  }

  method Decode<T>(c: Codec<T>, input: string, oid: int) returns (r: Result<Array<T>, Error>)
    ensures r == DecodeText(c, input, oid)
  {
    hide ReadElements, ReadBounds, Trim, Check;
    var bounds := CollectBounds(Trim(input));
    if bounds.Err? {
      return Err(bounds.error);
    }
    var b := bounds.value;
    if b.rest == [] || b.rest[0] != '{' {
      return Err(UnexpectedPayload);
    }
    var chars := SkipSpace(b.rest[1..]);
    if chars != [] && chars[0] == '}' {
      return Check([], oid, b, chars[1..]);
    }
    var es := CollectElements(c, chars);
    match es {
      case Err(e) => return Err(e);
      case Ok((elements, end)) => return Check(elements, oid, b, end[1..]);
    }
  }
}
