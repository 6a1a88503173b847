/** `JSON.stringify` and `JSON.parse` for the one shape the pages store: an
    array of strings (the completed challenge ids). Stringify writes the
    compact form (no whitespace) and escapes as ECMAScript's QuoteJSONString
    does; Parse accepts JSON whitespace around the tokens and every escape of
    section 7 of RFC 8259 except surrogate-pair `\u` escapes. */
module Json {
  import opened Seqs
  import opened JsText

  /** The lower-case hexadecimal digit for `d`. */
  function HexDigitChar(d: nat): (c: char)
    requires d < 16
    ensures IsDigitIn(c, 16) && DigitValue(c, 16) == d
  {
    if d < 10 then ('0' as int + d) as char else ('a' as int + d - 10) as char
  }

  /** How one character appears inside a JSON string literal. */
  function EscapeChar(c: char): (r: string)
    ensures |r| >= 1
  {
    if c == '"' then ['\\', '"']
    else if c == '\\' then ['\\', '\\']
    else if c as int == 0x08 then ['\\', 'b']
    else if c as int == 0x0C then ['\\', 'f']
    else if c as int == 0x0A then ['\\', 'n']
    else if c as int == 0x0D then ['\\', 'r']
    else if c as int == 0x09 then ['\\', 't']
    else if c as int < 0x20 then ['\\', 'u', '0', '0', HexDigitChar(c as int / 16), HexDigitChar(c as int % 16)]
    else [c]
  }

  function EscapeString(s: string): string
    decreases |s|
  {
    if s == [] then [] else EscapeChar(s[0]) + EscapeString(s[1..])
  }

  /** `JSON.stringify` of one string. */
  function Quote(s: string): (r: string)
    ensures |r| >= 2 && r[0] == '"'
  {
    ['"'] + EscapeString(s) + ['"']
  }

  /** The comma-separated elements of a string array. */
  function Elements(xs: seq<string>): (r: string)
    ensures r == [] <==> xs == []
    ensures r != [] ==> r[0] == '"'
    decreases |xs|
  {
    if xs == [] then []
    else if |xs| == 1 then Quote(xs[0])
    else Quote(xs[0]) + [','] + Elements(xs[1..])
  }

  /** `JSON.stringify` of an array of strings. */
  function Stringify(xs: seq<string>): string
  {
    ['['] + Elements(xs) + [']']
  }

  predicate IsJsonWhitespace(c: char)
  {
    c == ' ' || c == '\t' || c == '\n' || c == '\r'
  }

  function SkipWhitespace(s: string): (r: string)
    ensures |r| <= |s|
    decreases |s|
  {
    if s != [] && IsJsonWhitespace(s[0]) then SkipWhitespace(s[1..]) else s
  }

  /** The code point written by four hexadecimal digits. */
  function Hex4(a: char, b: char, c: char, d: char): nat
    requires IsDigitIn(a, 16) && IsDigitIn(b, 16) && IsDigitIn(c, 16) && IsDigitIn(d, 16)
  {
    ((DigitValue(a, 16) * 16 + DigitValue(b, 16)) * 16 + DigitValue(c, 16)) * 16 + DigitValue(d, 16)
  }

  /** Decodes the escape sequence that follows a backslash; the rest of the input is returned with it. */
  function ParseEscape(t: string): (r: Option<(char, string)>)
    ensures r.Some? ==> |r.value.1| < |t|
  {
    if t == [] then None
    else if t[0] == '"' || t[0] == '\\' || t[0] == '/' then Some((t[0], t[1..]))
    else if t[0] == 'b' then Some((0x08 as char, t[1..]))
    else if t[0] == 'f' then Some((0x0C as char, t[1..]))
    else if t[0] == 'n' then Some((0x0A as char, t[1..]))
    else if t[0] == 'r' then Some((0x0D as char, t[1..]))
    else if t[0] == 't' then Some((0x09 as char, t[1..]))
    else if t[0] == 'u' && |t| >= 5 && IsDigitIn(t[1], 16) && IsDigitIn(t[2], 16)
            && IsDigitIn(t[3], 16) && IsDigitIn(t[4], 16) then
      var v := Hex4(t[1], t[2], t[3], t[4]);
      if 0xD800 <= v < 0xE000 then None else Some((v as char, t[5..]))
    else None
  }

  /** Decodes the characters of a string literal up to its closing quote;
      returns them with the input that follows the quote. */
  function ParseStringBody(t: string): (r: Option<(string, string)>)
    ensures r.Some? ==> |r.value.1| < |t|
    decreases |t|
  {
    if t == [] then None
    else if t[0] == '"' then Some(([], t[1..]))
    else if t[0] as int < 0x20 then None
    else
      var unit := if t[0] == '\\' then ParseEscape(t[1..]) else Some((t[0], t[1..]));
      match unit
      case None => None
      case Some((c, rest)) =>
        match ParseStringBody(rest)
        case None => None
        case Some((cs, after)) => Some(([c] + cs, after))
  }

  function ParseString(t: string): (r: Option<(string, string)>)
    ensures r.Some? ==> |r.value.1| < |t|
  {
    if t != [] && t[0] == '"' then ParseStringBody(t[1..]) else None
  }

  /** Parses `"..." , "..." ... ]`, the elements of a non-empty array and its
      closing bracket; returns them with the input that follows. */
  function ParseElements(t: string): (r: Option<(seq<string>, string)>)
    decreases |t|
  {
    match ParseString(t)
    case None => None
    case Some((x, rest)) =>
      var rest := SkipWhitespace(rest);
      if rest != [] && rest[0] == ']' then Some(([x], rest[1..]))
      else if rest != [] && rest[0] == ',' then
        match ParseElements(SkipWhitespace(rest[1..]))
        case None => None
        case Some((xs, after)) => Some(([x] + xs, after))
      else None
  }

  /** `JSON.parse` of a text that must hold an array of strings; `None` where
      `JSON.parse` would throw or would yield something else. */
  function Parse(s: string): Option<seq<string>>
  {
    var t := SkipWhitespace(s);
    if t == [] || t[0] != '[' then None
    else
      var u := SkipWhitespace(t[1..]);
      var items: Option<(seq<string>, string)> := if u != [] && u[0] == ']' then Some(([], u[1..])) else ParseElements(u);
      match items
      case None => None
      case Some((xs, rest)) => if SkipWhitespace(rest) == [] then Some(xs) else None
  }

  /** One escaped character is decoded back to itself, whatever follows it. */
  lemma ParseEscapedChar(c: char, w: string)
    ensures ParseStringBody(EscapeChar(c) + w) ==
      match ParseStringBody(w)
      case None => None
      case Some((cs, after)) => Some(([c] + cs, after))
  {
    var e := EscapeChar(c);
    var t := e + w;
    assert t[0] == e[0];
    if |e| == 1 {
      assert t[1..] == w;
    } else if |e| == 2 {
      assert t[1..] == [e[1]] + w;
      assert t[1..][1..] == w;
    } else {
      var hi, lo := HexDigitChar(c as int / 16), HexDigitChar(c as int % 16);
      assert t[1..] == ['u', '0', '0', hi, lo] + w;
      assert t[1..][5..] == w;
      assert Hex4('0', '0', hi, lo) == c as int;
    }
  }

  lemma {:induction false} ParseStringBodyOfEscaped(s: string, tail: string)
    ensures ParseStringBody(EscapeString(s) + ['"'] + tail) == Some((s, tail))
    decreases |s|
  {
    if s == [] {
      assert EscapeString(s) + ['"'] + tail == ['"'] + tail;
    } else {
      var w := EscapeString(s[1..]) + ['"'] + tail;
      assert EscapeString(s) + ['"'] + tail == EscapeChar(s[0]) + w;
      ParseStringBodyOfEscaped(s[1..], tail);
      ParseEscapedChar(s[0], w);
      assert [s[0]] + s[1..] == s;
    }
  }

  /** A quoted string parses back to itself, whatever follows it. */
  lemma ParseStringOfQuote(s: string, tail: string)
    ensures ParseString(Quote(s) + tail) == Some((s, tail))
  {
    var t := Quote(s) + tail;
    assert t[1..] == EscapeString(s) + ['"'] + tail;
    ParseStringBodyOfEscaped(s, tail);
  }

  /** After an element, the parser sees `]` and stops. */
  lemma ParseElementsOfLast(x: string, tail: string)
    ensures ParseElements(Quote(x) + ([']'] + tail)) == Some(([x], tail))
  {
    ParseStringOfQuote(x, [']'] + tail);
    assert ([']'] + tail)[1..] == tail;
    assert SkipWhitespace([']'] + tail) == [']'] + tail;
  }

  /** After an element, the parser sees `,` and goes on with the next one. */
  lemma ParseElementsOfComma(x: string, more: string)
    requires more != [] && more[0] == '"'
    ensures ParseElements(Quote(x) + ([','] + more)) ==
      match ParseElements(more)
      case None => None
      case Some((xs, after)) => Some(([x] + xs, after))
  {
    ParseStringOfQuote(x, [','] + more);
    assert ([','] + more)[1..] == more;
    assert SkipWhitespace([','] + more) == [','] + more;
    assert SkipWhitespace(more) == more;
  }

  lemma {:induction false} ParseElementsOfElements(xs: seq<string>, tail: string)
    requires xs != []
    ensures ParseElements(Elements(xs) + [']'] + tail) == Some((xs, tail))
    decreases |xs|
  {
    if |xs| == 1 {
      ElementsOfOne(xs, tail);
      ParseElementsOfLast(xs[0], tail);
      assert [xs[0]] == xs;
    } else {
      var more := Elements(xs[1..]) + [']'] + tail;
      ElementsOfMore(xs, tail);
      ParseElementsOfComma(xs[0], more);
      ParseElementsOfElements(xs[1..], tail);
      assert [xs[0]] + xs[1..] == xs;
    }
  }

  lemma ElementsOfOne(xs: seq<string>, tail: string)
    requires |xs| == 1
    ensures Elements(xs) + [']'] + tail == Quote(xs[0]) + ([']'] + tail)
  {
  }

  lemma {:induction false} ElementsOfMore(xs: seq<string>, tail: string)
    requires |xs| > 1
    ensures var more := Elements(xs[1..]) + [']'] + tail;
      && Elements(xs) + [']'] + tail == Quote(xs[0]) + ([','] + more)
      && more != [] && more[0] == '"'
  {
    var q, e := Quote(xs[0]), Elements(xs[1..]);
    assert Elements(xs) == q + [','] + e;
    ConcatRegroup(q, [','], e, [']'], tail);
  }

  lemma ConcatRegroup(a: string, b: string, c: string, d: string, e: string)
    ensures a + b + c + d + e == a + (b + (c + d + e))
  {
  }

  /** What `JSON.stringify` writes, `JSON.parse` reads back: the stored
      completion list survives a reload unchanged, order included. */
  lemma ParseOfStringify(xs: seq<string>)
    ensures Parse(Stringify(xs)) == Some(xs)
  {
    var s := Stringify(xs);
    assert SkipWhitespace(s) == s;
    var u := Elements(xs) + [']'] + [];
    assert s[1..] == u;
    if xs == [] {
      assert u == [']'];
    } else {
      assert u[0] == '"';
      assert SkipWhitespace(u) == u;
      ParseElementsOfElements(xs, []);
    }
  }
}
