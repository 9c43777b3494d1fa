/**
 * The JSON text of an array of strings, as `JSON.stringify` writes it and as a
 * reader of RFC 8259 (section 5, arrays; section 7, strings) reads it back.
 *
 * Characters are Unicode scalar values, so the lone surrogates that
 * `JSON.stringify` escapes as `\uDXXX` cannot occur.
 */
module JsonArray {
  import opened Wrappers

  // ---------------------------------------------------------------------
  // Hexadecimal digits
  // ---------------------------------------------------------------------

  /** The lower-case hexadecimal digit for `d`. */
  function HexDigit(d: nat): (c: char)
    requires d < 16
    ensures HexValue(c) == Some(d)
  {
    if d < 10 then ('0' as int + d) as char else ('a' as int + (d - 10)) as char
  }

  /** The value of a hexadecimal digit of either case (RFC 8259, HEXDIG). */
  function HexValue(c: char): (r: Option<nat>)
    ensures r.Some? ==> r.value < 16
  {
    if '0' <= c <= '9' then Some(c as int - '0' as int)
    else if 'a' <= c <= 'f' then Some(c as int - 'a' as int + 10)
    else if 'A' <= c <= 'F' then Some(c as int - 'A' as int + 10)
    else None
  }

  /** The value of four hexadecimal digits, as in a `\uXXXX` escape. */
  function Hex4Value(s: string): (r: Option<nat>)
    requires |s| == 4
    ensures r.Some? ==> r.value < 0x1_0000
  {
    match (HexValue(s[0]), HexValue(s[1]), HexValue(s[2]), HexValue(s[3]))
    case (Some(a), Some(b), Some(c), Some(d)) => Some(((a * 16 + b) * 16 + c) * 16 + d)
    case _ => None
  }

  /** Code points that are Unicode scalar values, i.e. Dafny characters. */
  predicate IsScalar(v: int) {
    (0 <= v < 0xD800) || (0xE000 <= v < 0x11_0000)
  }

  // ---------------------------------------------------------------------
  // Writing
  // ---------------------------------------------------------------------

  /**
   * How `JSON.stringify` writes one character inside a string: the two-character
   * escapes for quote, backslash, backspace, form feed, line feed, carriage return
   * and tab, `\u00xx` with lower-case hex for the other control characters, and
   * every other character as itself.
   */
  function EscapeChar(c: char): (r: string)
    ensures r != [] && (r[0] == '\\' || (r == [c] && c != '"' && c != '\\' && 0x20 <= c as int))
  {
    if c == '"' then "\\\""
    else if c == '\\' then "\\\\"
    else if c == '\U{8}' then "\\b"
    else if c == '\U{c}' then "\\f"
    else if c == '\n' then "\\n"
    else if c == '\r' then "\\r"
    else if c == '\t' then "\\t"
    else if (c as int) < 0x20 then "\\u00" + [HexDigit(c as int / 16), HexDigit(c as int % 16)]
    else [c]
  }

  /** The characters of `s`, each escaped. */
  function EscapeBody(s: string): (r: string)
    ensures |r| >= |s|
  {
    if s == [] then [] else EscapeChar(s[0]) + EscapeBody(s[1..])
  }

  /** A JSON string literal for `s`. */
  function Quote(s: string): (r: string)
    ensures |r| >= 2 && r[0] == '"' && r[|r| - 1] == '"'
  {
    "\"" + EscapeBody(s) + "\""
  }

  /** The elements of an array separated by commas, without white space. */
  function EncodeElements(xs: seq<string>): (r: string)
    ensures xs == [] <==> r == ""
  {
    if xs == [] then ""
    else if |xs| == 1 then Quote(xs[0])
    else Quote(xs[0]) + "," + EncodeElements(xs[1..])
  }

  /** `JSON.stringify(xs)` for an array of strings. */
  function Encode(xs: seq<string>): (t: string)
    ensures |t| >= 2 && t[0] == '[' && t[|t| - 1] == ']'
  {
    "[" + EncodeElements(xs) + "]"
  }

  // ---------------------------------------------------------------------
  // Reading
  // ---------------------------------------------------------------------

  /** The insignificant white space of RFC 8259 (section 2). */
  predicate IsJsonWhitespace(c: char) {
    c == ' ' || c == '\t' || c == '\n' || c == '\r'
  }

  /** `t` without its leading white space. */
  function SkipWhitespace(t: string): (r: string)
    ensures |r| <= |t|
    ensures r != [] ==> !IsJsonWhitespace(r[0])
  {
    if t != [] && IsJsonWhitespace(t[0]) then SkipWhitespace(t[1..]) else t
  }

  /**
   * Reads the escape that follows a backslash: the character it stands for and
   * the rest of the text. `\u` escapes that name a surrogate are not read.
   */
  function ParseEscape(t: string): (r: Option<(char, string)>)
    ensures r.Some? ==> |r.value.1| < |t|
  {
    if t == [] then None
    else if t[0] == '"' then Some(('"', t[1..]))
    else if t[0] == '\\' then Some(('\\', t[1..]))
    else if t[0] == '/' then Some(('/', t[1..]))
    else if t[0] == 'b' then Some(('\U{8}', t[1..]))
    else if t[0] == 'f' then Some(('\U{c}', t[1..]))
    else if t[0] == 'n' then Some(('\n', t[1..]))
    else if t[0] == 'r' then Some(('\r', t[1..]))
    else if t[0] == 't' then Some(('\t', t[1..]))
    else if t[0] == 'u' && |t| >= 5 then
      match Hex4Value(t[1..5])
      case Some(v) => if IsScalar(v) then Some((v as char, t[5..])) else None
      case None => None
    else None
  }

  /**
   * Reads the characters of a string literal up to and including its closing
   * quote: the decoded characters and the text after the quote. Unescaped
   * control characters are refused (RFC 8259, section 7).
   */
  function ParseChars(t: string): (r: Option<(string, string)>)
    ensures r.Some? ==> |r.value.1| < |t|
    decreases |t|
  {
    if t == [] then None
    else if t[0] == '"' then Some(([], t[1..]))
    else if t[0] == '\\' then
      match ParseEscape(t[1..])
      case None => None
      case Some((c, u)) =>
        match ParseChars(u)
        case None => None
        case Some((s, rest)) => Some(([c] + s, rest))
    else if (t[0] as int) < 0x20 then None
    else
      match ParseChars(t[1..])
      case None => None
      case Some((s, rest)) => Some(([t[0]] + s, rest))
  }

  /**
   * Reads `string ws (',' ws string ws)* ']' ws` up to the end of the text:
   * the elements of a non-empty array after its opening bracket.
   */
  function ParseElements(t: string): (r: Option<seq<string>>)
    ensures r.Some? ==> r.value != []
    decreases |t|
  {
    if t == [] || t[0] != '"' then None
    else
      match ParseChars(t[1..])
      case None => None
      case Some((s, u)) =>
        var u1 := SkipWhitespace(u);
        if u1 == [] then None
        else if u1[0] == ']' then (if SkipWhitespace(u1[1..]) == [] then Some([s]) else None)
        else if u1[0] == ',' then
          match ParseElements(SkipWhitespace(u1[1..]))
          case None => None
          case Some(ss) => Some([s] + ss)
        else None
  }

  /**
   * `JSON.parse(t)` where the value must be an array of strings; `None` for any
   * other text (a syntax error, or a JSON value of another shape).
   */
  function Decode(t: string): (r: Option<seq<string>>)
    ensures r.Some? ==> SkipWhitespace(t) != [] && SkipWhitespace(t)[0] == '['
  {
    var t1 := SkipWhitespace(t);
    if t1 == [] || t1[0] != '[' then None
    else
      var t2 := SkipWhitespace(t1[1..]);
      if t2 != [] && t2[0] == ']' then
        (if SkipWhitespace(t2[1..]) == [] then Some([]) else None)
      else ParseElements(t2)
  }

  // ---------------------------------------------------------------------
  // Round trip
  // ---------------------------------------------------------------------

  /** A control character written as `\u00xx` reads back as itself. */
  lemma UnicodeEscapeParses(c: char, u: string)
    requires (c as int) < 0x20
    ensures ParseEscape(['u', '0', '0', HexDigit(c as int / 16), HexDigit(c as int % 16)] + u) == Some((c, u))
  {
    var t := ['u', '0', '0', HexDigit(c as int / 16), HexDigit(c as int % 16)] + u;
    assert t[1..5] == ['0', '0', HexDigit(c as int / 16), HexDigit(c as int % 16)];
    assert Hex4Value(t[1..5]) == Some(c as int);
    assert t[5..] == u;
  }

  /** One escaped character reads back as that character. */
  lemma EscapeCharParses(c: char, u: string)
    ensures ParseChars(EscapeChar(c) + u) ==
      match ParseChars(u)
      case None => None
      case Some((s, rest)) => Some(([c] + s, rest))
  {
    var e := EscapeChar(c);
    var t := e + u;
    if e[0] == '\\' {
      assert t[1..] == e[1..] + u;
      if (c as int) < 0x20 && c != '\U{8}' && c != '\U{c}' && c != '\n' && c != '\r' && c != '\t' {
        assert e[1..] == ['u', '0', '0', HexDigit(c as int / 16), HexDigit(c as int % 16)];
        UnicodeEscapeParses(c, u);
      } else {
        assert t[1..][1..] == u;
      }
    } else {
      assert t[0] == c && t[1..] == u;
    }
  }

  /** An escaped body followed by a closing quote reads back as the body. */
  lemma {:induction false} EscapedBodyParses(s: string, rest: string)
    ensures ParseChars(EscapeBody(s) + "\"" + rest) == Some((s, rest))
  {
    if s == [] {
      assert EscapeBody(s) + "\"" + rest == "\"" + rest;
    } else {
      var tail := EscapeBody(s[1..]) + "\"" + rest;
      assert EscapeBody(s) + "\"" + rest == EscapeChar(s[0]) + tail;
      EscapedBodyParses(s[1..], rest);
      EscapeCharParses(s[0], tail);
      assert [s[0]] + s[1..] == s;
    }
  }

  /** A string literal followed by `after` reads back as the string and `after`. */
  lemma QuoteParses(x: string, after: string)
    ensures (Quote(x) + after)[0] == '"'
    ensures ParseChars((Quote(x) + after)[1..]) == Some((x, after))
  {
    assert (Quote(x) + after)[1..] == EscapeBody(x) + "\"" + after;
    EscapedBodyParses(x, after);
  }

  /** How a non-empty list is written: its first literal, then the rest. */
  lemma {:induction false} ElementsShape(xs: seq<string>)
    requires xs != []
    ensures EncodeElements(xs) + "]" ==
      Quote(xs[0]) + (if |xs| == 1 then "]" else "," + (EncodeElements(xs[1..]) + "]"))
  {
    if |xs| > 1 {
      var q, e := Quote(xs[0]), EncodeElements(xs[1..]);
      assert EncodeElements(xs) == q + "," + e;
      assert q + "," + e + "]" == q + ("," + (e + "]"));
    }
  }

  /** A literal followed by `after`, where `after` opens with `]` or `,`. */
  lemma LiteralThen(x: string, after: string)
    requires after != [] && (after[0] == ']' || after[0] == ',')
    ensures ParseElements(Quote(x) + after) ==
      if after[0] == ']' then (if SkipWhitespace(after[1..]) == [] then Some([x]) else None)
      else match ParseElements(SkipWhitespace(after[1..]))
        case None => None
        case Some(ss) => Some([x] + ss)
  {
    QuoteParses(x, after);
    assert SkipWhitespace(after) == after;
  }

  /** The elements of a non-empty list open with the quote of the first literal. */
  lemma ElementsOpenWithQuote(xs: seq<string>)
    requires xs != []
    ensures var t := EncodeElements(xs) + "]"; t != [] && t[0] == '"' && SkipWhitespace(t) == t
  {
    ElementsShape(xs);
    QuoteParses(xs[0], if |xs| == 1 then "]" else "," + (EncodeElements(xs[1..]) + "]"));
  }

  /** A one-element list reads back as that list. */
  lemma SingleParses(xs: seq<string>)
    requires |xs| == 1
    ensures ParseElements(EncodeElements(xs) + "]") == Some(xs)
  {
    assert EncodeElements(xs) + "]" == Quote(xs[0]) + "]";
    LiteralThen(xs[0], "]");
    assert xs == [xs[0]];
  }

  /** A list of more than one element reads as its head, then its tail. */
  lemma ConsParses(xs: seq<string>)
    requires |xs| > 1
    ensures ParseElements(EncodeElements(xs) + "]") ==
      match ParseElements(EncodeElements(xs[1..]) + "]")
      case None => None
      case Some(ss) => Some([xs[0]] + ss)
  {
    var next := EncodeElements(xs[1..]) + "]";
    ElementsShape(xs);
    LiteralThen(xs[0], "," + next);
    assert ("," + next)[1..] == next;
    ElementsOpenWithQuote(xs[1..]);
  }

  /** The elements of a non-empty array, then `]`, read back as the array. */
  lemma {:induction false} ElementsParse(xs: seq<string>)
    requires xs != []
    ensures ParseElements(EncodeElements(xs) + "]") == Some(xs)
  {
    if |xs| == 1 {
      SingleParses(xs);
    } else {
      ConsParses(xs);
      ElementsParse(xs[1..]);
      assert [xs[0]] + xs[1..] == xs;
    }
  }

  /** How `Decode` reads text that opens with `[` and no white space after it. */
  lemma DecodeBracketed(body: string)
    requires body != [] && !IsJsonWhitespace(body[0])
    ensures Decode("[" + body) ==
      if body[0] == ']' then (if SkipWhitespace(body[1..]) == [] then Some([]) else None)
      else ParseElements(body)
  {
    assert SkipWhitespace("[" + body) == "[" + body;
    assert ("[" + body)[1..] == body;
  }

  /** Reading back what `Encode` wrote gives the same list, element by element. */
  lemma {:induction false} RoundTrip(xs: seq<string>)
    ensures Decode(Encode(xs)) == Some(xs)
  {
    var body := EncodeElements(xs) + "]";
    assert Encode(xs) == "[" + body;
    if xs == [] {
      assert body == "]";
      DecodeBracketed(body);
    } else {
      ElementsOpenWithQuote(xs);
      DecodeBracketed(body);
      ElementsParse(xs);
    }
  }

  /** `Encode` loses nothing: different lists give different texts. */
  lemma EncodeInjective(xs: seq<string>, ys: seq<string>)
    requires Encode(xs) == Encode(ys)
    ensures xs == ys
  {
    RoundTrip(xs);
    RoundTrip(ys);
  }

  /** The empty list is written as the two characters `[]`. */
  lemma EmptyArrayText()
    ensures Encode([]) == "[]"
  {
  }
}
