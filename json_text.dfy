/**
 * `JSON.stringify` applied to an array of strings, following the
 * QuoteJSONString operation of ECMA-262 and section 7 of RFC 8259, together
 * with a reader for the text it produces. Dafny characters are Unicode scalar
 * values, so the lone surrogates ECMA-262 also escapes cannot occur.
 */
module JsonText {
  import opened Wrappers
  import opened JsStrings

  /** A lower-case hexadecimal digit, as `JSON.stringify` writes them. */
  function HexDigit(d: nat): char
    requires d < 16
  {
    if d < 10 then ('0' as int + d) as char else ('a' as int + d - 10) as char
  }

  /** How one character of a string is written inside a JSON string literal. */
  function EscapeChar(c: char): string
  {
    if c == '"' then "\\\""
    else if c == '\\' then "\\\\"
    else if c as int == 0x08 then "\\b"
    else if c as int == 0x0C then "\\f"
    else if c == '\n' then "\\n"
    else if c == '\r' then "\\r"
    else if c == '\t' then "\\t"
    else if c as int < 0x20 then EscapeUnicode(c)
    else [c]
  }

  /** The `\u00xx` escape of a control character. */
  function EscapeUnicode(c: char): (e: string)
    requires c as int < 0x20
    ensures |e| == 6 && e[0] == '\\'
  {
    "\\u00" + [HexDigit(c as int / 16), HexDigit(c as int % 16)]
  }

  /** The characters of `s` between the quotes of its JSON string literal. */
  function EscapeBody(s: string): string
  {
    if s == [] then [] else EscapeChar(s[0]) + EscapeBody(s[1..])
  }

  /** `JSON.stringify(s)` for a string `s`. */
  function Quote(s: string): string
  {
    "\"" + EscapeBody(s) + "\""
  }

  /** The JSON literal of each element, in order. */
  function QuoteAll(xs: seq<string>): (qs: seq<string>)
    ensures |qs| == |xs|
    ensures forall k :: 0 <= k < |xs| ==> qs[k] == Quote(xs[k])
  {
    if xs == [] then [] else [Quote(xs[0])] + QuoteAll(xs[1..])
  }

  /** `JSON.stringify(xs)` for an array of strings: no spaces between the elements. */
  function Stringify(xs: seq<string>): string
  {
    "[" + Join(QuoteAll(xs), ",") + "]"
  }

  /** The value of a hexadecimal digit of either case. */
  function HexValue(c: char): (d: Option<nat>)
    ensures d.Some? ==> d.value < 16
  {
    if '0' <= c <= '9' then Some(c as int - '0' as int)
    else if 'a' <= c <= 'f' then Some(c as int - 'a' as int + 10)
    else if 'A' <= c <= 'F' then Some(c as int - 'A' as int + 10)
    else None
  }

  /** The value of the four hexadecimal digits of a `\u` escape. */
  function HexQuad(s: string): (v: Option<nat>)
    requires |s| == 4
    ensures v.Some? ==> v.value < 0x10000
  {
    match (HexValue(s[0]), HexValue(s[1]), HexValue(s[2]), HexValue(s[3]))
    case (Some(a), Some(b), Some(c), Some(d)) =>
      assert a * 16 + b < 0x100 && (a * 16 + b) * 16 + c < 0x1000;
      Some(((a * 16 + b) * 16 + c) * 16 + d)
    case _ => None
  }

  /** The character a one-letter escape `\e` stands for. */
  function ShortEscape(e: char): Option<char>
  {
    if e == '"' then Some('"')
    else if e == '\\' then Some('\\')
    else if e == '/' then Some('/')
    else if e == 'b' then Some(0x08 as char)
    else if e == 'f' then Some(0x0C as char)
    else if e == 'n' then Some('\n')
    else if e == 'r' then Some('\r')
    else if e == 't' then Some('\t')
    else None
  }

  function Prepend(c: char, r: Option<(string, string)>): (r': Option<(string, string)>)
    ensures r'.Some? <==> r.Some?
    ensures r.Some? ==> r'.value == ([c] + r.value.0, r.value.1)
  {
    match r
    case None => None
    case Some((t, rest)) => Some(([c] + t, rest))
  }

  /**
   * Reads the escape sequence at the start of `s`, which begins with a
   * backslash: the character it denotes and its length.
   */
  function ReadEscape(s: string): (r: Option<(char, nat)>)
    requires |s| > 0 && s[0] == '\\'
    ensures r.Some? ==> 2 <= r.value.1 <= |s|
  {
    if |s| < 2 then None
    else if s[1] == 'u' then
      if |s| < 6 then None
      else match HexQuad(s[2..6])
        case None => None
        case Some(v) => if v < 0xD800 || 0xE000 <= v then Some((v as char, 6)) else None
    else match ShortEscape(s[1])
      case None => None
      case Some(c) => Some((c, 2))
  }

  /**
   * Reads the rest of a string literal whose opening quote has been read:
   * the characters it denotes and the text after its closing quote.
   */
  function ReadStringBody(s: string): (r: Option<(string, string)>)
    ensures r.Some? ==> |r.value.1| < |s|
    decreases |s|
  {
    if |s| == 0 then None
    else if s[0] == '"' then Some(([], s[1..]))
    else if s[0] == '\\' then
      match ReadEscape(s)
      case None => None
      case Some((c, n)) => Prepend(c, ReadStringBody(s[n..]))
    else if s[0] as int < 0x20 then None
    else Prepend(s[0], ReadStringBody(s[1..]))
  }

  /** Reads one or more string literals separated by commas and closed by `]`. */
  function ReadElements(s: string): Option<seq<string>>
    decreases |s|
  {
    if |s| == 0 || s[0] != '"' then None
    else match ReadStringBody(s[1..])
      case None => None
      case Some((x, rest)) =>
        if rest == "]" then Some([x])
        else if |rest| > 0 && rest[0] == ',' then
          match ReadElements(rest[1..])
          case None => None
          case Some(xs) => Some([x] + xs)
        else None
  }

  /** Reads a JSON array of strings written without insignificant whitespace. */
  function Parse(s: string): Option<seq<string>>
  {
    if s == "[]" then Some([])
    else if |s| > 0 && s[0] == '[' then ReadElements(s[1..])
    else None
  }

  lemma HexDigitValue(d: nat)
    requires d < 16
    ensures HexValue(HexDigit(d)) == Some(d)
  {
  }

  /** A control character's `\u00xx` escape is read back as that character. */
  lemma ReadUnicodeEscape(c: char, rest: string)
    requires c as int < 0x20
    ensures ReadEscape(EscapeUnicode(c) + rest) == Some((c, 6))
  {
    var hi, lo := c as int / 16, c as int % 16;
    var s := EscapeUnicode(c) + rest;
    HexDigitValue(hi);
    HexDigitValue(lo);
    assert s[1] == 'u';
    assert s[2..6] == ['0', '0', HexDigit(hi), HexDigit(lo)];
  }

  lemma ReadEscapedChar(c: char, rest: string)
    ensures ReadStringBody(EscapeChar(c) + rest) == Prepend(c, ReadStringBody(rest))
  {
    var e := EscapeChar(c);
    var s := e + rest;
    if |e| == 6 {
      ReadUnicodeEscape(c, rest);
      assert s[6..] == rest;
    } else if |e| == 2 {
      assert s[0] == '\\' && ShortEscape(s[1]) == Some(c);
      assert s[2..] == rest;
    } else {
      assert s[0] == c && s[1..] == rest;
    }
  }

  /** A string literal is read back as the string it was written from, whatever follows it. */
  lemma {:induction false} ReadEscapeBody(x: string, rest: string)
    ensures ReadStringBody(EscapeBody(x) + "\"" + rest) == Some((x, rest))
  {
    if x == [] {
      assert (EscapeBody(x) + "\"" + rest)[1..] == rest;
    } else {
      ReadEscapeBody(x[1..], rest);
      assert EscapeBody(x) + "\"" + rest == EscapeChar(x[0]) + (EscapeBody(x[1..]) + "\"" + rest);
      ReadEscapedChar(x[0], EscapeBody(x[1..]) + "\"" + rest);
      assert [x[0]] + x[1..] == x;
    }
  }

  /** The text after the first element of a joined array of string literals. */
  function AfterFirst(xs: seq<string>): string
    requires xs != []
  {
    if |xs| == 1 then "]" else "," + Join(QuoteAll(xs[1..]), ",") + "]"
  }

  lemma JoinQuoteAll(xs: seq<string>)
    requires xs != []
    ensures Join(QuoteAll(xs), ",") + "]" == "\"" + (EscapeBody(xs[0]) + "\"" + AfterFirst(xs))
  {
    var qs, e, t := QuoteAll(xs), EscapeBody(xs[0]), AfterFirst(xs);
    assert qs[0] == Quote(xs[0]);
    if |xs| == 1 {
      assert Join(qs, ",") + "]" == Quote(xs[0]) + t;
    } else {
      assert qs[1..] == QuoteAll(xs[1..]);
      assert Join(qs, ",") == Quote(xs[0]) + "," + Join(QuoteAll(xs[1..]), ",");
      CommaThen(Quote(xs[0]), Join(QuoteAll(xs[1..]), ","));
    }
    QuoteThen(xs[0], t);
  }

  lemma CommaThen(q: string, j: string)
    ensures q + "," + j + "]" == q + ("," + j + "]")
  {
  }

  lemma CommaFirst(j: string)
    ensures "," + j + "]" == "," + (j + "]")
  {
  }

  lemma QuoteThen(x: string, t: string)
    ensures Quote(x) + t == "\"" + (EscapeBody(x) + "\"" + t)
  {
  }

  lemma {:induction false} ReadQuotedElements(xs: seq<string>)
    requires xs != []
    ensures ReadElements(Join(QuoteAll(xs), ",") + "]") == Some(xs)
  {
    if |xs| == 1 {
      ReadFirstLiteral(xs);
      ReadLastElement(Join(QuoteAll(xs), ",") + "]", xs[0], AfterFirst(xs));
      assert [xs[0]] == xs;
    } else {
      ReadQuotedElements(xs[1..]);
      ReadFirstLiteral(xs);
      ReadLaterLiterals(xs);
      assert [xs[0]] + xs[1..] == xs;
    }
  }

  /** The text of the literals starts with the first literal, followed by `AfterFirst`. */
  lemma ReadFirstLiteral(xs: seq<string>)
    requires xs != []
    ensures var s := Join(QuoteAll(xs), ",") + "]";
      |s| > 0 && s[0] == '"' && ReadStringBody(s[1..]) == Some((xs[0], AfterFirst(xs)))
  {
    var s := Join(QuoteAll(xs), ",") + "]";
    JoinQuoteAll(xs);
    ReadEscapeBody(xs[0], AfterFirst(xs));
    assert s[1..] == EscapeBody(xs[0]) + "\"" + AfterFirst(xs);
  }

  /** After the first literal come a comma and the literals of the rest. */
  lemma ReadLaterLiterals(xs: seq<string>)
    requires |xs| > 1
    requires ReadElements(Join(QuoteAll(xs[1..]), ",") + "]") == Some(xs[1..])
    requires var s := Join(QuoteAll(xs), ",") + "]";
      |s| > 0 && s[0] == '"' && ReadStringBody(s[1..]) == Some((xs[0], AfterFirst(xs)))
    ensures ReadElements(Join(QuoteAll(xs), ",") + "]") == Some([xs[0]] + xs[1..])
  {
    var tail, j := AfterFirst(xs), Join(QuoteAll(xs[1..]), ",");
    CommaFirst(j);
    assert tail[1..] == j + "]";
    ReadNextElement(Join(QuoteAll(xs), ",") + "]", xs[0], tail, xs[1..]);
  }

  lemma ReadLastElement(s: string, x: string, rest: string)
    requires |s| > 0 && s[0] == '"' && ReadStringBody(s[1..]) == Some((x, rest))
    requires rest == "]"
    ensures ReadElements(s) == Some([x])
  {
  }

  lemma ReadNextElement(s: string, x: string, rest: string, ys: seq<string>)
    requires |s| > 0 && s[0] == '"' && ReadStringBody(s[1..]) == Some((x, rest))
    requires |rest| > 0 && rest[0] == ',' && ReadElements(rest[1..]) == Some(ys)
    ensures ReadElements(s) == Some([x] + ys)
  {
  }

  /** Every array of strings is read back from its `JSON.stringify` text: no two arrays share one. */
  lemma ParseStringify(xs: seq<string>)
    ensures Parse(Stringify(xs)) == Some(xs)
  {
    if xs != [] {
      ReadQuotedElements(xs);
      var s := Stringify(xs);
      assert s[1..] == Join(QuoteAll(xs), ",") + "]";
      assert s != "[]" by {
        assert |Quote(xs[0])| >= 2;
        assert |Join(QuoteAll(xs), ",")| >= |Quote(xs[0])| by {
          JoinLength(QuoteAll(xs));
        }
      }
    }
  }

  lemma JoinLength(qs: seq<string>)
    requires qs != []
    ensures |Join(qs, ",")| >= |qs[0]|
  {
  }
}
