/**
  The part of Python's `json.dumps` that the event stream uses, with its default settings:
  `ensure_ascii=True` (every character outside printable ASCII is written as a `\uXXXX`
  escape, a surrogate pair above U+FFFF), item separator ", " and key separator ": ".
  Objects and arrays are built from already rendered member texts, in insertion order.
 */
module Json {
  import opened Wrappers
  import opened Text

  /** Every character is printable ASCII (space to tilde), so in particular none is a line break. */
  predicate Printable(s: string) {
    forall i | 0 <= i < |s| :: ' ' <= s[i] <= '~'
  }

  lemma PrintableConcat(a: string, b: string)
    requires Printable(a) && Printable(b)
    ensures Printable(a + b)
  {
    forall i | 0 <= i < |a + b| ensures ' ' <= (a + b)[i] <= '~' {
      if i >= |a| {
        assert (a + b)[i] == b[i - |a|];
      }
    }
  }

  function HexDigit(d: nat): (c: char)
    requires d < 16
    ensures ' ' <= c <= '~'
  {
    "0123456789abcdef"[d]
  }

  /** `'{0:04x}'.format(n)`: four lower-case hexadecimal digits. */
  function Hex4(n: nat): (r: string)
    requires n < 0x1_0000
    ensures |r| == 4 && Printable(r)
  {
    [HexDigit(n / 0x1000), HexDigit(n / 0x100 % 0x10), HexDigit(n / 0x10 % 0x10), HexDigit(n % 0x10)]
  }

  /** How `json.dumps` writes one character inside a string literal. */
  function EscapeChar(c: char): string {
    if c == '"' then "\\\""
    else if c == '\\' then "\\\\"
    else if c == '\n' then "\\n"
    else if c == '\r' then "\\r"
    else if c == '\t' then "\\t"
    else if c == '\U{8}' then "\\b"
    else if c == '\U{C}' then "\\f"
    else if ' ' <= c <= '~' then [c]
    else if c as int < 0x1_0000 then "\\u" + Hex4(c as int)
    else
      var n := c as int - 0x1_0000;
      "\\u" + Hex4(0xD800 + n / 0x400) + "\\u" + Hex4(0xDC00 + n % 0x400)
  }

  /** The body of a JSON string literal for `s`: printable ASCII only, whatever `s` holds. */
  function Escape(s: string): (r: string)
    ensures Printable(r)
  {
    if s == [] then []
    else
      var head := EscapeChar(s[0]);
      var tail := Escape(s[1..]);
      assert Printable(head) by {
        var c := s[0];
        if c as int >= 0x1_0000 {
          var n := c as int - 0x1_0000;
          PrintableConcat("\\u" + Hex4(0xD800 + n / 0x400), "\\u");
          PrintableConcat("\\u" + Hex4(0xD800 + n / 0x400) + "\\u", Hex4(0xDC00 + n % 0x400));
        } else if !(' ' <= c <= '~') && c !in "\n\r\t\U{8}\U{C}" {
          PrintableConcat("\\u", Hex4(c as int));
        }
      }
      PrintableConcat(head, tail);
      head + tail
  }

  predicate IsHexDigit(c: char) {
    '0' <= c <= '9' || 'a' <= c <= 'f'
  }

  function HexValue(c: char): (d: nat)
    requires IsHexDigit(c)
    ensures d < 16
  {
    if c <= '9' then c as int - '0' as int else c as int - 'a' as int + 10
  }

  lemma HexDigitValue(d: nat)
    requires d < 16
    ensures IsHexDigit(HexDigit(d)) && HexValue(HexDigit(d)) == d
  {
  }

  predicate IsHex4(s: string) {
    |s| == 4 && forall i | 0 <= i < 4 :: IsHexDigit(s[i])
  }

  /** The number four hexadecimal digits denote. */
  function Hex4Value(s: string): (n: nat)
    requires IsHex4(s)
    ensures n < 0x1_0000
  {
    HexValue(s[0]) * 0x1000 + HexValue(s[1]) * 0x100 + HexValue(s[2]) * 0x10 + HexValue(s[3])
  }

  /** The four base-16 digits of `n` add back up to `n`. */
  lemma Hex4Digits(n: nat)
    requires n < 0x1_0000
    ensures n == n / 0x1000 * 0x1000 + n / 0x100 % 0x10 * 0x100 + n / 0x10 % 0x10 * 0x10 + n % 0x10
  {
    var q1 := n / 0x10;
    var q2 := q1 / 0x10;
    assert n == q1 * 0x10 + n % 0x10;
    assert q1 == q2 * 0x10 + q1 % 0x10;
    assert n / 0x100 == q2;
    assert n / 0x1000 == q2 / 0x10;
    assert q2 == q2 / 0x10 * 0x10 + q2 % 0x10;
  }

  /** Four hexadecimal digits read back as the number they were written from. */
  lemma Hex4RoundTrip(n: nat)
    requires n < 0x1_0000
    ensures IsHex4(Hex4(n)) && Hex4Value(Hex4(n)) == n
  {
    Hex4Digits(n);
    HexDigitValue(n / 0x1000);
    HexDigitValue(n / 0x100 % 0x10);
    HexDigitValue(n / 0x10 % 0x10);
    HexDigitValue(n % 0x10);
  }

  /** The characters that follow a backslash in a two-character escape, and what each stands for. */
  const ShortEscapes: map<char, char> :=
    map['"' := '"', '\\' := '\\', 'n' := '\n', 'r' := '\r', 't' := '\t', 'b' := '\U{8}', 'f' := '\U{C}']

  function Prepend(c: char, rest: Option<string>): Option<string> {
    if rest.Some? then Some([c] + rest.value) else None
  }

  /**
    What a JSON parser reads from the body of a string literal: every escape replaced by the
    character it stands for, a surrogate pair combined into one character; `None` for a body
    that is not well formed.
   */
  function Unescape(r: string): Option<string>
    decreases |r|
  {
    if r == [] then Some([])
    else if r[0] != '\\' then Prepend(r[0], Unescape(r[1..]))
    else if |r| < 2 then None
    else if r[1] in ShortEscapes then Prepend(ShortEscapes[r[1]], Unescape(r[2..]))
    else if r[1] != 'u' || |r| < 6 || !IsHex4(r[2..6]) then None
    else
      var high := Hex4Value(r[2..6]);
      if high < 0xD800 || 0xE000 <= high then Prepend(high as char, Unescape(r[6..]))
      else if 0xDC00 <= high || |r| < 12 || r[6..8] != "\\u" || !IsHex4(r[8..12]) then None
      else
        var low := Hex4Value(r[8..12]);
        if low < 0xDC00 || 0xE000 <= low then None
        else Prepend((0x1_0000 + (high - 0xD800) * 0x400 + (low - 0xDC00)) as char, Unescape(r[12..]))
  }

  /** Reading one escaped character back gives that character, whatever follows. */
  lemma UnescapeEscapeChar(c: char, rest: string)
    ensures Unescape(EscapeChar(c) + rest) == Prepend(c, Unescape(rest))
  {
    if c == '"' {
      UnescapeShort('"', c, rest);
    } else if c == '\\' {
      UnescapeShort('\\', c, rest);
    } else if c == '\n' {
      UnescapeShort('n', c, rest);
    } else if c == '\r' {
      UnescapeShort('r', c, rest);
    } else if c == '\t' {
      UnescapeShort('t', c, rest);
    } else if c == '\U{8}' {
      UnescapeShort('b', c, rest);
    } else if c == '\U{C}' {
      UnescapeShort('f', c, rest);
    } else if ' ' <= c <= '~' {
      assert ([c] + rest)[1..] == rest;
    } else if c as int < 0x1_0000 {
      UnescapeBasic(c, rest);
    } else {
      UnescapePair(c, rest);
    }
  }

  lemma UnescapeShort(e: char, c: char, rest: string)
    requires e in ShortEscapes && ShortEscapes[e] == c
    ensures Unescape(['\\', e] + rest) == Prepend(c, Unescape(rest))
  {
    assert (['\\', e] + rest)[2..] == rest;
  }

  /** A character of the basic plane outside printable ASCII, written as one `\\uXXXX` escape. */
  lemma UnescapeBasic(c: char, rest: string)
    requires c as int < 0x1_0000
    ensures Unescape("\\u" + Hex4(c as int) + rest) == Prepend(c, Unescape(rest))
  {
    var r := "\\u" + Hex4(c as int) + rest;
    Hex4RoundTrip(c as int);
    assert r[2..6] == Hex4(c as int);
    assert r[6..] == rest;
  }

  /** A character above the basic plane, written as a surrogate pair of escapes. */
  lemma UnescapePair(c: char, rest: string)
    requires c as int >= 0x1_0000
    ensures var n := c as int - 0x1_0000;
      Unescape("\\u" + Hex4(0xD800 + n / 0x400) + "\\u" + Hex4(0xDC00 + n % 0x400) + rest) == Prepend(c, Unescape(rest))
  {
    var n := c as int - 0x1_0000;
    UnescapeSurrogates(0xD800 + n / 0x400, 0xDC00 + n % 0x400, rest);
  }

  lemma UnescapeSurrogates(high: nat, low: nat, rest: string)
    requires 0xD800 <= high < 0xDC00 && 0xDC00 <= low < 0xE000
    ensures Unescape("\\u" + Hex4(high) + "\\u" + Hex4(low) + rest) ==
      Prepend((0x1_0000 + (high - 0xD800) * 0x400 + (low - 0xDC00)) as char, Unescape(rest))
  {
    var r := "\\u" + Hex4(high) + "\\u" + Hex4(low) + rest;
    Hex4RoundTrip(high);
    Hex4RoundTrip(low);
    assert r[2..6] == Hex4(high);
    assert r[6..8] == "\\u";
    assert r[8..12] == Hex4(low);
    assert r[12..] == rest;
  }

  /** `json.dumps` loses nothing: parsing the escaped body of a string gives the string back. */
  lemma {:induction false} EscapeRoundTrip(s: string)
    ensures Unescape(Escape(s)) == Some(s)
  {
    if s != [] {
      EscapeRoundTrip(s[1..]);
      UnescapeEscapeChar(s[0], Escape(s[1..]));
      assert [s[0]] + s[1..] == s;
    }
  }

  /** A JSON string literal. */
  function Quote(s: string): (r: string)
    ensures Printable(r) && |r| >= 2 && r[0] == '"' && r[|r| - 1] == '"'
  {
    PrintableConcat("\"", Escape(s));
    PrintableConcat("\"" + Escape(s), "\"");
    "\"" + Escape(s) + "\""
  }

  /** Joining printable texts with a printable separator stays printable. */
  lemma {:induction false} JoinPrintable(sep: string, xs: seq<string>)
    requires Printable(sep)
    requires forall k | 0 <= k < |xs| :: Printable(xs[k])
    ensures Printable(Join(sep, xs))
  {
    if |xs| > 1 {
      JoinPrintable(sep, xs[1..]);
      PrintableConcat(xs[0], sep);
      PrintableConcat(xs[0] + sep, Join(sep, xs[1..]));
    }
  }

  /** One `"key": value` member, `value` already rendered. */
  function Pair(key: string, value: string): (r: string)
    requires Printable(value)
    ensures Printable(r)
  {
    PrintableConcat(Quote(key), ": ");
    PrintableConcat(Quote(key) + ": ", value);
    Quote(key) + ": " + value
  }

  /** `{m1, m2, ...}` with the default item separator. */
  function Object(members: seq<string>): (r: string)
    requires forall k | 0 <= k < |members| :: Printable(members[k])
    ensures Printable(r) && |r| >= 2 && r[0] == '{' && r[|r| - 1] == '}'
  {
    JoinPrintable(", ", members);
    PrintableConcat("{", Join(", ", members));
    PrintableConcat("{" + Join(", ", members), "}");
    "{" + Join(", ", members) + "}"
  }

  /** `[v1, v2, ...]` with the default item separator. */
  function Array(items: seq<string>): (r: string)
    requires forall k | 0 <= k < |items| :: Printable(items[k])
    ensures Printable(r)
  {
    JoinPrintable(", ", items);
    PrintableConcat("[", Join(", ", items));
    PrintableConcat("[" + Join(", ", items), "]");
    "[" + Join(", ", items) + "]"
  }
}
