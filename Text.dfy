/**
  The handful of Python `str` operations the pipeline relies on: `str.strip()` with no
  argument, `str.startswith`, `sep.join(list)` and `str(int)` for the numbers that are
  interpolated into error markers.
 */
module Text {

  /** Python's `str.isspace()` for one character: the characters `str.strip()` removes. */
  predicate IsSpace(c: char) {
    ('\U{9}' <= c <= '\U{D}') || ('\U{1C}' <= c <= '\U{1F}') || c == ' ' ||
    c == '\U{85}' || c == '\U{A0}' || c == '\U{1680}' || ('\U{2000}' <= c <= '\U{200A}') ||
    c == '\U{2028}' || c == '\U{2029}' || c == '\U{202F}' || c == '\U{205F}' || c == '\U{3000}'
  }

  /** Every character of `s` is whitespace (the empty string included). */
  predicate IsBlank(s: string) {
    forall i | 0 <= i < |s| :: IsSpace(s[i])
  }

  /** Python `s.startswith(prefix)`. */
  predicate StartsWith(s: string, prefix: string) {
    |prefix| <= |s| && s[..|prefix|] == prefix
  }

  /** `s` with its leading whitespace removed. */
  function TrimStart(s: string): (r: string)
    ensures |r| <= |s| && r == s[|s| - |r|..]
    ensures forall i | 0 <= i < |s| - |r| :: IsSpace(s[i])
    ensures r != "" ==> !IsSpace(r[0])
  {
    if s != "" && IsSpace(s[0]) then TrimStart(s[1..]) else s
  }

  /** `s` with its trailing whitespace removed. */
  function TrimEnd(s: string): (r: string)
    ensures |r| <= |s| && r == s[..|r|]
    ensures forall i | |r| <= i < |s| :: IsSpace(s[i])
    ensures r != "" ==> !IsSpace(r[|r| - 1])
  {
    if s != "" && IsSpace(s[|s| - 1]) then TrimEnd(s[..|s| - 1]) else s
  }

  /** Where the text `str.strip()` keeps begins: after the leading whitespace of `s`. */
  function StripStart(s: string): nat {
    |s| - |TrimStart(s)|
  }

  /**
    Python `s.strip()`: the slice of `s` from `StripStart(s)` that neither starts nor ends with
    whitespace and whose surroundings in `s` are all whitespace. It is empty exactly when `s` is
    blank.
   */
  function Strip(s: string): (r: string)
    ensures StripStart(s) + |r| <= |s| && r == s[StripStart(s)..StripStart(s) + |r|]
    ensures IsBlank(s[..StripStart(s)]) && IsBlank(s[StripStart(s) + |r|..])
    ensures r != "" ==> !IsSpace(r[0]) && !IsSpace(r[|r| - 1])
    ensures r == "" <==> IsBlank(s)
  {
    var t := TrimStart(s);
    var r := TrimEnd(t);
    StripFacts(s, t, r);
    r
  }

  /** What the two trims leave, put together: the stripped text sits in `s` between two blank runs. */
  lemma StripFacts(s: string, t: string, r: string)
    requires |t| <= |s| && t == s[|s| - |t|..] && forall i | 0 <= i < |s| - |t| :: IsSpace(s[i])
    requires t != "" ==> !IsSpace(t[0])
    requires |r| <= |t| && r == t[..|r|] && forall i | |r| <= i < |t| :: IsSpace(t[i])
    requires r != "" ==> !IsSpace(r[|r| - 1])
    ensures var a := |s| - |t|;
      a + |r| <= |s| && r == s[a..a + |r|] && IsBlank(s[..a]) && IsBlank(s[a + |r|..])
    ensures r != "" ==> !IsSpace(r[0])
    ensures r == "" <==> IsBlank(s)
  {
    var a := |s| - |t|;
    assert forall k | 0 <= k < |r| :: r[k] == s[a + k] by {
      forall k | 0 <= k < |r| ensures r[k] == s[a + k] {
        assert r[k] == t[k];
      }
    }
    assert r == s[a..a + |r|];
    assert IsBlank(s[..a]) by {
      forall i | 0 <= i < a ensures IsSpace(s[..a][i]) {
        assert s[..a][i] == s[i];
      }
    }
    var after := s[a + |r|..];
    assert IsBlank(after) by {
      forall i | 0 <= i < |after| ensures IsSpace(after[i]) {
        assert after[i] == t[|r| + i];
      }
    }
    if r == "" {
      assert |t| == 0;
      assert s[..a] == s;
    } else {
      assert !IsSpace(s[a]) by {
        assert s[a] == r[0];
      }
    }
  }

  /** Python `sep.join(xs)`. */
  function Join(sep: string, xs: seq<string>): string
  {
    if |xs| == 0 then ""
    else if |xs| == 1 then xs[0]
    else xs[0] + sep + Join(sep, xs[1..])
  }

  /** Joining two non-empty lists is joining each and putting one separator between them. */
  lemma {:induction false} JoinConcat(sep: string, a: seq<string>, b: seq<string>)
    requires a != [] && b != []
    ensures Join(sep, a + b) == Join(sep, a) + sep + Join(sep, b)
  {
    if |a| == 1 {
      assert (a + b)[1..] == b;
    } else {
      assert (a + b)[1..] == a[1..] + b;
      JoinConcat(sep, a[1..], b);
    }
  }

  /** Joining blank strings with a blank separator gives a blank string. */
  lemma {:induction false} JoinBlank(sep: string, xs: seq<string>)
    requires IsBlank(sep)
    requires forall k | 0 <= k < |xs| :: IsBlank(xs[k])
    ensures IsBlank(Join(sep, xs))
  {
    if |xs| > 1 {
      JoinBlank(sep, xs[1..]);
      var rest := Join(sep, xs[1..]);
      assert IsBlank(xs[0]);
      assert forall i | 0 <= i < |xs[0] + sep + rest| :: IsSpace((xs[0] + sep + rest)[i]) by {
        forall i | 0 <= i < |xs[0] + sep + rest|
          ensures IsSpace((xs[0] + sep + rest)[i])
        {
          if i < |xs[0]| {
          } else if i < |xs[0]| + |sep| {
            assert (xs[0] + sep + rest)[i] == sep[i - |xs[0]|];
          } else {
            assert (xs[0] + sep + rest)[i] == rest[i - |xs[0]| - |sep|];
          }
        }
      }
    }
  }

  /** The string that contains a non-whitespace character is not blank, wherever the character sits. */
  lemma NotBlankAt(s: string, i: nat)
    requires i < |s| && !IsSpace(s[i])
    ensures !IsBlank(s)
  {
  }

  predicate IsDigit(c: char) {
    '0' <= c <= '9'
  }

  function DigitChar(d: nat): (c: char)
    requires d < 10
    ensures IsDigit(c) && c as int - '0' as int == d
  {
    ('0' as int + d) as char
  }

  /** Python `str(n)` for a non-negative integer: its decimal digits, without leading zeros. */
  function NatToString(n: nat): (r: string)
    ensures r != [] && forall i | 0 <= i < |r| :: IsDigit(r[i])
    ensures |r| > 1 ==> r[0] != '0'
  {
    if n < 10 then [DigitChar(n)] else NatToString(n / 10) + [DigitChar(n % 10)]
  }

  /** The number a string of decimal digits denotes (what Python's `int(s)` reads). */
  function DigitsValue(s: string): nat
    requires forall i | 0 <= i < |s| :: IsDigit(s[i])
  {
    if s == [] then 0
    else
      assert IsDigit(s[|s| - 1]);
      DigitsValue(s[..|s| - 1]) * 10 + (s[|s| - 1] as int - '0' as int)
  }

  /** Reading back the decimal rendering of `n` gives `n`. */
  lemma {:induction false} DecimalRoundTrip(n: nat)
    ensures DigitsValue(NatToString(n)) == n
  {
    if n >= 10 {
      var s := NatToString(n);
      assert s[..|s| - 1] == NatToString(n / 10);
      DecimalRoundTrip(n / 10);
    }
  }

  /** Python `str(i)` for any integer: a minus sign in front of the digits of a negative one. */
  function IntToString(i: int): (r: string)
    ensures r != "" && (r[0] == '-' <==> i < 0)
    ensures i >= 0 ==> r == NatToString(i)
  {
    if i < 0 then "-" + NatToString(-i) else NatToString(i)
  }

  /** What Python's `int(s)` reads from a rendering made by `IntToString`. */
  function IntValue(s: string): int
    requires s != [] && forall i | 0 < i < |s| :: IsDigit(s[i])
    requires s[0] == '-' || IsDigit(s[0])
  {
    if s[0] == '-' then -(DigitsValue(s[1..]) as int) else DigitsValue(s)
  }

  /** `str(i)` is read back as `i`, so distinct integers have distinct renderings. */
  lemma IntRoundTrip(i: int)
    ensures IntValue(IntToString(i)) == i
  {
    var r := IntToString(i);
    if i < 0 {
      assert r[1..] == NatToString(-i);
      DecimalRoundTrip(-i);
    } else {
      DecimalRoundTrip(i);
    }
  }
}
