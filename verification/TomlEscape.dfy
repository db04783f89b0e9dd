/** The TOML string escaper of `scripts/sweepfix.py` against a basic-string reader written from the
    "String" section of TOML v1.0.0. */
module TomlEscape {
  import opened Wrappers

  // --- The chain of replacements -----------------------------------------------------------------------

  /** `s.replace(c, r)`: every occurrence, left to right. */
  function Replace(s: string, c: char, r: string): string {
    if s == "" then "" else (if s[0] == c then r else [s[0]]) + Replace(s[1..], c, r)
  }

  /** The class `[\x00-\x08\x0b\x0c\x0e-\x1f\x7f\x80-\x9f]`. */
  predicate Control(c: char) {
    var n := c as int;
    n <= 8 || n == 0x0b || n == 0x0c || 0x0e <= n <= 0x1f || 0x7f <= n <= 0x9f
  }

  function Hex(n: nat): char
    requires n < 16
  {
    if n < 10 then '0' + n as char else 'A' + (n - 10) as char
  }

  /** `f"\\u{ord(c):04X}"` for a code below 256. */
  function Numeric(c: char): string
    requires c as int < 256
  {
    "\\u00" + [Hex(c as int / 16), Hex(c as int % 16)]
  }

  /** `_CTRL_CHAR_RE.sub(_escape_ctrl, s)`. */
  function ReplaceControls(s: string): string {
    if s == "" then "" else (if Control(s[0]) then Numeric(s[0]) else [s[0]]) + ReplaceControls(s[1..])
  }

  /** `_toml_escape`. */
  function TomlEscaped(s: string): string {
    ReplaceControls(Replace(Replace(Replace(Replace(Replace(s, '\\', "\\\\"), '\"', "\\\""), '\n', "\\n"), '\r', "\\r"), '\t', "\\t"))
  }

  // --- One character at a time ----------------------------------------------------------------------------

  function EscapeChar(c: char): string {
    if c == '\\' then "\\\\"
    else if c == '\"' then "\\\""
    else if c == '\n' then "\\n"
    else if c == '\r' then "\\r"
    else if c == '\t' then "\\t"
    else if Control(c) then Numeric(c)
    else [c]
  }

  function Escape(s: string): string {
    if s == "" then "" else EscapeChar(s[0]) + Escape(s[1..])
  }

  lemma {:induction false} ReplaceAppend(a: string, b: string, c: char, r: string)
    ensures Replace(a + b, c, r) == Replace(a, c, r) + Replace(b, c, r)
  {
    if a == "" {
      assert a + b == b;
    } else {
      assert (a + b)[1..] == a[1..] + b;
      ReplaceAppend(a[1..], b, c, r);
    }
  }

  lemma {:induction false} ReplaceControlsAppend(a: string, b: string)
    ensures ReplaceControls(a + b) == ReplaceControls(a) + ReplaceControls(b)
  {
    if a == "" {
      assert a + b == b;
    } else {
      assert (a + b)[1..] == a[1..] + b;
      ReplaceControlsAppend(a[1..], b);
    }
  }

  /** No later replacement touches what an earlier one wrote. */
  lemma EscapedAppend(a: string, b: string)
    ensures TomlEscaped(a + b) == TomlEscaped(a) + TomlEscaped(b)
  {
    ReplaceAppend(a, b, '\\', "\\\\");
    var a1, b1 := Replace(a, '\\', "\\\\"), Replace(b, '\\', "\\\\");
    ReplaceAppend(a1, b1, '\"', "\\\"");
    var a2, b2 := Replace(a1, '\"', "\\\""), Replace(b1, '\"', "\\\"");
    ReplaceAppend(a2, b2, '\n', "\\n");
    var a3, b3 := Replace(a2, '\n', "\\n"), Replace(b2, '\n', "\\n");
    ReplaceAppend(a3, b3, '\r', "\\r");
    var a4, b4 := Replace(a3, '\r', "\\r"), Replace(b3, '\r', "\\r");
    ReplaceAppend(a4, b4, '\t', "\\t");
    ReplaceControlsAppend(Replace(a4, '\t', "\\t"), Replace(b4, '\t', "\\t"));
  }

  lemma {:induction false} ReplaceAbsent(s: string, c: char, r: string)
    requires c !in s
    ensures Replace(s, c, r) == s
  {
    if s != "" {
      ReplaceAbsent(s[1..], c, r);
    }
  }

  lemma ReplaceOne(c: char, x: char, r: string)
    ensures Replace([x], c, r) == (if x == c then r else [x])
  {
    assert [x][1..] == "";
    assert Replace("", c, r) == "";
  }

  lemma {:induction false} NoControls(s: string)
    requires forall k | 0 <= k < |s| :: !Control(s[k])
    ensures ReplaceControls(s) == s
  {
    if s != "" {
      NoControls(s[1..]);
    }
  }

  /** The first two replacements on one character. */
  lemma QuotedChar(c: char)
    ensures Replace(Replace([c], '\\', "\\\\"), '\"', "\\\"") == (if c == '\\' then "\\\\" else if c == '\"' then "\\\"" else [c])
  {
    ReplaceOne('\\', c, "\\\\");
    if c == '\\' {
      ReplaceAbsent("\\\\", '\"', "\\\"");
    } else {
      ReplaceOne('\"', c, "\\\"");
    }
  }

  /** The next three on what they leave. */
  function Spelled(s: string): string {
    Replace(Replace(Replace(s, '\n', "\\n"), '\r', "\\r"), '\t', "\\t")
  }

  lemma SpelledAbsent(s: string)
    requires '\n' !in s && '\r' !in s && '\t' !in s
    ensures Spelled(s) == s
  {
    ReplaceAbsent(s, '\n', "\\n");
    ReplaceAbsent(s, '\r', "\\r");
    ReplaceAbsent(s, '\t', "\\t");
  }

  lemma SpelledChar(c: char)
    ensures Spelled([c]) == (if c == '\n' then "\\n" else if c == '\r' then "\\r" else if c == '\t' then "\\t" else [c])
  {
    ReplaceOne('\n', c, "\\n");
    if c == '\n' {
      ReplaceAbsent("\\n", '\r', "\\r");
      ReplaceAbsent("\\n", '\t', "\\t");
    } else {
      ReplaceOne('\r', c, "\\r");
      if c == '\r' {
        ReplaceAbsent("\\r", '\t', "\\t");
      } else {
        ReplaceOne('\t', c, "\\t");
      }
    }
  }

  lemma EscapedChar(c: char)
    ensures TomlEscaped([c]) == EscapeChar(c)
  {
    QuotedChar(c);
    if c == '\\' || c == '\"' {
      SpelledAbsent(EscapeChar(c));
      NoControls(EscapeChar(c));
    } else {
      SpelledChar(c);
      if c == '\n' || c == '\r' || c == '\t' {
        NoControls(EscapeChar(c));
      } else {
        assert [c][1..] == "" && ReplaceControls("") == "";
      }
    }
  }

  /** The ordered global replacements are a per-character escape. */
  lemma {:induction false} EscapedPerCharacter(s: string)
    ensures TomlEscaped(s) == Escape(s)
  {
    if s == "" {
      assert TomlEscaped("") == "";
    } else {
      assert s == [s[0]] + s[1..];
      EscapedAppend([s[0]], s[1..]);
      EscapedChar(s[0]);
      EscapedPerCharacter(s[1..]);
    }
  }

  // --- A reader of basic strings ----------------------------------------------------------------------------

  /** Control characters other than tab may not stand in a basic string. */
  predicate Forbidden(c: char) {
    var n := c as int;
    n <= 8 || 0x0a <= n <= 0x1f || n == 0x7f
  }

  function HexDigit(c: char): Option<nat> {
    if '0' <= c <= '9' then Some(c as int - '0' as int)
    else if 'A' <= c <= 'F' then Some(c as int - 'A' as int + 10)
    else if 'a' <= c <= 'f' then Some(c as int - 'a' as int + 10)
    else None
  }

  function HexNumber(s: string): Option<nat> {
    if s == "" then Some(0)
    else
      var high, low := HexNumber(s[..|s| - 1]), HexDigit(s[|s| - 1]);
      if high.None? || low.None? then None else Some(high.value * 16 + low.value)
  }

  predicate ScalarValue(n: int) {
    0 <= n < 0xd800 || 0xe000 <= n <= 0x10ffff
  }

  /** What a backslash sequence stands for, and how long it is. */
  function ReadEscape(t: string): (r: Option<(char, nat)>)
    requires t != "" && t[0] == '\\'
    ensures r.Some? ==> 2 <= r.value.1 <= |t|
  {
    if |t| < 2 then None
    else if t[1] == 'b' then Some((8 as char, 2))
    else if t[1] == 't' then Some(('\t', 2))
    else if t[1] == 'n' then Some(('\n', 2))
    else if t[1] == 'f' then Some((12 as char, 2))
    else if t[1] == 'r' then Some(('\r', 2))
    else if t[1] == '\"' then Some(('\"', 2))
    else if t[1] == '\\' then Some(('\\', 2))
    else
      var digits := if t[1] == 'u' then 4 else 8;
      if (t[1] != 'u' && t[1] != 'U') || |t| < 2 + digits then None
      else
        var code := HexNumber(t[2..2 + digits]);
        if code.None? || !ScalarValue(code.value) then None else Some((code.value as char, 2 + digits))
  }

  datatype Reading = Reading(value: string, rest: string)

  /** The text after an opening quote: the value, and what follows the closing quote. */
  function ReadBasic(t: string): Option<Reading>
    decreases |t|
  {
    if t == "" then None
    else if t[0] == '\"' then Some(Reading("", t[1..]))
    else if t[0] == '\\' then
      var e := ReadEscape(t);
      if e.None? then None else Prefixed(e.value.0, ReadBasic(t[e.value.1..]))
    else if Forbidden(t[0]) then None
    else Prefixed(t[0], ReadBasic(t[1..]))
  }

  function Prefixed(c: char, r: Option<Reading>): Option<Reading> {
    if r.None? then None else Some(Reading([c] + r.value.value, r.value.rest))
  }

  lemma HexByte(n: nat)
    requires n < 256
    ensures HexNumber(['0', '0', Hex(n / 16), Hex(n % 16)]) == Some(n)
  {
    var s := ['0', '0', Hex(n / 16), Hex(n % 16)];
    assert s[..3] == ['0', '0', Hex(n / 16)] && s[..3][..2] == ['0', '0'] && s[..3][..2][..1] == ['0'] && s[..3][..2][..1][..0] == "";
    assert HexNumber(s[..3][..2][..1]) == Some(0);
    assert HexNumber(s[..3][..2]) == Some(0);
    assert HexNumber(s[..3]) == Some(n / 16);
  }

  lemma ReadNumeric(c: char, t: string, tail: string)
    requires c as int < 256 && t == Numeric(c) + tail
    ensures t != "" && t[0] == '\\' && ReadEscape(t) == Some((c, 6)) && t[6..] == tail
  {
    HexByte(c as int);
    assert t[2..6] == ['0', '0', Hex(c as int / 16), Hex(c as int % 16)];
  }

  /** Each escaped character is read back, whatever follows it. */
  lemma ReadChar(c: char, tail: string)
    ensures ReadBasic(EscapeChar(c) + tail) == Prefixed(c, ReadBasic(tail))
  {
    var t := EscapeChar(c) + tail;
    if EscapeChar(c) == [c] {
      assert t[1..] == tail;
    } else if |EscapeChar(c)| == 2 {
      assert t[2..] == tail;
    } else {
      ReadNumeric(c, t, tail);
    }
  }

  /** Between quotes, the escaped string reads back as the original and ends at the closing quote. */
  lemma {:induction false} EscapeRoundTrip(s: string, rest: string)
    ensures ReadBasic(TomlEscaped(s) + "\"" + rest) == Some(Reading(s, rest))
  {
    EscapedPerCharacter(s);
    ReadEscaped(s, rest);
  }

  lemma {:induction false} ReadEscaped(s: string, rest: string)
    ensures ReadBasic(Escape(s) + "\"" + rest) == Some(Reading(s, rest))
  {
    if s == "" {
      assert Escape(s) + "\"" + rest == "\"" + rest;
      assert ("\"" + rest)[1..] == rest;
    } else {
      ReadEscaped(s[1..], rest);
      assert Escape(s) + "\"" + rest == EscapeChar(s[0]) + (Escape(s[1..]) + "\"" + rest);
      ReadChar(s[0], Escape(s[1..]) + "\"" + rest);
      assert [s[0]] + s[1..] == s;
    }
  }

  /** No control character is left, and every quote stands behind a backslash. */
  lemma {:induction false} EscapedClean(s: string, k: nat)
    requires k < |TomlEscaped(s)|
    ensures !Forbidden(TomlEscaped(s)[k]) && !Control(TomlEscaped(s)[k])
    ensures TomlEscaped(s)[k] == '\"' ==> k > 0 && TomlEscaped(s)[k - 1] == '\\'
  {
    EscapedPerCharacter(s);
    CleanChars(s, k);
  }

  lemma {:induction false} CleanChars(s: string, k: nat)
    requires k < |Escape(s)|
    ensures !Forbidden(Escape(s)[k]) && !Control(Escape(s)[k])
    ensures Escape(s)[k] == '\"' ==> k > 0 && Escape(s)[k - 1] == '\\'
  {
    var n := |EscapeChar(s[0])|;
    if k >= n {
      CleanChars(s[1..], k - n);
    }
  }
}
