/** The source-view pointer evaluator (`resolve_bootstrap_pointer` of
    `scripts/prefix/bootstrap_answer.py`) against sections 3 and 4 of RFC 6901. */
module JsonPointer {
  import opened Wrappers
  import opened Text
  import N = Names

  datatype Json = Null | Bool(flag: bool) | Number(number: int) | String(text: string)
                | Array(items: seq<Json>) | Object(members: map<string, Json>)

  // --- Section 3: reference tokens -----------------------------------------------------------

  function Escape(key: string): string {
    if key == "" then ""
    else (if key[0] == '~' then "~0" else if key[0] == '/' then "~1" else [key[0]]) + Escape(key[1..])
  }

  predicate WellEscaped(t: string) {
    if t == "" then true
    else if t[0] == '~' then |t| > 1 && (t[1] == '0' || t[1] == '1') && WellEscaped(t[2..])
    else WellEscaped(t[1..])
  }

  /** One pass over a well-escaped token. */
  function Unescape(t: string): string
    requires WellEscaped(t)
  {
    if t == "" then ""
    else if t[0] == '~' then [if t[1] == '1' then '/' else '~'] + Unescape(t[2..])
    else [t[0]] + Unescape(t[1..])
  }

  /** The pointer to the value at `keys`. */
  function PointerTo(keys: seq<string>): string {
    if keys == [] then "" else "/" + Escape(keys[0]) + PointerTo(keys[1..])
  }

  // --- Section 4: evaluation ---------------------------------------------------------------

  predicate IsDigit(c: char) { '0' <= c <= '9' }

  /** `array-index = %x30 / ( %x31-39 *(%x30-39) )`. */
  predicate IsIndex(key: string) {
    key != "" && (forall c | c in key :: IsDigit(c)) && (key == "0" || key[0] != '0')
  }

  function Digit(c: char): nat
    requires IsDigit(c)
  {
    c as nat - '0' as nat
  }

  /** The number a string of digits denotes. */
  function Value(key: string): nat
    requires forall c | c in key :: IsDigit(c)
  {
    if key == "" then 0
    else 10 * Value(key[..|key| - 1]) + Digit(key[|key| - 1])
  }

  function Child(v: Json, key: string): Result<Json> {
    match v
    case Object(members) => if key in members then Ok(members[key]) else Raised
    case Array(items) => if IsIndex(key) && Value(key) < |items| then Ok(items[Value(key)]) else Raised
    case _ => Raised
  }

  /** Follow keys one after another. */
  function Walk(v: Json, keys: seq<string>): Result<Json> {
    if keys == [] then Ok(v)
    else match Child(v, keys[0]) case Raised => Raised case Ok(w) => Walk(w, keys[1..])
  }

  function EvaluateTokens(v: Json, tokens: seq<string>): Result<Json> {
    if tokens == [] then Ok(v)
    else if !WellEscaped(tokens[0]) then Raised
    else match Child(v, Unescape(tokens[0])) case Raised => Raised case Ok(w) => EvaluateTokens(w, tokens[1..])
  }

  /** RFC 6901 on every pointer but the empty one, which this evaluator refuses. */
  function Evaluate(v: Json, pointer: string): Result<Json> {
    if pointer == "" || pointer[0] != '/' then Raised else EvaluateTokens(v, Split(pointer[1..]))
  }

  // --- The two ordered replacements ----------------------------------------------------------

  /** `str.replace(pattern, text)` for a two-character pattern: leftmost, without overlap. */
  function Replace(s: string, pattern: string, text: string): string
    requires |pattern| == 2
  {
    if |s| < 2 then s
    else if s[..2] == pattern then text + Replace(s[2..], pattern, text)
    else [s[0]] + Replace(s[1..], pattern, text)
  }

  function Decoded(t: string): string {
    Replace(Replace(t, "~1", "/"), "~0", "~")
  }

  /** A character that does not start the pattern passes through. */
  lemma ReplacePass(c: char, s: string, pattern: string, text: string)
    requires |pattern| == 2 && c != pattern[0]
    ensures Replace([c] + s, pattern, text) == [c] + Replace(s, pattern, text)
  {
    assert ([c] + s)[1..] == s;
    if |s| >= 1 {
      assert ([c] + s)[..2][0] == c;
    }
  }

  lemma ReplaceHit(s: string, pattern: string, text: string)
    requires |pattern| == 2
    ensures Replace(pattern + s, pattern, text) == text + Replace(s, pattern, text)
  {
    assert (pattern + s)[..2] == pattern && (pattern + s)[2..] == s;
  }

  /** On a well-escaped token, replacing `~1` and then `~0` everywhere is the one-pass unescape. */
  lemma {:induction false} DecodedIsUnescape(t: string)
    requires WellEscaped(t)
    ensures Decoded(t) == Unescape(t)
    decreases |t|
  {
    if t == "" {
    } else if t[0] != '~' {
      var rest := t[1..];
      assert t == [t[0]] + rest;
      DecodedIsUnescape(rest);
      ReplacePass(t[0], rest, "~1", "/");
      ReplacePass(t[0], Replace(rest, "~1", "/"), "~0", "~");
    } else {
      var rest := t[2..];
      DecodedIsUnescape(rest);
      if t[1] == '1' {
        assert t == "~1" + rest;
        ReplaceHit(rest, "~1", "/");
        ReplacePass('/', Replace(rest, "~1", "/"), "~0", "~");
      } else {
        assert t == "~0" + rest;
        TildeZero(rest);
        ReplaceHit(Replace(rest, "~1", "/"), "~0", "~");
      }
    }
  }

  lemma TildeZero(rest: string)
    ensures Replace("~0" + rest, "~1", "/") == "~0" + Replace(rest, "~1", "/")
  {
    var s := "~0" + rest;
    assert s[..2] == "~0" && s[1..] == ['0'] + rest;
    ReplacePass('0', rest, "~1", "/");
    assert "~0" + Replace(rest, "~1", "/") == ['~'] + (['0'] + Replace(rest, "~1", "/"));
  }

  // --- The string comparison of indices -------------------------------------------------------

  /** `str(n)`. */
  function Decimal(n: nat): (r: string)
    ensures r != "" && forall c | c in r :: IsDigit(c)
  {
    var last := ['0' + (n % 10) as char];
    if n < 10 then last else Decimal(n / 10) + last
  }

  function Pow10(n: nat): nat {
    if n == 0 then 1 else 10 * Pow10(n - 1)
  }

  lemma {:induction false} DecimalValue(n: nat)
    ensures Value(Decimal(n)) == n && IsIndex(Decimal(n))
  {
    var last := ['0' + (n % 10) as char];
    if n < 10 {
      assert last[..0] == "";
    } else {
      DecimalValue(n / 10);
      var d := Decimal(n / 10) + last;
      assert d[..|d| - 1] == Decimal(n / 10);
      assert Value(Decimal(n / 10)) > 0;
      assert Value("0") == 0 by { assert "0"[..0] == ""; }
    }
  }

  /** The leading digit weighs a power of ten. */
  lemma {:induction false} ValueFront(key: string)
    requires key != "" && forall c | c in key :: IsDigit(c)
    ensures Value(key) == Digit(key[0]) * Pow10(|key| - 1) + Value(key[1..])
    decreases |key|
  {
    if |key| == 1 {
      assert key[..0] == "" && key[1..] == "";
    } else {
      var front := key[..|key| - 1];
      ValueFront(front);
      assert key[1..][..|key| - 2] == front[1..];
      assert 10 * (Digit(key[0]) * Pow10(|key| - 2)) == Digit(key[0]) * Pow10(|key| - 1) by {
        MoveTen(Digit(key[0]), Pow10(|key| - 2));
      }
    }
  }

  lemma MoveTen(a: nat, b: nat)
    ensures 10 * (a * b) == a * (10 * b)
  {
  }

  lemma Bounds(d: nat, p: nat)
    requires d <= 9
    ensures d * p <= 9 * p
    ensures d >= 1 ==> p <= d * p
  {
  }

  lemma {:induction false} ValueBelow(key: string)
    requires forall c | c in key :: IsDigit(c)
    ensures Value(key) < Pow10(|key|)
    decreases |key|
  {
    if key != "" {
      ValueFront(key);
      ValueBelow(key[1..]);
      Bounds(Digit(key[0]), Pow10(|key| - 1));
    }
  }

  lemma ValueAbove(key: string)
    requires IsIndex(key) && key != "0"
    ensures Pow10(|key| - 1) <= Value(key)
  {
    ValueFront(key);
    Bounds(Digit(key[0]), Pow10(|key| - 1));
  }

  lemma {:induction false} Pow10Grows(m: nat, n: nat)
    requires m <= n
    ensures 1 <= Pow10(m) <= Pow10(n)
    decreases n
  {
    if m < n {
      Pow10Grows(m, n - 1);
    } else if m > 0 {
      Pow10Grows(m - 1, m - 1);
    }
  }

  lemma Gap(d: nat, e: nat, p: nat)
    requires d < e
    ensures d * p + p <= e * p
  {
    MulMono(d + 1, e, p);
    assert (d + 1) * p == d * p + p;
  }

  lemma {:induction false} MulMono(a: nat, b: nat, p: nat)
    requires a <= b
    ensures a * p <= b * p
    decreases b
  {
    if a < b {
      MulMono(a, b - 1, p);
      assert b * p == (b - 1) * p + p;
    }
  }

  /** For strings of equal length the lexicographic order is the numeric order. */
  lemma {:induction false} SameLengthOrder(a: string, b: string)
    requires |a| == |b| && (forall c | c in a :: IsDigit(c)) && (forall c | c in b :: IsDigit(c))
    ensures N.Less(a, b) <==> Value(a) < Value(b)
    decreases |a|
  {
    if a != "" {
      var p := Pow10(|a| - 1);
      ValueFront(a);
      ValueFront(b);
      ValueBelow(a[1..]);
      ValueBelow(b[1..]);
      SameLengthOrder(a[1..], b[1..]);
      if Digit(a[0]) < Digit(b[0]) {
        Gap(Digit(a[0]), Digit(b[0]), p);
      } else if Digit(b[0]) < Digit(a[0]) {
        Gap(Digit(b[0]), Digit(a[0]), p);
      }
    }
  }

  /** The test before `int(key)`: longer than the bound, or as long and not smaller. */
  predicate OutOfRange(key: string, bound: string) {
    |key| > |bound| || (|key| == |bound| && !N.Less(key, bound))
  }

  /** The comparison by length and then by text refuses an index exactly when it is not below `n`. */
  lemma IndexBound(key: string, n: nat)
    requires IsIndex(key)
    ensures OutOfRange(key, Decimal(n)) <==> Value(key) >= n
  {
    var bound := Decimal(n);
    DecimalValue(n);
    if |key| == |bound| {
      SameLengthOrder(key, bound);
    } else if |key| > |bound| {
      if key != "0" {
        ValueAbove(key);
        ValueBelow(bound);
        Pow10Grows(|bound|, |key| - 1);
      }
    } else {
      if bound != "0" {
        ValueAbove(bound);
        ValueBelow(key);
        Pow10Grows(|key|, |bound| - 1);
      }
    }
  }

  // --- The evaluator ---------------------------------------------------------------------------

  /** The scan for stray tildes. */
  method CheckEscapes(t: string) returns (ok: bool)
    ensures ok <==> WellEscaped(t)
  {
    var index := 0;
    while index < |t|
      invariant index <= |t| && (WellEscaped(t[index..]) <==> WellEscaped(t))
    {
      ghost var rest := t[index..];
      if t[index] == '~' {
        if index + 1 == |t| || (t[index + 1] != '0' && t[index + 1] != '1') {
          return false;
        }
        assert rest[2..] == t[index + 2..];
        index := index + 1;
      } else {
        assert rest[1..] == t[index + 1..];
      }
      index := index + 1;
    }
    assert t[|t|..] == "";
    ok := true;
  }

  method Resolve(view: Json, pointer: string) returns (r: Result<Json>)
    ensures r == Evaluate(view, pointer)
  {
    if pointer == "" || pointer[0] != '/' {
      return Raised;
    }
    var tokens := Split(pointer[1..]);
    var value := view;
    for i := 0 to |tokens|
      invariant EvaluateTokens(value, tokens[i..]) == EvaluateTokens(view, tokens)
    {
      assert tokens[i..][0] == tokens[i] && tokens[i..][1..] == tokens[i + 1..];
      var ok := CheckEscapes(tokens[i]);
      if !ok {
        return Raised;
      }
      var key := Replace(Replace(tokens[i], "~1", "/"), "~0", "~");
      DecodedIsUnescape(tokens[i]);
      if value.Object? && key in value.members {
        value := value.members[key];
      } else if value.Array? && IsIndex(key) {
        IndexBound(key, |value.items|);
        if OutOfRange(key, Decimal(|value.items|)) {
          return Raised;
        }
        value := value.items[Value(key)];
      } else {
        return Raised;
      }
    }
    assert tokens[|tokens|..] == [];
    r := Ok(value);
  }

  // --- Round trip --------------------------------------------------------------------------------

  lemma {:induction false} EscapeRoundTrip(key: string)
    ensures WellEscaped(Escape(key)) && Unescape(Escape(key)) == key && '/' !in Escape(key)
  {
    if key != "" {
      EscapeRoundTrip(key[1..]);
      var t := Escape(key);
      if key[0] == '~' || key[0] == '/' {
        assert t[2..] == Escape(key[1..]);
      } else {
        assert t[1..] == Escape(key[1..]);
      }
    }
  }

  lemma LastPointer(keys: seq<string>)
    requires |keys| == 1
    ensures PointerTo(keys)[1..] == Escape(keys[0])
  {
    assert PointerTo(keys[1..]) == "";
  }

  lemma MorePointer(keys: seq<string>)
    requires |keys| > 1
    ensures PointerTo(keys)[1..] == Escape(keys[0]) + "/" + PointerTo(keys[1..])[1..]
  {
    var p := PointerTo(keys[1..]);
    assert p == "/" + p[1..];
  }

  /** The tokens of a pointer are the escaped keys. */
  lemma SplitPointer(keys: seq<string>)
    requires keys != []
    ensures Split(PointerTo(keys)[1..]) == [Escape(keys[0])] + (if |keys| == 1 then [] else Split(PointerTo(keys[1..])[1..]))
  {
    EscapeRoundTrip(keys[0]);
    if |keys| == 1 {
      LastPointer(keys);
      SplitPlain(Escape(keys[0]));
    } else {
      MorePointer(keys);
      SplitPart(Escape(keys[0]), PointerTo(keys[1..])[1..]);
    }
  }

  lemma {:induction false} TokensOfPointer(v: Json, keys: seq<string>)
    requires keys != []
    ensures EvaluateTokens(v, Split(PointerTo(keys)[1..])) == Walk(v, keys)
  {
    var tokens := Split(PointerTo(keys)[1..]);
    SplitPointer(keys);
    EscapeRoundTrip(keys[0]);
    assert tokens[0] == Escape(keys[0]);
    if |keys| == 1 {
      assert tokens[1..] == [] && keys[1..] == [];
    } else {
      assert tokens[1..] == Split(PointerTo(keys[1..])[1..]);
      if Child(v, keys[0]).Ok? {
        TokensOfPointer(Child(v, keys[0]).value, keys[1..]);
      }
    }
  }

  /** For every nonempty path of keys, whatever characters they hold, the pointer to it resolves to
      what following the keys gives. */
  lemma PointerRoundTrip(v: Json, keys: seq<string>)
    requires keys != []
    ensures Evaluate(v, PointerTo(keys)) == Walk(v, keys)
  {
    TokensOfPointer(v, keys);
  }
}
