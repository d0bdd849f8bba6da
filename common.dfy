/** Shared vocabulary: optional values, results, and the handful of string
    operations the JavaScript and Python code relies on (decimal digits,
    zero padding, trimming, lower-casing, ordering, splitting). */
module Common {

  datatype Option<T> = None | Some(value: T)

  datatype Result<T, E> = Ok(value: T) | Err(error: E)

  // ---------------------------------------------------------------------
  // Decimal digits

  predicate IsDigit(c: char) {
    '0' <= c <= '9'
  }

  predicate AllDigits(s: string) {
    forall i :: 0 <= i < |s| ==> IsDigit(s[i])
  }

  function DigitChar(d: nat): (c: char)
    requires d < 10
    ensures IsDigit(c) && c as int - '0' as int == d
  {
    ('0' as int + d) as char
  }

  function DigitValue(c: char): (d: nat)
    requires IsDigit(c)
    ensures d < 10 && DigitChar(d) == c
  {
    c as int - '0' as int
  }

  /** The decimal rendering of a natural number, as `Number.prototype.toString`
      and Python's `str` give it: no sign, no leading zeros. */
  function NatToString(n: nat): (s: string)
    decreases n
  {
    if n < 10 then [DigitChar(n)] else NatToString(n / 10) + [DigitChar(n % 10)]
  }

  /** The value of a run of decimal digits (possibly empty, which is 0). */
  function DigitsValue(s: string): nat
    requires AllDigits(s)
    decreases |s|
  {
    if s == [] then 0 else DigitsValue(s[..|s| - 1]) * 10 + DigitValue(s[|s| - 1])
  }

  lemma {:induction false} NatToStringShape(n: nat)
    ensures |NatToString(n)| >= 1 && AllDigits(NatToString(n))
    ensures n >= 10 ==> NatToString(n)[0] != '0'
    ensures (n < 10) == (|NatToString(n)| == 1)
    decreases n
  {
    if n >= 10 {
      NatToStringShape(n / 10);
      assert NatToString(n)[0] == NatToString(n / 10)[0];
    }
  }

  /** Rendering and reading back a number are inverse. */
  lemma {:induction false} NatToStringRoundTrip(n: nat)
    ensures AllDigits(NatToString(n)) && DigitsValue(NatToString(n)) == n
    decreases n
  {
    NatToStringShape(n);
    if n >= 10 {
      var s := NatToString(n);
      NatToStringRoundTrip(n / 10);
      assert s[..|s| - 1] == NatToString(n / 10);
    }
  }

  lemma {:induction false} NatToStringInjective(m: nat, n: nat)
    requires NatToString(m) == NatToString(n)
    ensures m == n
  {
    NatToStringRoundTrip(m);
    NatToStringRoundTrip(n);
  }

  /** `n.toString().padStart(2, '0')`. */
  function Pad2(n: nat): string {
    var s := NatToString(n);
    if |s| < 2 then "0" + s else s
  }

  lemma {:induction false} Pad2Facts(n: nat)
    requires n < 100
    ensures |Pad2(n)| == 2 && AllDigits(Pad2(n)) && DigitsValue(Pad2(n)) == n
  {
    NatToStringShape(n);
    NatToStringRoundTrip(n);
    if n < 10 {
      var s := NatToString(n);
      assert Pad2(n) == ['0', s[0]];
      assert Pad2(n)[..1] == "0";
    } else {
      NatToStringShape(n / 10);
    }
  }

  /** `String.prototype.slice(-k)`: the last `k` characters, or all of them. */
  function LastChars(s: string, k: nat): (r: string)
    ensures |r| == if |s| < k then |s| else k
    ensures s == s[..|s| - |r|] + r
  {
    if |s| <= k then s else s[|s| - k..]
  }

  // ---------------------------------------------------------------------
  // Whitespace and case

  /** The two whitespace sets the code trims with. */
  datatype Space = JsSpace | PySpace

  /** The characters `String.prototype.trim` removes: ECMAScript WhiteSpace
      (TAB, VT, FF, ZWNBSP and the Unicode space separators) and
      LineTerminator (LF, CR, LS, PS). */
  predicate IsJsSpace(c: char) {
    var k := c as int;
    k == 0x09 || k == 0x0A || k == 0x0B || k == 0x0C || k == 0x0D || k == 0x20 ||
    k == 0xA0 || k == 0x1680 || (0x2000 <= k <= 0x200A) || k == 0x2028 || k == 0x2029 ||
    k == 0x202F || k == 0x205F || k == 0x3000 || k == 0xFEFF
  }

  /** The characters Python's `str.strip()` removes (`str.isspace`): unlike
      JavaScript it includes the separators 0x1C-0x1F and NEL, and not
      ZWNBSP. */
  predicate IsPySpace(c: char) {
    var k := c as int;
    (0x09 <= k <= 0x0D) || (0x1C <= k <= 0x20) || k == 0x85 ||
    k == 0xA0 || k == 0x1680 || (0x2000 <= k <= 0x200A) || k == 0x2028 || k == 0x2029 ||
    k == 0x202F || k == 0x205F || k == 0x3000
  }

  predicate IsSpace(ws: Space, c: char) {
    match ws
    case JsSpace => IsJsSpace(c)
    case PySpace => IsPySpace(c)
  }

  predicate AllSpace(ws: Space, s: string) {
    forall i :: 0 <= i < |s| ==> IsSpace(ws, s[i])
  }

  function TrimStart(ws: Space, s: string): string {
    if s == [] || !IsSpace(ws, s[0]) then s else TrimStart(ws, s[1..])
  }

  function TrimEnd(ws: Space, s: string): string {
    if s == [] || !IsSpace(ws, s[|s| - 1]) then s else TrimEnd(ws, s[..|s| - 1])
  }

  /** `String.prototype.trim`. */
  function Trim(s: string): string {
    TrimEnd(JsSpace, TrimStart(JsSpace, s))
  }

  /** Python's `str.strip()`. */
  function Strip(s: string): string {
    TrimEnd(PySpace, TrimStart(PySpace, s))
  }

  /** Trimming the start drops a prefix of whitespace and stops at the
      first character that is not whitespace. */
  lemma {:induction false} TrimStartFacts(ws: Space, s: string)
    ensures var r := TrimStart(ws, s);
            (r == [] || !IsSpace(ws, r[0])) &&
            |r| <= |s| && r == s[|s| - |r|..] && AllSpace(ws, s[..|s| - |r|])
  {
    if s != [] && IsSpace(ws, s[0]) {
      TrimStartFacts(ws, s[1..]);
      var r := TrimStart(ws, s[1..]);
      assert s[1..][|s| - 1 - |r|..] == s[|s| - |r|..];
      assert forall i :: 0 <= i < |s| - 1 - |r| ==> s[1..][i] == s[i + 1];
      assert AllSpace(ws, s[..|s| - |r|]) by {
        forall i | 0 <= i < |s| - |r| ensures IsSpace(ws, s[i]) {
          if i > 0 {
            assert s[i] == s[1..][..|s| - 1 - |r|][i - 1];
          }
        }
      }
    }
  }

  /** Trimming the end drops a suffix of whitespace and stops at the last
      character that is not whitespace. */
  lemma {:induction false} TrimEndFacts(ws: Space, s: string)
    ensures var r := TrimEnd(ws, s);
            (r == [] || !IsSpace(ws, r[|r| - 1])) &&
            |r| <= |s| && r == s[..|r|] && AllSpace(ws, s[|r|..])
  {
    if s != [] && IsSpace(ws, s[|s| - 1]) {
      TrimEndFacts(ws, s[..|s| - 1]);
      var r := TrimEnd(ws, s[..|s| - 1]);
      assert s[..|s| - 1][..|r|] == s[..|r|];
      assert forall i :: |r| <= i < |s| - 1 ==> s[i] == s[..|s| - 1][i];
    }
  }

  /** A string trims to nothing exactly when it consists of whitespace. */
  lemma {:induction false} TrimEmptyIffBlank(ws: Space, s: string)
    ensures TrimEnd(ws, TrimStart(ws, s)) == [] <==> AllSpace(ws, s)
  {
    TrimStartFacts(ws, s);
    var t := TrimStart(ws, s);
    TrimEndFacts(ws, t);
    if t == [] {
      assert s == s[..|s| - |t|];
    } else {
      assert s[|s| - |t|] == t[0];
      assert t[0..] == t;
    }
  }

  /** Trimming leaves a string without surrounding whitespace unchanged. */
  lemma {:induction false} TrimUnchanged(ws: Space, s: string)
    requires s == [] || (!IsSpace(ws, s[0]) && !IsSpace(ws, s[|s| - 1]))
    ensures TrimEnd(ws, TrimStart(ws, s)) == s
  {
  }

  /** Lower-casing of one character (ASCII letters only). */
  function LowerChar(c: char): char {
    if 'A' <= c <= 'Z' then (c as int + 32) as char else c
  }

  /** `String.prototype.toLowerCase`, for ASCII letters. */
  function Lower(s: string): (r: string)
    ensures |r| == |s| && forall i :: 0 <= i < |s| ==> r[i] == LowerChar(s[i])
  {
    seq(|s|, i requires 0 <= i < |s| => LowerChar(s[i]))
  }

  /** Case-insensitive equality as `a.toLowerCase() === b.toLowerCase()`. */
  predicate SameIgnoringCase(a: string, b: string) {
    Lower(a) == Lower(b)
  }

  // ---------------------------------------------------------------------
  // Ordering and splitting

  /** Strict code-point lexicographic order, as Python compares `str`. */
  predicate StrLess(a: string, b: string)
    decreases |a|
  {
    if a == [] then b != []
    else if b == [] then false
    else if a[0] != b[0] then a[0] < b[0]
    else StrLess(a[1..], b[1..])
  }

  lemma {:induction false} StrLessIrreflexive(a: string)
    ensures !StrLess(a, a)
    decreases |a|
  {
    if a != [] { StrLessIrreflexive(a[1..]); }
  }

  lemma {:induction false} StrLessTrichotomy(a: string, b: string)
    ensures a == b || StrLess(a, b) || StrLess(b, a)
    decreases |a|
  {
    if a != [] && b != [] && a[0] == b[0] {
      StrLessTrichotomy(a[1..], b[1..]);
      if a[1..] == b[1..] {
        assert a == [a[0]] + a[1..] && b == [b[0]] + b[1..];
      }
    }
  }

  lemma {:induction false} StrLessTransitive(a: string, b: string, c: string)
    requires StrLess(a, b) && StrLess(b, c)
    ensures StrLess(a, c)
    decreases |a|
  {
    if a != [] && b != [] && c != [] && a[0] == b[0] && b[0] == c[0] {
      StrLessTransitive(a[1..], b[1..], c[1..]);
    }
  }

  lemma {:induction false} StrLessAsymmetric(a: string, b: string)
    requires StrLess(a, b)
    ensures !StrLess(b, a)
    decreases |a|
  {
    if a != [] && b != [] && a[0] == b[0] {
      StrLessAsymmetric(a[1..], b[1..]);
    }
  }

  /** The text after the last occurrence of `sep`, or the whole string when
      `sep` does not occur: Python's `s.split(sep)[-1]`. */
  function AfterLast(s: string, sep: char): (r: string)
    ensures sep !in r
    decreases |s|
  {
    if s == [] then []
    else if s[|s| - 1] == sep then []
    else AfterLast(s[..|s| - 1], sep) + [s[|s| - 1]]
  }

  /** The text kept is a suffix of `s`, preceded by `sep` unless it is all
      of `s`. */
  lemma {:induction false} AfterLastFacts(s: string, sep: char)
    ensures var r := AfterLast(s, sep);
            |r| <= |s| && r == s[|s| - |r|..] &&
            (|r| < |s| ==> s[|s| - |r| - 1] == sep)
    decreases |s|
  {
    if s != [] && s[|s| - 1] != sep {
      var init := s[..|s| - 1];
      AfterLastFacts(init, sep);
      var t := AfterLast(init, sep);
      assert AfterLast(s, sep) == t + [s[|s| - 1]];
      assert init[|init| - |t|..] + [s[|s| - 1]] == s[|s| - |t| - 1..];
      if |t| < |init| {
        assert s[|s| - |t| - 2] == init[|init| - |t| - 1];
      }
    }
  }

  /** A string built from a prefix, a separator and a separator-free tail
      splits back to that tail. */
  lemma {:induction false} AfterLastOfJoin(p: string, sep: char, t: string)
    requires sep !in t
    ensures AfterLast(p + [sep] + t, sep) == t
    decreases |t|
  {
    var s := p + [sep] + t;
    if t != [] {
      assert s[|s| - 1] == t[|t| - 1];
      assert s[|s| - 1] != sep;
      assert s[..|s| - 1] == p + [sep] + t[..|t| - 1];
      AfterLastOfJoin(p, sep, t[..|t| - 1]);
      assert AfterLast(s, sep) == t[..|t| - 1] + [t[|t| - 1]];
      assert t[..|t| - 1] + [t[|t| - 1]] == t;
    } else {
      assert s[|s| - 1] == sep;
    }
  }
}
