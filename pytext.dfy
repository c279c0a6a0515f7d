/**
 * The few Python string built-ins the appliance relies on: `str.strip`,
 * `str.upper`, `str.rjust`, slicing, `str(int)`, `int(str)` and the ordering
 * `sorted` uses on strings.
 */
module PyText {
  import opened Wrappers

  /** Python's `str.isspace()` for one character. */
  predicate IsSpace(c: char) {
    ('\t' <= c <= '\r') || ('\U{1C}' <= c <= '\U{1F}') || c == ' ' || c == '\U{85}' || c == '\U{A0}'
    || c == '\U{1680}' || ('\U{2000}' <= c <= '\U{200A}') || c == '\U{2028}' || c == '\U{2029}'
    || c == '\U{202F}' || c == '\U{205F}' || c == '\U{3000}'
  }

  /** How many whitespace characters `s.lstrip()` removes. */
  function LeadingSpaces(s: string): (n: nat)
    ensures n <= |s|
    ensures forall i :: 0 <= i < n ==> IsSpace(s[i])
    ensures n < |s| ==> !IsSpace(s[n])
  {
    if s != [] && IsSpace(s[0]) then
      assert forall i :: 1 <= i < |s| ==> s[i] == s[1..][i - 1];
      1 + LeadingSpaces(s[1..])
    else 0
  }

  /** How many whitespace characters `s.rstrip()` removes. */
  function TrailingSpaces(s: string): (n: nat)
    ensures n <= |s|
    ensures forall i :: |s| - n <= i < |s| ==> IsSpace(s[i])
    ensures n < |s| ==> !IsSpace(s[|s| - n - 1])
  {
    if s != [] && IsSpace(s[|s| - 1]) then
      assert forall i :: 0 <= i < |s| - 1 ==> s[i] == s[..|s| - 1][i];
      1 + TrailingSpaces(s[..|s| - 1])
    else 0
  }

  /** `s.strip()`: the part of `s` between its leading and trailing whitespace. */
  function Strip(s: string): (r: string)
    ensures LeadingSpaces(s) + |r| <= |s|
    ensures r == s[LeadingSpaces(s)..LeadingSpaces(s) + |r|]
    ensures r == [] || (!IsSpace(r[0]) && !IsSpace(r[|r| - 1]))
    ensures forall i :: 0 <= i < LeadingSpaces(s) ==> IsSpace(s[i])
    ensures forall i :: LeadingSpaces(s) + |r| <= i < |s| ==> IsSpace(s[i])
  {
    var a := LeadingSpaces(s);
    if a == |s| then []
    else
      var b := TrailingSpaces(s);
      assert a < |s| - b;
      s[a..|s| - b]
  }

  /** A string with no whitespace at either end is its own `strip()`. */
  lemma StripUnpadded(s: string)
    requires s == [] || (!IsSpace(s[0]) && !IsSpace(s[|s| - 1]))
    ensures Strip(s) == s
  {
    if s != [] {
      assert LeadingSpaces(s) == 0 && TrailingSpaces(s) == 0;
    }
  }

  /** `strip()` leaves nothing exactly when every character is whitespace. */
  lemma StripEmptyIffBlank(s: string)
    ensures Strip(s) == [] <==> forall i :: 0 <= i < |s| ==> IsSpace(s[i])
  {
    if LeadingSpaces(s) < |s| {
      assert !IsSpace(s[LeadingSpaces(s)]);
    }
  }

  /** Leading padding is exactly what `lstrip()` removes from a padded word. */
  lemma {:induction false} LeadingPadded(k: nat, s: string)
    requires s != [] && !IsSpace(s[0])
    ensures LeadingSpaces(Spaces(k) + s) == k
  {
    if k > 0 {
      assert (Spaces(k) + s)[1..] == Spaces(k - 1) + s;
      LeadingPadded(k - 1, s);
    } else {
      assert Spaces(k) + s == s;
    }
  }

  /** `strip()` undoes left padding with spaces. */
  lemma StripPadded(k: nat, s: string)
    requires s != [] && !IsSpace(s[0]) && !IsSpace(s[|s| - 1])
    ensures Strip(Spaces(k) + s) == s
  {
    var p := Spaces(k) + s;
    LeadingPadded(k, s);
    assert p[|p| - 1] == s[|s| - 1];
    assert TrailingSpaces(p) == 0;
    assert p[k..|p|] == s;
  }

  /** `str.upper()` on one character; letters outside ASCII are left as they are. */
  function UpperChar(c: char): char {
    if 'a' <= c <= 'z' then (c as int - 'a' as int + 'A' as int) as char else c
  }

  /** `str.upper()`. */
  function Upper(s: string): (r: string)
    ensures |r| == |s| && forall i :: 0 <= i < |s| ==> r[i] == UpperChar(s[i])
  {
    seq(|s|, i requires 0 <= i < |s| => UpperChar(s[i]))
  }

  /** `n` spaces: Python's `' ' * n`, which is empty for `n <= 0`. */
  function Spaces(n: int): (r: string)
    ensures |r| == if n < 0 then 0 else n
    ensures forall i :: 0 <= i < |r| ==> r[i] == ' '
  {
    if n <= 0 then "" else seq(n, _ => ' ')
  }

  /** `s.rjust(w)`: `s` preceded by spaces up to width `w`, never shortened. */
  function RJust(s: string, w: int): (r: string)
    ensures |r| == if |s| >= w then |s| else w
    ensures r == Spaces(|r| - |s|) + s
  {
    if |s| >= w then s else Spaces(w - |s|) + s
  }

  /** `s[i:j]` for non-negative bounds: Python clamps both to the length. */
  function Slice(s: string, i: nat, j: nat): (r: string)
    ensures |r| <= |s| && (j <= |s| && i <= j ==> |r| == j - i)
    ensures i <= j ==> |r| <= j - i
    ensures forall k :: 0 <= k < |r| ==> i + k < |s| && r[k] == s[i + k]
  {
    var lo := if i < |s| then i else |s|;
    var hi := if j < |s| then j else |s|;
    if lo <= hi then s[lo..hi] else ""
  }

  /** The string with every `'.'` removed: `re.sub(r'\.', '', s)`. */
  function NoDots(s: string): (r: string)
    ensures |r| <= |s| && '.' !in r
  {
    if s == [] then [] else (if s[0] == '.' then [] else [s[0]]) + NoDots(s[1..])
  }

  lemma {:induction false} NoDotsAppend(a: string, b: string)
    ensures NoDots(a + b) == NoDots(a) + NoDots(b)
  {
    if a != [] {
      assert (a + b)[0] == a[0] && (a + b)[1..] == a[1..] + b;
      NoDotsAppend(a[1..], b);
      var h: string := if a[0] == '.' then [] else [a[0]];
      calc {
        NoDots(a + b);
        h + NoDots(a[1..] + b);
        h + (NoDots(a[1..]) + NoDots(b));
        (h + NoDots(a[1..])) + NoDots(b);
      }
    } else {
      assert a + b == b;
    }
  }

  /** Spaces contain no dot, so they all survive `NoDots`. */
  lemma {:induction false} NoDotsSpaces(n: int)
    ensures NoDots(Spaces(n)) == Spaces(n)
  {
    if n > 0 {
      assert Spaces(n) == [' '] + Spaces(n - 1);
      NoDotsSpaces(n - 1);
    }
  }

  /** Upper-casing maps dots to dots and nothing else to a dot. */
  lemma {:induction false} NoDotsUpper(s: string)
    ensures |NoDots(Upper(s))| == |NoDots(s)|
  {
    if s != [] {
      assert Upper(s)[1..] == Upper(s[1..]);
      NoDotsUpper(s[1..]);
    }
  }

  function DigitChar(d: nat): char
    requires d < 10
  {
    ('0' as int + d) as char
  }

  predicate IsDigit(c: char) {
    '0' <= c <= '9'
  }

  /** `str(n)` for a natural number. */
  function NatString(n: nat): (r: string)
    ensures |r| >= 1 && forall i :: 0 <= i < |r| ==> IsDigit(r[i])
    ensures r[0] != '0' || n == 0
    decreases n
  {
    if n < 10 then [DigitChar(n)] else NatString(n / 10) + [DigitChar(n % 10)]
  }

  /** `str(n)`. */
  function DecimalString(n: int): (r: string)
    ensures |r| >= 1 && !IsSpace(r[0]) && !IsSpace(r[|r| - 1])
  {
    if n < 0 then "-" + NatString(-n) else NatString(n)
  }

  /** The value of a string of decimal digits, most significant first. */
  function DigitsValue(s: string): nat
    requires forall i :: 0 <= i < |s| ==> IsDigit(s[i])
  {
    if s == [] then 0
    else
      assert IsDigit(s[|s| - 1]);
      10 * DigitsValue(s[..|s| - 1]) + (s[|s| - 1] as int - '0' as int)
  }

  /** `int(t)` for text already stripped: an optional sign, then one or more digits. */
  function ParseSigned(t: string): (r: Option<int>)
    ensures r.Some? ==> t != []
  {
    var sign := if t != [] && (t[0] == '-' || t[0] == '+') then 1 else 0;
    var ds := t[sign..];
    if ds != [] && forall i :: 0 <= i < |ds| ==> IsDigit(ds[i]) then
      var v: int := DigitsValue(ds);
      Some(if sign == 1 && t[0] == '-' then -v else v)
    else
      None
  }

  /** `int(s)` for text: surrounding whitespace, an optional sign, then one or more digits. */
  function ParseInt(s: string): (r: Option<int>)
    ensures r.Some? ==> Strip(s) != []
  {
    ParseSigned(Strip(s))
  }

  lemma {:induction false} NatStringValue(n: nat)
    ensures DigitsValue(NatString(n)) == n
    decreases n
  {
    if n >= 10 {
      var s := NatString(n / 10) + [DigitChar(n % 10)];
      assert s[..|s| - 1] == NatString(n / 10);
      NatStringValue(n / 10);
    }
  }

  /** The sign and digits of `str(n)` read back as `n`. */
  lemma SignedDecimalString(n: int)
    ensures ParseSigned(DecimalString(n)) == Some(n)
  {
    var s := DecimalString(n);
    if n < 0 {
      assert s[1..] == NatString(-n);
      NatStringValue(-n);
    } else {
      NatStringValue(n);
    }
  }

  /** `int(str(n)) == n`: decimal rendering and parsing are inverse. */
  lemma ParseDecimalString(n: int)
    ensures ParseInt(DecimalString(n)) == Some(n)
  {
    StripUnpadded(DecimalString(n));
    SignedDecimalString(n);
  }

  /** `int(str(n).rjust(w)) == n`: right-justified decimal text reads back as the number. */
  lemma ParseRJust(n: int, w: int)
    ensures ParseInt(RJust(DecimalString(n), w)) == Some(n)
  {
    var d := DecimalString(n);
    var r := RJust(d, w);
    assert r == Spaces(|r| - |d|) + d;
    StripPadded(|r| - |d|, d);
    assert Strip(r) == d;
    SignedDecimalString(n);
    assert ParseInt(r) == ParseSigned(d);
  }

  /** Python's `<` on strings: code-point lexicographic order. */
  predicate StrLess(a: string, b: string) {
    if a == [] then b != []
    else if b == [] then false
    else if a[0] != b[0] then a[0] < b[0]
    else StrLess(a[1..], b[1..])
  }

  lemma {:induction false} StrLessIrreflexive(a: string)
    ensures !StrLess(a, a)
  {
    if a != [] { StrLessIrreflexive(a[1..]); }
  }

  lemma {:induction false} StrLessTransitive(a: string, b: string, c: string)
    requires StrLess(a, b) && StrLess(b, c)
    ensures StrLess(a, c)
  {
    if a != [] && b != [] && c != [] && a[0] == b[0] && b[0] == c[0] {
      StrLessTransitive(a[1..], b[1..], c[1..]);
    }
  }

  lemma {:induction false} StrLessTotal(a: string, b: string)
    ensures a == b || StrLess(a, b) || StrLess(b, a)
  {
    if a != [] && b != [] && a[0] == b[0] {
      StrLessTotal(a[1..], b[1..]);
      if a[1..] == b[1..] {
        assert a == [a[0]] + a[1..] && b == [b[0]] + b[1..];
      }
    }
  }

  /**
   * A rendered value: literal text, or `prefix` followed by the number
   * `value` formatted with `places` decimals (Python's `f'{v:.2f}'`), whose
   * digits the model does not compute.
   */
  datatype Formatted = Plain(text: string) | Fixed(prefix: string, value: real, places: nat)

  /** `prefix + text` for either kind of rendering. */
  function Prefixed(prefix: string, f: Formatted): (r: Formatted)
    ensures r.Plain? == f.Plain?
  {
    match f
    case Plain(t) => Plain(prefix + t)
    case Fixed(p, v, n) => Fixed(prefix + p, v, n)
  }
}
