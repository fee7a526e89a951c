/** String operations of the Rust standard library and of the `radix` crate that the
    core relies on: radix formatting, `trim`, `splitn(2, ' ')`, `replace(pat, "")`
    and the `{:?}` quoting of a string. */
module Text {

  /** The digit for `d` in bases up to 36, upper-case letters after '9'. */
  function DigitChar(d: nat): (c: char)
    requires d < 36
    ensures '0' <= c <= '9' || 'A' <= c <= 'Z'
  {
    if d < 10 then ('0' as int + d) as char else ('A' as int + d - 10) as char
  }

  /** The value of a digit character; 0 for anything that is not a digit. */
  function DigitValue(c: char): nat {
    if '0' <= c <= '9' then c as int - '0' as int
    else if 'A' <= c <= 'Z' then c as int - 'A' as int + 10
    else 0
  }

  predicate IsRadixDigit(c: char, radix: nat) {
    ('0' <= c <= '9' || 'A' <= c <= 'Z') && DigitValue(c) < radix
  }

  lemma DigitCharValue(d: nat)
    requires d < 36
    ensures DigitValue(DigitChar(d)) == d
  {
  }

  /** Euclidean division facts for a positive base. */
  lemma DivModBase(n: nat, radix: nat)
    requires 2 <= radix && n >= radix
    ensures 0 < n / radix < n && 0 <= n % radix < radix
    ensures n == (n / radix) * radix + n % radix
  {
  }

  /** The representation of `n` in base `radix`, most significant digit first, without leading zeros. */
  function NatToRadix(n: nat, radix: nat): (s: string)
    requires 2 <= radix <= 36
    ensures |s| >= 1
    ensures forall i :: 0 <= i < |s| ==> IsRadixDigit(s[i], radix)
    ensures s[0] == '0' ==> n == 0
    decreases n
  {
    if n < radix then
      DigitCharValue(n);
      [DigitChar(n)]
    else
      DivModBase(n, radix);
      DigitCharValue(n % radix);
      NatToRadix(n / radix, radix) + [DigitChar(n % radix)]
  }

  /** The value of a string of digits in base `radix`; the reference reading of NatToRadix. */
  function RadixToNat(s: string, radix: nat): nat
    decreases |s|
  {
    if s == [] then 0 else RadixToNat(s[..|s| - 1], radix) * radix + DigitValue(s[|s| - 1])
  }

  lemma {:induction false} RadixRoundTrip(n: nat, radix: nat)
    requires 2 <= radix <= 36
    ensures RadixToNat(NatToRadix(n, radix), radix) == n
    decreases n
  {
    var s := NatToRadix(n, radix);
    if n < radix {
      DigitCharValue(n);
    } else {
      DivModBase(n, radix);
      DigitCharValue(n % radix);
      var q, d := n / radix, n % radix;
      RadixRoundTrip(q, radix);
      assert s[..|s| - 1] == NatToRadix(q, radix);
      assert s[|s| - 1] == DigitChar(d);
      assert RadixToNat(s, radix) == RadixToNat(NatToRadix(q, radix), radix) * radix + d;
    }
  }

  /** Distinct numbers have distinct representations. */
  lemma RadixInjective(m: nat, n: nat, radix: nat)
    requires 2 <= radix <= 36
    requires NatToRadix(m, radix) == NatToRadix(n, radix)
    ensures m == n
  {
    RadixRoundTrip(m, radix);
    RadixRoundTrip(n, radix);
  }

  /** `format!("{}", i)` for an integer: a minus sign, then the decimal digits. */
  function IntToDecimal(i: int): (s: string)
    ensures |s| >= 1
    ensures i < 0 <==> s[0] == '-'
  {
    if i < 0 then "-" + NatToRadix(-i, 10) else NatToRadix(i, 10)
  }

  /** Reading back what IntToDecimal writes. */
  function DecimalToInt(s: string): int {
    if s != [] && s[0] == '-' then 0 - RadixToNat(s[1..], 10) as int else RadixToNat(s, 10)
  }

  lemma DecimalRoundTrip(i: int)
    ensures DecimalToInt(IntToDecimal(i)) == i
  {
    if i < 0 {
      RadixRoundTrip(-i, 10);
      assert IntToDecimal(i)[1..] == NatToRadix(-i, 10);
    } else {
      RadixRoundTrip(i, 10);
    }
  }

  /** Rust's `char::is_whitespace`: the Unicode White_Space property. */
  predicate IsWhitespace(c: char) {
    ('\U{9}' <= c <= '\U{D}') || c == ' ' || c == '\U{85}' || c == '\U{A0}' || c == '\U{1680}'
    || ('\U{2000}' <= c <= '\U{200A}') || c == '\U{2028}' || c == '\U{2029}' || c == '\U{202F}'
    || c == '\U{205F}' || c == '\U{3000}'
  }

  /** The end of the run of whitespace that starts at index `i`. */
  function WhitespaceEnd(s: string, i: nat): (k: nat)
    requires i <= |s|
    ensures i <= k <= |s|
    ensures forall j :: i <= j < k ==> IsWhitespace(s[j])
    ensures k < |s| ==> !IsWhitespace(s[k])
    decreases |s| - i
  {
    if i < |s| && IsWhitespace(s[i]) then WhitespaceEnd(s, i + 1) else i
  }

  /** The start of the run of whitespace that ends at index `j`, not going below `lo`. */
  function WhitespaceStart(s: string, lo: nat, j: nat): (k: nat)
    requires lo <= j <= |s|
    ensures lo <= k <= j
    ensures forall x :: k <= x < j ==> IsWhitespace(s[x])
    ensures k > lo ==> !IsWhitespace(s[k - 1])
    decreases j
  {
    if j > lo && IsWhitespace(s[j - 1]) then WhitespaceStart(s, lo, j - 1) else j
  }

  /** `trim`: the slice of `s` left when its leading and then its trailing whitespace are dropped. */
  function Trim(s: string): (r: string)
    ensures var k := WhitespaceEnd(s, 0);
      && k + |r| <= |s|
      && r == s[k..k + |r|]
      && (forall i :: 0 <= i < k ==> IsWhitespace(s[i]))
      && (forall i :: k + |r| <= i < |s| ==> IsWhitespace(s[i]))
    ensures r != [] ==> !IsWhitespace(r[0]) && !IsWhitespace(r[|r| - 1])
  {
    var k := WhitespaceEnd(s, 0);
    s[k..WhitespaceStart(s, k, |s|)]
  }

  /** Trimming removes exactly the surrounding whitespace of a core that starts and ends with a
      non-whitespace character. */
  lemma TrimAround(lead: string, core: string, trail: string)
    requires forall i :: 0 <= i < |lead| ==> IsWhitespace(lead[i])
    requires forall i :: 0 <= i < |trail| ==> IsWhitespace(trail[i])
    requires core != [] && !IsWhitespace(core[0]) && !IsWhitespace(core[|core| - 1])
    ensures Trim(lead + core + trail) == core
  {
    var s := lead + core + trail;
    var k := WhitespaceEnd(s, 0);
    assert s[|lead|] == core[0];
    assert forall j :: 0 <= j < |lead| ==> s[j] == lead[j];
    assert k == |lead|;
    var e := WhitespaceStart(s, k, |s|);
    var m := |lead| + |core|;
    assert s[m - 1] == core[|core| - 1];
    assert forall j :: m <= j < |s| ==> s[j] == trail[j - m];
    assert e == m;
    assert s[k..e] == core;
  }

  /** `s.splitn(2, ' ').collect()`: the text before the first space and, when there is one, the rest. */
  function SplitAtFirstSpace(s: string): (parts: seq<string>)
    ensures |parts| == 1 || |parts| == 2
    ensures |parts| == 1 <==> ' ' !in s
    ensures |parts| == 1 ==> parts[0] == s
    ensures |parts| == 2 ==> s == parts[0] + " " + parts[1] && ' ' !in parts[0]
    decreases |s|
  {
    if s == [] then [s]
    else if s[0] == ' ' then ["", s[1..]]
    else
      var rest := SplitAtFirstSpace(s[1..]);
      assert s == [s[0]] + s[1..];
      [[s[0]] + rest[0]] + rest[1..]
  }

  /** `pat` occurs somewhere in `s`. */
  predicate Contains(s: string, pat: string) {
    exists i | 0 <= i <= |s| :: OccursAt(s, pat, i)
  }

  predicate OccursAt(s: string, pat: string, i: int) {
    0 <= i <= |s| - |pat| && s[i..i + |pat|] == pat
  }

  /** `s.replace(pat, "")`: every non-overlapping occurrence of `pat`, found left to right, removed. */
  function RemoveAll(s: string, pat: string): (r: string)
    requires pat != []
    ensures |r| <= |s|
    decreases |s|
  {
    if |s| < |pat| then s
    else if pat <= s then RemoveAll(s[|pat|..], pat)
    else [s[0]] + RemoveAll(s[1..], pat)
  }

  /** A string without an occurrence of `pat` is left as it is. */
  lemma {:induction false} RemoveAllAbsent(s: string, pat: string)
    requires pat != [] && !Contains(s, pat)
    ensures RemoveAll(s, pat) == s
    decreases |s|
  {
    if |s| >= |pat| {
      if pat <= s {
        assert OccursAt(s, pat, 0);
        assert false;
      }
      RemoveAllAbsentTail(s, pat);
      RemoveAllAbsent(s[1..], pat);
      assert s == [s[0]] + s[1..];
    }
  }

  /** The tail of a string without `pat` has no `pat` either. */
  lemma RemoveAllAbsentTail(s: string, pat: string)
    requires s != [] && !Contains(s, pat)
    ensures !Contains(s[1..], pat)
  {
    if Contains(s[1..], pat) {
      var i :| 0 <= i <= |s[1..]| && OccursAt(s[1..], pat, i);
      assert s[i + 1..i + 1 + |pat|] == s[1..][i..i + |pat|];
      assert OccursAt(s, pat, i + 1);
      assert false;
    }
  }

  /** Removing occurrences after a leading `pat`: the prefix goes, the rest is treated alone. */
  lemma RemoveAllLeading(pat: string, t: string)
    requires pat != [] && !Contains(t, pat)
    ensures RemoveAll(pat + t, pat) == t
  {
    assert (pat + t)[|pat|..] == t;
    RemoveAllAbsent(t, pat);
  }

  /** The characters `{:?}` writes as `\u{hex}` because they are not printable or extend the
      previous grapheme: the control characters without a short escape, DEL and the C1 controls, the
      soft hyphen, the combining diacritical marks, and the zero-width, bidirectional-format, line and
      paragraph separator characters and the byte-order mark. */
  predicate NeedsUnicodeEscape(c: char) {
    (c < ' ' && c != '\t' && c != '\n' && c != '\r' && c != '\0')
    || ('\U{7F}' <= c <= '\U{9F}') || c == '\U{AD}'
    || ('\U{300}' <= c <= '\U{36F}')
    || ('\U{200B}' <= c <= '\U{200F}') || ('\U{2028}' <= c <= '\U{202E}')
    || ('\U{2060}' <= c <= '\U{2064}') || c == '\U{FEFF}'
  }

  /** A character `{:?}` leaves as it is inside a string. */
  predicate Visible(c: char) {
    !NeedsUnicodeEscape(c) && c != '\n' && c != '\r' && c != '\t' && c != '\0'
  }

  function LowerDigit(c: char): char {
    if 'A' <= c <= 'Z' then (c as int + 32) as char else c
  }

  function UpperDigit(c: char): char {
    if 'a' <= c <= 'z' then (c as int - 32) as char else c
  }

  /** `{:x}`: lower-case hexadecimal without leading zeros. */
  function LowerHex(n: nat): (h: string)
    ensures |h| >= 1
    ensures forall i :: 0 <= i < |h| ==> ('0' <= h[i] <= '9' || 'a' <= h[i] <= 'f')
  {
    var u := NatToRadix(n, 16);
    seq(|u|, i requires 0 <= i < |u| => LowerDigit(u[i]))
  }

  /** Reading lower-case hexadecimal back. */
  function HexValue(h: string): nat {
    RadixToNat(seq(|h|, i requires 0 <= i < |h| => UpperDigit(h[i])), 16)
  }

  lemma HexRoundTrip(n: nat)
    ensures HexValue(LowerHex(n)) == n
  {
    var u := NatToRadix(n, 16);
    var h := LowerHex(n);
    var back := seq(|h|, i requires 0 <= i < |h| => UpperDigit(h[i]));
    assert back == u by {
      forall i | 0 <= i < |u|
        ensures back[i] == u[i]
      {
        assert IsRadixDigit(u[i], 16);
      }
    }
    RadixRoundTrip(n, 16);
  }

  /** How `{:?}` writes one character inside a quoted string. */
  function EscapeChar(c: char): (e: string)
    ensures forall i :: 0 <= i < |e| ==> Visible(e[i])
  {
    if c == '"' then "\\\""
    else if c == '\\' then "\\\\"
    else if c == '\n' then "\\n"
    else if c == '\r' then "\\r"
    else if c == '\t' then "\\t"
    else if c == '\0' then "\\0"
    else if NeedsUnicodeEscape(c) then "\\u{" + LowerHex(c as int) + "}"
    else [c]
  }

  function Escaped(s: string): (e: string)
    ensures forall i :: 0 <= i < |e| ==> Visible(e[i])
    decreases |s|
  {
    if s == [] then [] else EscapeChar(s[0]) + Escaped(s[1..])
  }

  /** `format!("{:?}", s)` for a string: quoted, with nothing unprintable between the quotes. */
  function DebugString(s: string): (r: string)
    ensures |r| >= 2 && r[0] == '"' && r[|r| - 1] == '"'
    ensures forall i :: 0 < i < |r| - 1 ==> Visible(r[i])
  {
    "\"" + Escaped(s) + "\""
  }

  /** The character a backslash escape stands for. */
  function UnescapeChar(c: char): char {
    if c == 'n' then '\n'
    else if c == 'r' then '\r'
    else if c == 't' then '\t'
    else if c == '0' then '\0'
    else c
  }

  /** The position of the first '}' at or after `i`, or the end. */
  function CloseBrace(t: string, i: nat): (k: nat)
    requires i <= |t|
    ensures i <= k <= |t|
    ensures forall j :: i <= j < k ==> t[j] != '}'
    ensures k < |t| ==> t[k] == '}'
    decreases |t| - i
  {
    if i == |t| || t[i] == '}' then i else CloseBrace(t, i + 1)
  }

  /** The character with a code point, or a space for a number that is none. */
  function CodeChar(n: nat): char {
    if n < 0xD800 || 0xE000 <= n < 0x11_0000 then n as char else ' '
  }

  /** Reading an escaped string back; the reference inverse of Escaped. */
  function Unescaped(t: string): string
    decreases |t|
  {
    if t == [] then []
    else if |t| >= 3 && t[0] == '\\' && t[1] == 'u' && t[2] == '{' then
      var k := CloseBrace(t, 3);
      [CodeChar(HexValue(t[3..k]))] + Unescaped(if k < |t| then t[k + 1..] else [])
    else if t[0] == '\\' && |t| >= 2 then [UnescapeChar(t[1])] + Unescaped(t[2..])
    else [t[0]] + Unescaped(t[1..])
  }

  lemma {:induction false} EscapeRoundTrip(s: string)
    ensures Unescaped(Escaped(s)) == s
    decreases |s|
  {
    if s != [] {
      EscapeRoundTrip(s[1..]);
      UnescapeEscapeChar(s[0], Escaped(s[1..]));
      assert s == [s[0]] + s[1..];
    }
  }

  /** Reading back one escaped character, whatever follows it. */
  lemma UnescapeEscapeChar(c: char, rest: string)
    ensures Unescaped(EscapeChar(c) + rest) == [c] + Unescaped(rest)
  {
    var t := EscapeChar(c) + rest;
    if NeedsUnicodeEscape(c) {
      var h := LowerHex(c as int);
      assert EscapeChar(c) == "\\u{" + h + "}";
      HexRoundTrip(c as int);
      UnescapeUnicode(h, rest, c);
    } else if |EscapeChar(c)| == 2 {
      assert t[2..] == rest;
    } else {
      assert t[1..] == rest;
    }
  }

  /** Reading back a `\u{hex}` escape, whatever follows it. */
  lemma UnescapeUnicode(h: string, rest: string, c: char)
    requires forall i :: 0 <= i < |h| ==> h[i] != '}'
    requires HexValue(h) == c as int
    ensures Unescaped("\\u{" + h + "}" + rest) == [c] + Unescaped(rest)
  {
    var t := "\\u{" + h + "}" + rest;
    var k := CloseBrace(t, 3);
    assert t[3 + |h|] == '}';
    assert k == 3 + |h|;
    assert t[3..k] == h;
    assert t[k + 1..] == rest;
  }

  /** A control character is written as its code point in hexadecimal: "/x" followed by U+0001
      becomes "/x\u{1}" between quotes. */
  lemma DebugStringOfControl()
    ensures DebugString("/x\U{1}") == "\"/x\\u{1}\""
  {
    assert NatToRadix(1, 16) == "1";
    assert LowerHex(1) == "1";
    assert Escaped("\U{1}") == "\\u{1}";
    assert Escaped("x\U{1}") == "x\\u{1}";
  }

  /** Two strings with the same `{:?}` form are the same string. */
  lemma DebugStringInjective(a: string, b: string)
    requires DebugString(a) == DebugString(b)
    ensures a == b
  {
    var da, db := DebugString(a), DebugString(b);
    assert Escaped(a) == da[1..|da| - 1];
    assert Escaped(b) == db[1..|db| - 1];
    EscapeRoundTrip(a);
    EscapeRoundTrip(b);
  }
}
