/**
 * The ECMAScript string operations the pages rely on: `trim`, `toLowerCase`,
 * `includes`, `split(" ")`, `Number.parseInt` and the decimal rendering of an
 * integer. Strings are sequences of characters.
 */
module Text {
  import opened Base
  import opened Lists

  /** The WhiteSpace and LineTerminator code points of ECMAScript (what `trim` and `parseInt` skip). */
  predicate IsJsSpace(c: char) {
    || c == ' ' || c == '\t' || c == '\n' || c == '\r'
    || c == '\U{000B}' || c == '\U{000C}' || c == '\U{00A0}' || c == '\U{1680}'
    || ('\U{2000}' <= c <= '\U{200A}')
    || c == '\U{2028}' || c == '\U{2029}' || c == '\U{202F}' || c == '\U{205F}'
    || c == '\U{3000}' || c == '\U{FEFF}'
  }

  /** `String.prototype.trimStart`: drops the leading white space and nothing else. */
  function TrimStart(s: string): (r: string)
    ensures |r| <= |s| && r == s[|s| - |r|..]
    ensures forall i :: 0 <= i < |s| - |r| ==> IsJsSpace(s[i])
    ensures r == [] || !IsJsSpace(r[0])
  {
    if s != [] && IsJsSpace(s[0]) then TrimStart(s[1..]) else s
  }

  /** `String.prototype.trimEnd`: drops the trailing white space and nothing else. */
  function TrimEnd(s: string): (r: string)
    ensures |r| <= |s| && r == s[..|r|]
    ensures forall i :: |r| <= i < |s| ==> IsJsSpace(s[i])
    ensures r == [] || !IsJsSpace(r[|r| - 1])
  {
    if s != [] && IsJsSpace(s[|s| - 1]) then TrimEnd(s[..|s| - 1]) else s
  }

  /** `String.prototype.trim`. */
  function Trim(s: string): string {
    TrimEnd(TrimStart(s))
  }

  /** A blank field: every character is white space (`TrimEmptyIffBlank` shows this is `s.trim() === ""`). */
  predicate IsBlank(s: string) {
    forall i :: 0 <= i < |s| ==> IsJsSpace(s[i])
  }

  /** `s.trim() === ""`, the test the pages write, holds exactly for blank strings. */
  lemma TrimEmptyIffBlank(s: string)
    ensures Trim(s) == [] <==> IsBlank(s)
  {
    var t := TrimStart(s);
    if t != [] {
      // the first character kept by trimStart is not white space, so neither
      // the string is blank nor can trimEnd drop every character of `t`
      assert s[|s| - |t|] == t[0] && !IsJsSpace(t[0]);
      assert TrimEnd(t) != [];
    }
  }

  /** The capitals `toLowerCase` maps: ASCII `A`-`Z` and the Latin-1 capitals except the multiplication sign. */
  predicate IsCapital(c: char) {
    'A' <= c <= 'Z' || ('\U{00C0}' <= c <= '\U{00DE}' && c != '\U{00D7}')
  }

  /** `toLowerCase` of one character: a capital becomes its small letter, 32 code points on. */
  function LowerChar(c: char): (r: char)
    ensures IsCapital(c) ==> r as int == c as int + 32
    ensures !IsCapital(c) ==> r == c
    ensures !IsCapital(r)
  {
    if IsCapital(c) then (c as int + 32) as char else c
  }

  /** Two characters that are the same letter in either case: equal, or a capital and its small letter. */
  predicate CaseVariant(a: char, b: char) {
    || a == b
    || (IsCapital(a) && b as int == a as int + 32)
    || (IsCapital(b) && a as int == b as int + 32)
  }

  /** Two characters lower-case alike exactly when they differ at most in letter case. */
  lemma LowerCharIgnoresCase(a: char, b: char)
    ensures LowerChar(a) == LowerChar(b) <==> CaseVariant(a, b)
  {
  }

  /**
   * `String.prototype.toLowerCase`: every character is kept or replaced by its
   * small letter, and no capital is left.
   */
  function ToLowerCase(s: string): (r: string)
    ensures |r| == |s|
    ensures forall i :: 0 <= i < |s| ==> CaseVariant(s[i], r[i])
    ensures forall i :: 0 <= i < |r| ==> !IsCapital(r[i])
  {
    seq(|s|, i requires 0 <= i < |s| => LowerChar(s[i]))
  }

  /**
   * Two strings lower-case to the same string exactly when they have the same
   * length and differ at most in the case of their letters: what makes the
   * search case-insensitive.
   */
  lemma LowerCaseIgnoresCase(s: string, t: string)
    ensures ToLowerCase(s) == ToLowerCase(t) <==>
      |s| == |t| && forall i :: 0 <= i < |s| ==> CaseVariant(s[i], t[i])
  {
    if ToLowerCase(s) == ToLowerCase(t) {
      forall i | 0 <= i < |s| ensures CaseVariant(s[i], t[i]) {
        assert ToLowerCase(s)[i] == ToLowerCase(t)[i];
        LowerCharIgnoresCase(s[i], t[i]);
      }
    }
    if |s| == |t| && forall i :: 0 <= i < |s| ==> CaseVariant(s[i], t[i]) {
      forall i | 0 <= i < |s| ensures ToLowerCase(s)[i] == ToLowerCase(t)[i] {
        LowerCharIgnoresCase(s[i], t[i]);
      }
    }
  }

  /** Lower-casing twice is lower-casing once, so an already lower-cased query is left as it is. */
  lemma ToLowerCaseIdempotent(s: string)
    ensures ToLowerCase(ToLowerCase(s)) == ToLowerCase(s)
  {
  }

  /** Lower-casing neither makes nor removes white space, so it keeps a string blank or not blank. */
  lemma LowerCaseKeepsBlank(s: string)
    ensures IsBlank(ToLowerCase(s)) <==> IsBlank(s)
  {
    var r := ToLowerCase(s);
    forall i | 0 <= i < |s| ensures IsJsSpace(r[i]) <==> IsJsSpace(s[i]) {
      assert r[i] == LowerChar(s[i]);
    }
  }

  /** `s.includes(sub)`: `sub` occurs in `s` at some position. */
  predicate Includes(s: string, sub: string) {
    exists i :: 0 <= i <= |s| - |sub| && OccursAt(s, sub, i)
  }

  /** `sub` occurs in `s` starting at position `i`. */
  predicate OccursAt(s: string, sub: string, i: int) {
    0 <= i <= |s| - |sub| && s[i..i + |sub|] == sub
  }

  // ---------------------------------------------------------------------
  // split and join

  /** `s.split(sep)` for a one-character separator: the pieces between separators, empty ones included. */
  function Split(s: string, sep: char): (r: seq<string>)
    ensures |r| >= 1
    ensures forall k :: 0 <= k < |r| ==> sep !in r[k]
  {
    if s == [] then [[]]
    else
      var rest := Split(s[1..], sep);
      if s[0] == sep then [[]] + rest else [[s[0]] + rest[0]] + rest[1..]
  }

  /** `pieces.join(sep)`. */
  function Join(pieces: seq<string>, sep: char): string {
    if pieces == [] then []
    else if |pieces| == 1 then pieces[0]
    else pieces[0] + [sep] + Join(pieces[1..], sep)
  }

  /** Joining the pieces of a split with the same separator gives back the string. */
  lemma {:induction false} JoinSplit(s: string, sep: char)
    ensures Join(Split(s, sep), sep) == s
  {
    if s != [] {
      var rest := Split(s[1..], sep);
      JoinSplit(s[1..], sep);
      if s[0] == sep {
        assert Split(s, sep) == [[]] + rest;
      } else {
        var r := Split(s, sep);
        assert r == [[s[0]] + rest[0]] + rest[1..];
        if |rest| == 1 {
          assert Join(r, sep) == [s[0]] + rest[0];
        } else {
          assert r[1..] == rest[1..];
          assert Join(r, sep) == [s[0]] + rest[0] + [sep] + Join(rest[1..], sep);
          assert Join(rest, sep) == rest[0] + [sep] + Join(rest[1..], sep);
        }
      }
    }
  }

  /** Splitting at a separator splits the two sides independently. */
  lemma {:induction false} SplitAppend(a: string, sep: char, b: string)
    requires sep !in a
    ensures Split(a + [sep] + b, sep) == Split(a, sep) + Split(b, sep)
  {
    var rb := Split(b, sep);
    if a == [] {
      assert a + [sep] + b == [sep] + b;
      HeadTailConcat([sep], b);
      assert Split([sep] + b, sep) == [[]] + rb;
    } else {
      var tail := a[1..] + [sep] + b;
      HeadTailConcat(a, [sep] + b);
      ConcatAssoc(a, [sep], b);
      ConcatAssoc(a[1..], [sep], b);
      SplitAppend(a[1..], sep, b);
      var ra := Split(a[1..], sep);
      HeadTailConcat(ra, rb);
      assert Split(a + [sep] + b, sep) == [[a[0]] + ra[0]] + (ra[1..] + rb);
      assert Split(a, sep) == [[a[0]] + ra[0]] + ra[1..];
      ConcatAssoc([[a[0]] + ra[0]], ra[1..], rb);
    }
  }

  /** A string without the separator splits into itself. */
  lemma {:induction false} SplitWithoutSeparator(s: string, sep: char)
    requires sep !in s
    ensures Split(s, sep) == [s]
  {
    if s != [] {
      SplitWithoutSeparator(s[1..], sep);
      assert [s[0]] + s[1..] == s;
    }
  }

  /** The first position of `c` in `s`, None when there is none; used to read an upload path back. */
  function IndexOf(s: string, c: char): (r: Option<nat>)
    ensures r.None? <==> c !in s
    ensures r.Some? ==> r.value < |s| && s[r.value] == c && c !in s[..r.value]
  {
    if s == [] then None
    else if s[0] == c then Some(0)
    else match IndexOf(s[1..], c)
      case None => None
      case Some(i) => assert s[..i + 1] == [s[0]] + s[1..][..i]; Some(i + 1)
  }

  /** The first `c` of `a + [c] + b` is the one after `a` when `a` has none. */
  lemma IndexOfAfter(a: string, c: char, b: string)
    requires c !in a
    ensures IndexOf(a + [c] + b, c) == Some(|a|)
  {
    var s := a + [c] + b;
    assert s[|a|] == c;
    assert s[..|a|] == a;
  }

  // ---------------------------------------------------------------------
  // integers as digits

  /** The value of a digit character in the given radix (2 to 36), the way `parseInt` reads it. */
  function DigitValue(c: char, radix: nat): (r: Option<nat>)
    ensures r.Some? ==> r.value < radix
    ensures radix == 10 ==> (r.Some? <==> '0' <= c <= '9')
  {
    var v :=
      if '0' <= c <= '9' then Some(c as nat - '0' as nat)
      else if 'a' <= c <= 'z' then Some(c as nat - 'a' as nat + 10)
      else if 'A' <= c <= 'Z' then Some(c as nat - 'A' as nat + 10)
      else None;
    if v.Some? && v.value < radix then v else None
  }

  predicate AllDigits(s: string, radix: nat) {
    forall i :: 0 <= i < |s| ==> DigitValue(s[i], radix).Some?
  }

  /** The longest prefix of `s` made of digits of the radix. */
  function DigitPrefix(s: string, radix: nat): (r: string)
    ensures |r| <= |s| && r == s[..|r|]
    ensures AllDigits(r, radix)
    ensures |r| < |s| ==> DigitValue(s[|r|], radix).None?
  {
    if s != [] && DigitValue(s[0], radix).Some? then [s[0]] + DigitPrefix(s[1..], radix) else []
  }

  /** The value of a string of digits, most significant first. */
  function DigitsValue(s: string, radix: nat): nat
    requires AllDigits(s, radix)
  {
    if s == [] then 0 else DigitsValue(s[..|s| - 1], radix) * radix + DigitValue(s[|s| - 1], radix).value
  }

  function DigitChar(d: nat): (c: char)
    requires d < 10
    ensures DigitValue(c, 10) == Some(d)
  {
    ('0' as int + d) as char
  }

  /** The decimal rendering of a non-negative integer (`String(n)`, `${n}`), without leading zeros. */
  function NatToDecimal(n: nat): (r: string)
    ensures |r| >= 1 && AllDigits(r, 10)
    ensures |r| > 1 ==> r[0] != '0'
  {
    if n < 10 then [DigitChar(n)] else NatToDecimal(n / 10) + [DigitChar(n % 10)]
  }

  /** Reading back a decimal rendering gives the number. */
  lemma {:induction false} DecimalRoundTrip(n: nat)
    ensures DigitsValue(NatToDecimal(n), 10) == n
  {
    if n >= 10 {
      DecimalRoundTrip(n / 10);
      var r := NatToDecimal(n);
      assert r[..|r| - 1] == NatToDecimal(n / 10);
    }
  }

  /**
   * `Number.parseInt(v)` with no radix, as section 19.2.5 of ECMA-262 defines it:
   * skip leading white space, take an optional sign, then read the magnitude;
   * no digits at all is NaN (None).
   */
  function ParseInt(v: string): Option<int> {
    ParseSigned(TrimStart(v))
  }

  function ParseSigned(s: string): Option<int> {
    if s != [] && (s[0] == '-' || s[0] == '+') then
      match ParseMagnitude(s[1..])
      case None => None
      case Some(m) => Some(if s[0] == '-' then -(m as int) else m as int)
    else
      match ParseMagnitude(s)
      case None => None
      case Some(m) => Some(m as int)
  }

  /** After the sign: radix 16 behind `0x` or `0X`, radix 10 otherwise, then the longest run of digits. */
  function ParseMagnitude(u: string): Option<nat> {
    var hex := |u| >= 2 && u[0] == '0' && (u[1] == 'x' || u[1] == 'X');
    var radix := if hex then 16 else 10;
    var digits := DigitPrefix(if hex then u[2..] else u, radix);
    if digits == [] then None else Some(DigitsValue(digits, radix))
  }

  /** A run of digits is its own longest digit prefix. */
  lemma {:induction false} DigitPrefixOfDigits(d: string, radix: nat)
    requires AllDigits(d, radix)
    ensures DigitPrefix(d, radix) == d
  {
    if d != [] {
      DigitPrefixOfDigits(d[1..], radix);
    }
  }

  /** After the sign, a decimal rendering reads as its number. */
  lemma ParseUnsignedDecimal(n: nat)
    ensures ParseMagnitude(NatToDecimal(n)) == Some(n)
  {
    var d := NatToDecimal(n);
    if |d| >= 2 {
      assert DigitValue(d[1], 10).Some?;
    }
    DigitPrefixOfDigits(d, 10);
    DecimalRoundTrip(n);
  }

  /** A decimal rendering, with or without a minus sign, reads as the number with that sign. */
  lemma ParseIntDecimal(n: nat, negative: bool)
    ensures ParseInt((if negative then "-" else "") + NatToDecimal(n)) == Some(if negative then -(n as int) else n as int)
  {
    var d := NatToDecimal(n);
    ParseUnsignedDecimal(n);
    assert DigitValue(d[0], 10).Some?;
    if negative {
      ParseIntNegative(d, n);
    } else {
      ParseIntPositive(d, n);
      assert "" + d == d;
    }
  }

  lemma ParseIntNegative(d: string, n: nat)
    requires ParseMagnitude(d) == Some(n)
    ensures ParseInt("-" + d) == Some(-(n as int))
  {
    var v := "-" + d;
    assert v[0] == '-' && v[1..] == d;
    assert TrimStart(v) == v by { assert !IsJsSpace('-'); }
    assert ParseSigned(v) == Some(-(n as int));
  }

  lemma ParseIntPositive(d: string, n: nat)
    requires d != [] && '0' <= d[0] <= '9'
    requires ParseMagnitude(d) == Some(n)
    ensures ParseInt(d) == Some(n as int)
  {
    assert !IsJsSpace(d[0]);
    assert TrimStart(d) == d;
    assert !(d[0] == '-' || d[0] == '+');
  }

  /** No character of `s` is a decimal digit. */
  predicate NoDecimalDigit(s: string) {
    forall i :: 0 <= i < |s| ==> !('0' <= s[i] <= '9')
  }

  lemma NoDecimalDigitSuffix(s: string, k: nat)
    requires NoDecimalDigit(s) && k <= |s|
    ensures NoDecimalDigit(s[k..])
  {
    assert forall i :: 0 <= i < |s| - k ==> s[k..][i] == s[k + i];
  }

  /** Without a leading decimal digit there is no magnitude: no hex prefix, no decimal digit. */
  lemma NoMagnitude(u: string)
    requires u == [] || !('0' <= u[0] <= '9')
    ensures ParseMagnitude(u) == None
  {
    if u != [] {
      assert DigitValue(u[0], 10).None?;
    }
  }

  /** A string without any decimal digit is not a number to `parseInt`. */
  lemma ParseIntNoDigits(v: string)
    requires forall i :: 0 <= i < |v| ==> !('0' <= v[i] <= '9')
    ensures ParseInt(v) == None
  {
    var s := TrimStart(v);
    NoDecimalDigitSuffix(v, |v| - |s|);
    if s != [] && (s[0] == '-' || s[0] == '+') {
      NoDecimalDigitSuffix(s, 1);
      NoMagnitude(s[1..]);
    } else {
      NoMagnitude(s);
    }
  }
}
