/**
 * The handful of Python `str` operations the trace parsers rely on:
 * `strip`, `split()`, `split(None, n)`, `split(sep)`, `replace(pat, "")`,
 * `isdigit`, `startswith`, `in`, `int(...)`, `float(...)` and the decimal
 * formatting of an `int` inside an f-string.  Characters are ASCII code
 * points; Unicode digits and Unicode white space are not part of this model.
 */
module Text {
  import opened Wrappers

  /** Python's `str.isspace` on ASCII: space, \t \n \v \f \r and \x1c-\x1f. */
  predicate IsSpace(c: char) {
    c == ' ' || ('\t' <= c <= '\r') || ('\U{1C}' <= c <= '\U{1F}')
  }

  predicate IsDigit(c: char) { '0' <= c <= '9' }

  predicate NoSpace(s: string) { forall i :: 0 <= i < |s| ==> !IsSpace(s[i]) }

  /** Python's `str.isdigit()`: non-empty and made of digits only. */
  predicate IsDigits(s: string) {
    |s| > 0 && forall i :: 0 <= i < |s| ==> IsDigit(s[i])
  }

  predicate StartsWith(s: string, prefix: string) {
    |prefix| <= |s| && s[..|prefix|] == prefix
  }

  predicate OccursAt(s: string, sub: string, i: int) {
    0 <= i <= |s| - |sub| && s[i..i + |sub|] == sub
  }

  /** Python's `sub in s`. */
  predicate Contains(s: string, sub: string) {
    exists i | 0 <= i <= |s| - |sub| :: OccursAt(s, sub, i)
  }

  // ---------------------------------------------------------------- strip

  function StripLeft(s: string): (r: string)
    ensures |r| <= |s|
    ensures r == [] || !IsSpace(r[0])
    ensures s != [] && !IsSpace(s[0]) ==> r == s
  {
    if s != [] && IsSpace(s[0]) then StripLeft(s[1..]) else s
  }

  function StripRight(s: string): (r: string)
    ensures |r| <= |s| && r == s[..|r|]
    ensures r == [] || !IsSpace(r[|r| - 1])
    ensures forall i :: |r| <= i < |s| ==> IsSpace(s[i])
  {
    if s != [] && IsSpace(s[|s| - 1]) then StripRight(s[..|s| - 1]) else s
  }

  /** Python's `str.strip()`. */
  function Strip(s: string): (r: string)
    ensures r == [] || (!IsSpace(r[0]) && !IsSpace(r[|r| - 1]))
    ensures NoSpace(s) ==> r == s
  {
    StripRight(StripLeft(s))
  }

  // ---------------------------------------------------------------- split()

  /** The longest prefix of `s` without white space. */
  function Word(s: string): (w: string)
    ensures |w| <= |s| && w == s[..|w|] && NoSpace(w)
    ensures |w| < |s| ==> IsSpace(s[|w|])
    ensures s != [] && !IsSpace(s[0]) ==> |w| >= 1
  {
    if s == [] || IsSpace(s[0]) then [] else [s[0]] + Word(s[1..])
  }

  /** Python's `str.split()` with no argument: the maximal runs of non-space characters. */
  function Split(s: string): (r: seq<string>)
    ensures forall i :: 0 <= i < |r| ==> r[i] != [] && NoSpace(r[i])
    decreases |s|
  {
    var t := StripLeft(s);
    if t == [] then [] else
      var w := Word(t);
      var rest := t[|w|..];
      assert |rest| < |s|;
      var r := Split(rest);
      assert forall i :: 0 <= i < |r| ==> r[i] != [] && NoSpace(r[i]);
      [w] + r
  }

  /** Words separated by single spaces: the inverse of `Split`. */
  function JoinWords(ws: seq<string>): string {
    if ws == [] then [] else if |ws| == 1 then ws[0] else ws[0] + " " + JoinWords(ws[1..])
  }

  lemma {:induction false} WordOfJoined(w: string, rest: string)
    requires w != [] && NoSpace(w)
    requires rest == [] || IsSpace(rest[0])
    ensures Word(w + rest) == w
    decreases |w|
  {
    var s := w + rest;
    assert s[0] == w[0] && !IsSpace(s[0]);
    if |w| > 1 {
      assert s[1..] == w[1..] + rest;
      WordOfJoined(w[1..], rest);
      assert Word(s) == [w[0]] + w[1..];
    } else {
      assert s[1..] == rest;
      assert Word(rest) == [];
      assert Word(s) == [w[0]];
    }
  }

  /** `split()` recovers every list of non-empty, space-free words joined by spaces. */
  lemma {:induction false} SplitJoinWords(ws: seq<string>)
    requires forall i :: 0 <= i < |ws| ==> ws[i] != [] && NoSpace(ws[i])
    ensures Split(JoinWords(ws)) == ws
  {
    if ws == [] {
    } else if |ws| == 1 {
      var w := ws[0];
      WordOfJoined(w, []);
      assert w + [] == w;
      assert StripLeft(w) == w;
      assert w[|w|..] == [];
    } else {
      var w, rest := ws[0], JoinWords(ws[1..]);
      var s := w + " " + rest;
      assert StripLeft(s) == s;
      WordOfJoined(w, " " + rest);
      assert s == w + (" " + rest);
      assert s[|w|..] == " " + rest;
      assert StripLeft(" " + rest) == StripLeft(rest) by {
        assert (" " + rest)[1..] == rest;
      }
      SplitJoinWords(ws[1..]);
      StripLeftOfSplitInput(rest, ws[1..]);
    }
  }

  lemma StripLeftOfSplitInput(rest: string, ws: seq<string>)
    requires ws != [] && ws[0] != [] && NoSpace(ws[0])
    requires rest == JoinWords(ws)
    ensures StripLeft(rest) == rest
  {
    assert rest[0] == ws[0][0];
  }

  /**
   * Python's `str.split(None, n)`: at most `n` splits; the remainder after the
   * n-th word keeps its inner and trailing white space.
   */
  function SplitMax(s: string, n: nat): (r: seq<string>)
    ensures |r| <= n + 1
    ensures forall i :: 0 <= i < |r| ==> r[i] != []
    decreases |s|
  {
    var t := StripLeft(s);
    if t == [] then []
    else if n == 0 then [t]
    else
      var w := Word(t);
      var rest := t[|w|..];
      assert |rest| < |s|;
      var r := SplitMax(rest, n - 1);
      assert forall i :: 0 <= i < |r| ==> r[i] != [];
      [w] + r
  }

  // ---------------------------------------------------------------- split(sep)

  /** Python's `str.split(sep)` for a one-character separator; empty fields are kept. */
  function SplitOn(s: string, sep: char): (r: seq<string>)
    ensures |r| >= 1
    ensures forall i :: 0 <= i < |r| ==> sep !in r[i]
    decreases |s|
  {
    if s == [] then [[]]
    else
      var rest := SplitOn(s[1..], sep);
      if s[0] == sep then [[]] + rest else [[s[0]] + rest[0]] + rest[1..]
  }

  function JoinOn(fields: seq<string>, sep: char): string
    requires |fields| >= 1
  {
    if |fields| == 1 then fields[0] else fields[0] + [sep] + JoinOn(fields[1..], sep)
  }

  /** Splitting and joining on the same separator gives the string back. */
  lemma {:induction false} JoinSplitOn(s: string, sep: char)
    ensures JoinOn(SplitOn(s, sep), sep) == s
    decreases |s|
  {
    if s != [] {
      var rest := SplitOn(s[1..], sep);
      JoinSplitOn(s[1..], sep);
      if s[0] == sep {
        assert JoinOn([[]] + rest, sep) == [] + [sep] + JoinOn(rest, sep);
        assert s == [s[0]] + s[1..];
      } else if |rest| == 1 {
        assert s == [s[0]] + s[1..];
      } else {
        var r := [[s[0]] + rest[0]] + rest[1..];
        assert r[1..] == rest[1..];
        assert JoinOn(rest, sep) == rest[0] + [sep] + JoinOn(rest[1..], sep);
        assert s == [s[0]] + s[1..];
      }
    }
  }

  /** A field free of the separator followed by the separator is split off whole. */
  lemma {:induction false} SplitOnPrefix(a: string, sep: char, b: string)
    requires sep !in a
    ensures SplitOn(a + [sep] + b, sep) == [a] + SplitOn(b, sep)
    decreases |a|
  {
    if a == [] {
      assert [] + [sep] + b == [sep] + b;
      assert ([sep] + b)[1..] == b;
    } else {
      assert (a + [sep] + b)[1..] == a[1..] + [sep] + b;
      SplitOnPrefix(a[1..], sep, b);
      assert [a[0]] + a[1..] == a;
    }
  }

  /** Joining fields free of the separator and splitting again gives the fields back. */
  lemma {:induction false} SplitOnJoin(fields: seq<string>, sep: char)
    requires |fields| >= 1
    requires forall i :: 0 <= i < |fields| ==> sep !in fields[i]
    ensures SplitOn(JoinOn(fields, sep), sep) == fields
  {
    if |fields| == 1 {
      SplitOnNoSep(fields[0], sep);
    } else {
      SplitOnJoin(fields[1..], sep);
      SplitOnPrefix(fields[0], sep, JoinOn(fields[1..], sep));
      assert [fields[0]] + fields[1..] == fields;
    }
  }

  /** Text joined by one separator splits into the fields of both sides. */
  lemma {:induction false} SplitOnAppend(a: string, sep: char, b: string)
    ensures SplitOn(a + [sep] + b, sep) == SplitOn(a, sep) + SplitOn(b, sep)
    decreases |a|
  {
    if a == [] {
      assert [] + [sep] + b == [sep] + b;
      assert ([sep] + b)[1..] == b;
    } else {
      var s := a + [sep] + b;
      assert s[0] == a[0] && s[1..] == a[1..] + [sep] + b;
      SplitOnAppend(a[1..], sep, b);
      if a[0] == sep {
        SplitOnAppendSep(a, sep, b);
      } else {
        SplitOnAppendChar(a, sep, b);
      }
    }
  }

  lemma SplitOnAppendSep(a: string, sep: char, b: string)
    requires a != [] && a[0] == sep
    requires SplitOn(a[1..] + [sep] + b, sep) == SplitOn(a[1..], sep) + SplitOn(b, sep)
    ensures SplitOn(a + [sep] + b, sep) == SplitOn(a, sep) + SplitOn(b, sep)
  {
    var t := a[1..];
    assert a == [sep] + t;
    assert a + [sep] + b == [sep] + (t + [sep] + b);
    SplitOnCons(sep, t + [sep] + b, sep);
    SplitOnCons(sep, t, sep);
    PrependAppend([], SplitOn(t, sep), SplitOn(b, sep));
  }

  lemma SplitOnAppendChar(a: string, sep: char, b: string)
    requires a != [] && a[0] != sep
    requires SplitOn(a[1..] + [sep] + b, sep) == SplitOn(a[1..], sep) + SplitOn(b, sep)
    ensures SplitOn(a + [sep] + b, sep) == SplitOn(a, sep) + SplitOn(b, sep)
  {
    var t := a[1..];
    assert a == [a[0]] + t;
    assert a + [sep] + b == [a[0]] + (t + [sep] + b);
    SplitOnCons(a[0], t + [sep] + b, sep);
    SplitOnCons(a[0], t, sep);
    ExtendFirst(a[0], SplitOn(t, sep), SplitOn(b, sep));
  }

  /** One step of the split: the first character either ends a field or starts the first one. */
  lemma SplitOnCons(c: char, t: string, sep: char)
    ensures SplitOn([c] + t, sep) ==
            if c == sep then [[]] + SplitOn(t, sep)
            else [[c] + SplitOn(t, sep)[0]] + SplitOn(t, sep)[1..]
  {
    assert ([c] + t)[0] == c && ([c] + t)[1..] == t;
  }

  lemma PrependAppend<T>(x: T, left: seq<T>, right: seq<T>)
    ensures [x] + (left + right) == ([x] + left) + right
  {
  }

  lemma ExtendFirst(c: char, left: seq<string>, right: seq<string>)
    requires |left| >= 1
    ensures [[c] + (left + right)[0]] + (left + right)[1..] == ([[c] + left[0]] + left[1..]) + right
  {
    assert (left + right)[1..] == left[1..] + right;
  }

  lemma {:induction false} SplitOnNoSep(a: string, sep: char)
    requires sep !in a
    ensures SplitOn(a, sep) == [a]
    decreases |a|
  {
    if a != [] {
      SplitOnNoSep(a[1..], sep);
      assert [a[0]] + a[1..] == a;
    }
  }

  // ---------------------------------------------------------------- replace(pat, "")

  /** Python's `s.replace(pat, "")`: occurrences removed left to right, without overlap. */
  function RemoveAll(s: string, pat: string): (r: string)
    requires pat != []
    ensures |r| <= |s|
    decreases |s|
  {
    if |s| < |pat| then s
    else if s[..|pat|] == pat then RemoveAll(s[|pat|..], pat)
    else [s[0]] + RemoveAll(s[1..], pat)
  }

  /** A string that never holds the pattern's first character is left as it is. */
  lemma {:induction false} RemoveAllAbsent(s: string, pat: string)
    requires pat != [] && pat[0] !in s
    ensures RemoveAll(s, pat) == s
    decreases |s|
  {
    if |s| >= |pat| {
      assert s[..|pat|][0] == s[0];
      RemoveAllAbsent(s[1..], pat);
      assert [s[0]] + s[1..] == s;
    }
  }

  // ---------------------------------------------------------------- substring search

  /** The first index at or after `from` where `pat` occurs in `s`. */
  function FindFrom(s: string, pat: string, from: nat): (r: Option<nat>)
    requires from <= |s|
    ensures r.Some? ==> from <= r.value && OccursAt(s, pat, r.value)
    ensures r.None? ==> forall i :: from <= i ==> !OccursAt(s, pat, i)
    ensures r.Some? ==> forall i :: from <= i < r.value ==> !OccursAt(s, pat, i)
    decreases |s| - from
  {
    if |s| - from < |pat| then None
    else if s[from..from + |pat|] == pat then Some(from)
    else if from == |s| then None
    else FindFrom(s, pat, from + 1)
  }

  /** Python's `s.split(pat)[1]`: the text between the first and the second occurrence. */
  function SecondField(s: string, pat: string): (r: Option<string>)
    requires pat != []
    ensures r.Some? <==> Contains(s, pat)
  {
    match FindFrom(s, pat, 0)
    case None => None
    case Some(i) =>
      var from := i + |pat|;
      var stop := match FindFrom(s, pat, from) case Some(j) => j case None => |s|;
      Some(s[from..stop])
  }

  // ---------------------------------------------------------------- numbers

  function DigitValue(c: char): (d: nat)
    requires IsDigit(c)
    ensures d < 10
  {
    (c as int - '0' as int) as nat
  }

  function DigitChar(d: nat): (c: char)
    requires d < 10
    ensures IsDigit(c) && DigitValue(c) == d
  {
    ('0' as int + d) as char
  }

  /** The value of a string of decimal digits (0 for the empty string). */
  function DigitsValue(s: string): nat
    requires forall i :: 0 <= i < |s| ==> IsDigit(s[i])
  {
    if s == [] then 0 else DigitsValue(s[..|s| - 1]) * 10 + DigitValue(s[|s| - 1])
  }

  /** Decimal form of a natural number, as `str(n)` prints it. */
  function NatToString(n: nat): (s: string)
    ensures IsDigits(s) && DigitsValue(s) == n
    ensures n > 0 ==> s[0] != '0'
  {
    if n < 10 then [DigitChar(n)]
    else
      var s := NatToString(n / 10) + [DigitChar(n % 10)];
      assert s[..|s| - 1] == NatToString(n / 10);
      s
  }

  /** Decimal form of an integer, as an f-string prints it. */
  function IntToString(i: int): (s: string)
    ensures s != [] && NoSpace(s)
    ensures forall k :: 0 <= k < |s| ==> IsDigit(s[k]) || (k == 0 && s[k] == '-')
  {
    if i < 0 then "-" + NatToString(-i) else NatToString(i)
  }

  /** Python's `int(s)` on base-10 text: surrounding white space, an optional sign, digits. */
  function ParseInt(s: string): (r: Option<int>)
    ensures r.Some? ==> Strip(s) != []
  {
    var t := Strip(s);
    if t == [] then None
    else if t[0] == '-' && IsDigits(t[1..]) then Some(-(DigitsValue(t[1..]) as int))
    else if t[0] == '+' && IsDigits(t[1..]) then Some(DigitsValue(t[1..]))
    else if IsDigits(t) then Some(DigitsValue(t))
    else None
  }

  /** Formatting an integer and reading it back gives the integer. */
  lemma ParseIntToString(i: int)
    ensures ParseInt(IntToString(i)) == Some(i)
  {
    var s := IntToString(i);
    assert Strip(s) == s;
    if i < 0 {
      assert s[1..] == NatToString(-i);
    } else {
      assert s[0] != '-' && s[0] != '+';
    }
  }

  /** Different integers have different decimal texts. */
  lemma IntToStringInjective()
    ensures forall a: int, b: int :: IntToString(a) == IntToString(b) ==> a == b
  {
    forall a: int, b: int | IntToString(a) == IntToString(b) ensures a == b {
      ParseIntToString(a);
      ParseIntToString(b);
    }
  }

  function Pow10(k: nat): (p: nat)
    ensures p >= 1
  {
    if k == 0 then 1 else 10 * Pow10(k - 1)
  }

  /** The longest prefix of digits. */
  function Digits(s: string): (d: string)
    ensures |d| <= |s| && d == s[..|d|] && (forall i :: 0 <= i < |d| ==> IsDigit(d[i]))
    ensures |d| < |s| ==> !IsDigit(s[|d|])
  {
    if s == [] || !IsDigit(s[0]) then [] else [s[0]] + Digits(s[1..])
  }

  /** `[+-]digits`, the exponent of a float literal; the whole string must be used. */
  function ParseExponent(s: string): Option<int> {
    if s != [] && (s[0] == '-' || s[0] == '+') && IsDigits(s[1..]) then
      Some(if s[0] == '-' then -(DigitsValue(s[1..]) as int) else DigitsValue(s[1..]))
    else if IsDigits(s) then Some(DigitsValue(s))
    else None
  }

  function Scale(m: real, e: int): real
    decreases if e < 0 then -e else e
  {
    if e == 0 then m else if e > 0 then Scale(m * 10.0, e - 1) else Scale(m / 10.0, e + 1)
  }

  /**
   * The unsigned part of a decimal float literal: `digits[.digits][e[+-]digits]`
   * or `.digits[e[+-]digits]`, with at least one mantissa digit.
   */
  function ParseUnsignedReal(t: string): (r: Option<real>)
    ensures r.Some? ==> r.value >= 0.0
  {
    var ip := Digits(t);
    var afterInt := t[|ip|..];
    var fp := if afterInt != [] && afterInt[0] == '.' then Digits(afterInt[1..]) else [];
    var afterFrac := if afterInt != [] && afterInt[0] == '.' then afterInt[1 + |fp|..] else afterInt;
    var mantissa := (DigitsValue(ip + fp) as real) / (Pow10(|fp|) as real);
    if |ip| + |fp| == 0 then None
    else if afterFrac == [] then Some(mantissa)
    else if afterFrac[0] == 'e' || afterFrac[0] == 'E' then
      match ParseExponent(afterFrac[1..])
      case None => None
      case Some(e) => Some(ScaleNonNegative(mantissa, e))
    else None
  }

  function ScaleNonNegative(m: real, e: int): (r: real)
    requires m >= 0.0
    ensures r >= 0.0 && r == Scale(m, e)
    decreases if e < 0 then -e else e
  {
    if e == 0 then m else if e > 0 then ScaleNonNegative(m * 10.0, e - 1) else ScaleNonNegative(m / 10.0, e + 1)
  }

  /**
   * Python's `float(s)` on finite decimal literals: surrounding white space, an
   * optional sign and `ParseUnsignedReal`.
   */
  function ParseReal(s: string): (r: Option<real>)
    ensures r.Some? ==> Strip(s) != []
  {
    var t := Strip(s);
    if t == [] then None
    else if t[0] == '-' || t[0] == '+' then
      match ParseUnsignedReal(t[1..])
      case None => None
      case Some(v) => Some(if t[0] == '-' then -v else v)
    else ParseUnsignedReal(t)
  }

  /** `float(str(n))` is `n`: an integer literal is read as the same number. */
  lemma ParseRealOfNat(n: nat)
    ensures ParseReal(NatToString(n)) == Some(n as real)
  {
    var s := NatToString(n);
    assert Strip(s) == s;
    ParseUnsignedDigits(s);
  }

  lemma ParseUnsignedDigits(s: string)
    requires IsDigits(s)
    ensures ParseUnsignedReal(s) == Some(DigitsValue(s) as real)
  {
    DigitsOfDigits(s);
    assert s[|s|..] == [];
    assert s + [] == s;
    assert Pow10(0) == 1;
    assert (DigitsValue(s) as real) / 1.0 == DigitsValue(s) as real;
  }

  lemma {:induction false} DigitsOfDigits(s: string)
    requires forall i :: 0 <= i < |s| ==> IsDigit(s[i])
    ensures Digits(s) == s
  {
    if s != [] {
      DigitsOfDigits(s[1..]);
      assert [s[0]] + s[1..] == s;
    }
  }

  // ---------------------------------------------------------------- lines

  /**
   * Where the line starting at `p` ends: just past its '\n', or at the end of
   * the text.  This is what `readline` consumes and where `tell()` lands.
   */
  function LineEnd(c: string, p: nat): (q: nat)
    requires p <= |c|
    ensures p <= q <= |c|
    ensures p < |c| ==> p < q
    ensures forall i :: p <= i < q - 1 ==> c[i] != '\n'
    ensures q < |c| ==> c[q - 1] == '\n'
    decreases |c| - p
  {
    if p == |c| then p
    else if c[p] == '\n' then p + 1
    else LineEnd(c, p + 1)
  }

  /** The lines of `c` from offset `p` on, each with its terminator, as `for line in f` yields them. */
  function LinesFrom(c: string, p: nat): (ls: seq<string>)
    requires p <= |c|
    ensures p < |c| ==> |ls| >= 1
    ensures forall i :: 0 <= i < |ls| ==> ls[i] != []
    decreases |c| - p
  {
    if p == |c| then [] else [c[p..LineEnd(c, p)]] + LinesFrom(c, LineEnd(c, p))
  }

  function Lines(c: string): seq<string> {
    LinesFrom(c, 0)
  }

  function Concat(ls: seq<string>): string {
    if ls == [] then [] else ls[0] + Concat(ls[1..])
  }

  /** Reading a text line by line loses and adds nothing. */
  lemma {:induction false} ConcatLinesFrom(c: string, p: nat)
    requires p <= |c|
    ensures Concat(LinesFrom(c, p)) == c[p..]
    decreases |c| - p
  {
    if p < |c| {
      var q := LineEnd(c, p);
      ConcatLinesFrom(c, q);
      assert c[p..q] + c[q..] == c[p..];
    }
  }
}
