/**
 * String helpers shared by the tools: prefix and suffix tests, character
 * replacement, searching, ASCII upper-casing, and the decimal conversions of
 * Python's `str(n)` and `int(s)`.
 */
module Strings {
  import opened Wrappers

  predicate StartsWith(s: string, prefix: string) { prefix <= s }

  predicate EndsWith(s: string, suffix: string)
  {
    |suffix| <= |s| && s[|s| - |suffix|..] == suffix
  }

  /** Python's `s.replace(a, b)` for single characters: every `a` becomes `b`. */
  function ReplaceChar(s: string, a: char, b: char): (r: string)
    ensures |r| == |s|
    ensures forall i :: 0 <= i < |s| ==> r[i] == (if s[i] == a then b else s[i])
  {
    if s == [] then [] else [if s[0] == a then b else s[0]] + ReplaceChar(s[1..], a, b)
  }

  /** The first index of character `a` in `s`, or None when `a` does not occur. */
  function FirstIndexOfChar(s: string, a: char): (r: Option<nat>)
    ensures r.None? <==> a !in s
    ensures r.Some? ==> r.value < |s| && s[r.value] == a && a !in s[..r.value]
  {
    if s == [] then None
    else if s[0] == a then Some(0)
    else
      var rest := FirstIndexOfChar(s[1..], a);
      if rest.None? then None
      else
        assert s[..rest.value + 1] == [s[0]] + s[1..][..rest.value];
        Some(rest.value + 1)
  }

  /** Python's `s.replace(a, b, 1)` for single characters: only the first `a` becomes `b`. */
  function ReplaceFirstChar(s: string, a: char, b: char): (r: string)
    ensures |r| == |s|
  {
    match FirstIndexOfChar(s, a)
    case None => s
    case Some(k) => s[..k] + [b] + s[k + 1..]
  }

  /** Without an `a` nothing changes; otherwise exactly the first `a` becomes `b`. */
  lemma ReplaceFirstCharSpec(s: string, a: char, b: char)
    ensures a !in s ==> ReplaceFirstChar(s, a, b) == s
    ensures a in s ==> exists k :: 0 <= k < |s| && s[k] == a && a !in s[..k] && ReplaceFirstChar(s, a, b) == s[..k] + [b] + s[k + 1..]
  {
    var i := FirstIndexOfChar(s, a);
    if i.Some? {
      var k := i.value;
      assert s[k] == a && a !in s[..k] && ReplaceFirstChar(s, a, b) == s[..k] + [b] + s[k + 1..];
    }
  }

  /** `sub` occurs in `s` starting at index `j`. */
  predicate OccursAt(s: string, sub: string, j: nat)
  {
    j + |sub| <= |s| && s[j..j + |sub|] == sub
  }

  /** Python's `s.find(sub)`: the lowest index where `sub` occurs, or None (Python's -1). */
  function Find(s: string, sub: string): (r: Option<nat>)
    ensures r.Some? ==> OccursAt(s, sub, r.value)
    decreases |s|
  {
    if |s| < |sub| then None
    else if s[..|sub|] == sub then Some(0)
    else
      match Find(s[1..], sub)
      case None => None
      case Some(k) => Some(k + 1)
  }

  /** `find` gives the first occurrence, and None only when there is none. */
  lemma {:induction false} FindSpec(s: string, sub: string)
    ensures Find(s, sub).Some? ==> forall j :: 0 <= j < Find(s, sub).value ==> !OccursAt(s, sub, j)
    ensures Find(s, sub).None? ==> forall j :: 0 <= j ==> !OccursAt(s, sub, j)
    decreases |s|
  {
    if |s| >= |sub| && s[..|sub|] != sub {
      FindSpec(s[1..], sub);
      assert forall j :: 1 <= j ==> (OccursAt(s, sub, j) <==> OccursAt(s[1..], sub, j - 1));
    }
  }

  predicate IsDigit(c: char) { '0' <= c <= '9' }

  predicate AllDigits(s: string) { forall i :: 0 <= i < |s| ==> IsDigit(s[i]) }

  function DigitValue(c: char): nat
    requires IsDigit(c)
  {
    (c as int) - ('0' as int)
  }

  function DigitChar(d: nat): (c: char)
    requires d < 10
    ensures IsDigit(c) && DigitValue(c) == d
  {
    (('0' as int) + d) as char
  }

  /** Python's `str(n)` for a natural number: its decimal digits, without leading zeros. */
  function NatToString(n: nat): (s: string)
    ensures |s| > 0 && AllDigits(s)
    ensures |s| > 1 ==> s[0] != '0'
    decreases n
  {
    if n < 10 then [DigitChar(n)] else NatToString(n / 10) + [DigitChar(n % 10)]
  }

  /** The value of a nonempty string of ASCII digits read in base 10. */
  function DigitsValue(s: string): nat
    requires AllDigits(s)
  {
    if s == [] then 0 else DigitsValue(s[..|s| - 1]) * 10 + DigitValue(s[|s| - 1])
  }

  /**
   * Python's `int(s)` restricted to an optional sign followed by ASCII digits;
   * anything else is the ValueError that `int` raises.
   */
  function ParseInt(s: string): (r: Option<int>)
    ensures r.Some? ==> |s| > 0
  {
    if |s| > 0 && (s[0] == '-' || s[0] == '+') then
      var body := s[1..];
      if |body| > 0 && AllDigits(body) then
        Some(if s[0] == '-' then -(DigitsValue(body) as int) else DigitsValue(body) as int)
      else None
    else if |s| > 0 && AllDigits(s) then Some(DigitsValue(s) as int)
    else None
  }

  lemma {:induction false} DigitsValueOfNatToString(n: nat)
    ensures DigitsValue(NatToString(n)) == n
    decreases n
  {
    if n >= 10 {
      DigitsValueOfNatToString(n / 10);
      var s := NatToString(n);
      assert s[..|s| - 1] == NatToString(n / 10);
    }
  }

  /** `int(str(n)) == n`: reading back the decimal form of a natural number gives it back. */
  lemma ParseNatToString(n: nat)
    ensures ParseInt(NatToString(n)) == Some(n as int)
  {
    DigitsValueOfNatToString(n);
  }

  /** Distinct numbers have distinct decimal forms. */
  lemma NatToStringInjective(a: nat, b: nat)
    requires NatToString(a) == NatToString(b)
    ensures a == b
  {
    ParseNatToString(a);
    ParseNatToString(b);
  }

  /**
   * A run of digits followed by a non-digit is determined by the text: two
   * such splittings of one string are the same splitting.
   */
  lemma DigitsPrefixUnique(d1: string, r1: string, d2: string, r2: string)
    requires AllDigits(d1) && AllDigits(d2)
    requires |r1| > 0 && |r2| > 0 && !IsDigit(r1[0]) && !IsDigit(r2[0])
    requires d1 + r1 == d2 + r2
    ensures d1 == d2 && r1 == r2
  {
    var s := d1 + r1;
    assert s[|d1|] == r1[0] && s[|d2|] == r2[0];
    if |d1| == |d2| {
      assert d1 == s[..|d1|] == d2;
      assert r1 == s[|d1|..] == r2;
    }
  }

  /** ASCII upper-casing, the part of Python's `str.upper()` that the tools rely on. */
  function UpperAscii(s: string): (r: string)
    ensures |r| == |s|
    ensures forall i :: 0 <= i < |s| ==>
      r[i] == (if 'a' <= s[i] <= 'z' then (s[i] as int - 32) as char else s[i])
  {
    if s == [] then [] else
      [if 'a' <= s[0] <= 'z' then (s[0] as int - 32) as char else s[0]] + UpperAscii(s[1..])
  }

  /** Python's `"".join(pieces)`. */
  function Concat(pieces: seq<string>): string
  {
    if pieces == [] then "" else pieces[0] + Concat(pieces[1..])
  }

  ghost predicate Contains(s: string, x: string) { exists k :: OccursAt(s, x, k) }

  lemma {:induction false} ConcatContainsPieces(pieces: seq<string>)
    ensures forall p <- pieces :: Contains(Concat(pieces), p)
  {
    if pieces != [] {
      ConcatContainsPieces(pieces[1..]);
      var whole := Concat(pieces);
      assert whole == pieces[0] + Concat(pieces[1..]);
      assert OccursAt(whole, pieces[0], 0) by {
        assert whole[..|pieces[0]|] == pieces[0];
      }
      forall p <- pieces[1..] ensures Contains(whole, p) {
        var k: nat :| OccursAt(Concat(pieces[1..]), p, k);
        assert whole[|pieces[0]| + k..|pieces[0]| + k + |p|] == Concat(pieces[1..])[k..k + |p|];
        assert OccursAt(whole, p, |pieces[0]| + k);
      }
    }
  }
  /** FirstIndexOfChar finds the first occurrence, so any first occurrence is the one it finds. */
  lemma FirstIndexOfCharAt(s: string, a: char, k: nat)
    requires k < |s| && s[k] == a && a !in s[..k]
    ensures FirstIndexOfChar(s, a) == Some(k)
  {
    assert s[k] in s;
  }

  /** Python's `s.split(sep)` for a one-character separator: the pieces between separators, always at least one. */
  function Split(s: string, sep: char): (r: seq<string>)
    ensures |r| >= 1
    ensures forall p <- r :: sep !in p
    decreases |s|
  {
    match FirstIndexOfChar(s, sep)
    case None => [s]
    case Some(k) => [s[..k]] + Split(s[k + 1..], sep)
  }

  /** Python's `sep.join(pieces)` for a one-character separator. */
  function Join(pieces: seq<string>, sep: char): string
    decreases |pieces|
  {
    if pieces == [] then "" else if |pieces| == 1 then pieces[0] else pieces[0] + [sep] + Join(pieces[1..], sep)
  }

  /** Joining the pieces of a split gives the string back. */
  lemma {:induction false} JoinSplit(s: string, sep: char)
    ensures Join(Split(s, sep), sep) == s
    decreases |s|
  {
    match FirstIndexOfChar(s, sep)
    case None =>
    case Some(k) =>
      var rest := Split(s[k + 1..], sep);
      JoinSplit(s[k + 1..], sep);
      assert Split(s, sep)[1..] == rest;
      assert s == s[..k] + [sep] + s[k + 1..];
  }

  /** Splitting a join of separator-free pieces gives the pieces back. */
  lemma {:induction false} SplitJoin(pieces: seq<string>, sep: char)
    requires |pieces| >= 1 && forall p <- pieces :: sep !in p
    ensures Split(Join(pieces, sep), sep) == pieces
    decreases |pieces|
  {
    if |pieces| > 1 {
      var p, tail := pieces[0], pieces[1..];
      var s := Join(pieces, sep);
      assert s == p + [sep] + Join(tail, sep);
      assert s[..|p|] == p;
      FirstIndexOfCharAt(s, sep, |p|);
      assert s[|p| + 1..] == Join(tail, sep);
      SplitJoin(tail, sep);
    }
  }

  /** The characters Python's `str.isspace` accepts. */
  predicate IsSpace(c: char)
  {
    c == ' ' || '\t' <= c <= '\r' || '\U{1C}' <= c <= '\U{1F}' || c == '\U{85}' || c == '\U{A0}'
    || c == '\U{1680}' || '\U{2000}' <= c <= '\U{200A}' || c == '\U{2028}' || c == '\U{2029}'
    || c == '\U{202F}' || c == '\U{205F}' || c == '\U{3000}'
  }

  /** Python's `s.rstrip()`: the string without its trailing whitespace. */
  function RStrip(s: string): string
    decreases |s|
  {
    if s != [] && IsSpace(s[|s| - 1]) then RStrip(s[..|s| - 1]) else s
  }

  /** rstrip keeps a prefix that does not end in whitespace, and what it drops is all whitespace. */
  lemma {:induction false} RStripSpec(s: string)
    ensures var r := RStrip(s);
      && r <= s && (r == [] || !IsSpace(r[|r| - 1]))
      && forall i :: |r| <= i < |s| ==> IsSpace(s[i])
    decreases |s|
  {
    if s != [] && IsSpace(s[|s| - 1]) {
      RStripSpec(s[..|s| - 1]);
    }
  }

  /** Python's `s.lstrip()`: the string without its leading whitespace. */
  function LStrip(s: string): string
    decreases |s|
  {
    if s != [] && IsSpace(s[0]) then LStrip(s[1..]) else s
  }

  /** lstrip keeps a suffix that does not start with whitespace, and what it drops is all whitespace. */
  lemma {:induction false} LStripSpec(s: string)
    ensures var r := LStrip(s);
      && |r| <= |s| && r == s[|s| - |r|..] && (r == [] || !IsSpace(r[0]))
      && forall i :: 0 <= i < |s| - |r| ==> IsSpace(s[i])
    decreases |s|
  {
    if s != [] && IsSpace(s[0]) {
      LStripSpec(s[1..]);
    }
  }

  /** Python's `s.strip()`: the string without whitespace at either end. */
  function Strip(s: string): string
  {
    LStrip(RStrip(s))
  }

  /** Appending whitespace to a string that does not end in whitespace is undone by rstrip. */
  lemma {:induction false} RStripPadded(p: string, b: string)
    requires p == [] || !IsSpace(p[|p| - 1])
    requires forall k :: 0 <= k < |b| ==> IsSpace(b[k])
    ensures RStrip(p + b) == p
    decreases |b|
  {
    if b == [] {
      assert p + b == p;
    } else {
      assert (p + b)[..|p + b| - 1] == p + b[..|b| - 1];
      RStripPadded(p, b[..|b| - 1]);
    }
  }

  /** Prepending whitespace to a string that does not start with whitespace is undone by lstrip. */
  lemma {:induction false} LStripPadded(a: string, p: string)
    requires p == [] || !IsSpace(p[0])
    requires forall k :: 0 <= k < |a| ==> IsSpace(a[k])
    ensures LStrip(a + p) == p
    decreases |a|
  {
    if a == [] {
      assert a + p == p;
    } else {
      assert (a + p)[1..] == a[1..] + p;
      LStripPadded(a[1..], p);
    }
  }

  /**
   * strip removes exactly the whitespace around a string: a string without
   * whitespace at either end, padded with any whitespace, strips back to itself.
   */
  lemma StripPadded(a: string, s: string, b: string)
    requires s == [] || (!IsSpace(s[0]) && !IsSpace(s[|s| - 1]))
    requires forall k :: 0 <= k < |a| ==> IsSpace(a[k])
    requires forall k :: 0 <= k < |b| ==> IsSpace(b[k])
    ensures Strip(a + s + b) == s
  {
    if s == [] {
      assert a + s + b == [] + (a + b);
      RStripPadded([], a + b);
    } else {
      RStripPadded(a + s, b);
      LStripPadded(a, s);
    }
  }

  /** strip leaves no whitespace at either end, so stripping twice is stripping once. */
  lemma StripIdempotent(s: string)
    ensures var r := Strip(s); r == [] || (!IsSpace(r[0]) && !IsSpace(r[|r| - 1]))
    ensures Strip(Strip(s)) == Strip(s)
  {
    RStripSpec(s);
    LStripSpec(RStrip(s));
    StripUnpadded(Strip(s));
  }

  /**
   * Python's `int(s)` for the forms the tools meet: surrounding whitespace
   * is ignored, then an optional sign and ASCII digits.
   */
  function PyInt(s: string): Option<int>
  {
    ParseInt(Strip(s))
  }

  /** A string without whitespace at either end is its own strip. */
  lemma StripUnpadded(s: string)
    requires s == [] || (!IsSpace(s[0]) && !IsSpace(s[|s| - 1]))
    ensures Strip(s) == s
  {
  }

  /** `int(str(n)) == n` holds for Python's `int` as well: a decimal form has no whitespace to strip. */
  lemma PyIntNatToString(n: nat)
    ensures PyInt(NatToString(n)) == Some(n as int)
  {
    var s := NatToString(n);
    StripUnpadded(s);
    ParseNatToString(n);
  }

  /** The lines Python yields when iterating over a text: each up to and including its newline, the last one possibly without. */
  function TextLines(text: string): (r: seq<string>)
    ensures forall l <- r :: l != []
    decreases |text|
  {
    if text == [] then []
    else
      match FirstIndexOfChar(text, '\n')
      case None => [text]
      case Some(k) => [text[..k + 1]] + TextLines(text[k + 1..])
  }
}
