/**
  The parts of Python's `str` behaviour that the service relies on:
  character classes, `split` with a one-character separator, `strip`,
  ASCII `lower` and `int` on decimal text.
 */
module Text {
  import opened Wrappers

  predicate IsAsciiDigit(c: char) { '0' <= c <= '9' }

  predicate IsHexDigit(c: char) { IsAsciiDigit(c) || 'a' <= c <= 'f' || 'A' <= c <= 'F' }

  predicate AllDigits(s: string) { forall i | 0 <= i < |s| :: IsAsciiDigit(s[i]) }

  /** The characters for which Python's `str.isspace()` holds; `str.strip()` removes exactly these. */
  predicate IsPySpace(c: char) {
    || '\t' <= c <= '\r'
    || '\U{1c}' <= c <= '\U{1f}'
    || c == ' ' || c == '\U{85}' || c == '\U{a0}' || c == '\U{1680}'
    || '\U{2000}' <= c <= '\U{200a}'
    || c == '\U{2028}' || c == '\U{2029}' || c == '\U{202f}' || c == '\U{205f}' || c == '\U{3000}'
  }

  /** Neither the first nor the last character is whitespace. */
  predicate Unpadded(s: string) {
    s == [] || (!IsPySpace(s[0]) && !IsPySpace(s[|s| - 1]))
  }

  // ---------------------------------------------------------------- strip

  function LStrip(s: string): (r: string)
    ensures |r| <= |s| && forall i | 0 <= i < |r| :: r[i] == s[|s| - |r| + i]
    ensures r == [] || !IsPySpace(r[0])
  {
    if s != [] && IsPySpace(s[0]) then LStrip(s[1..]) else s
  }

  function RStrip(s: string): (r: string)
    ensures |r| <= |s| && forall i | 0 <= i < |r| :: r[i] == s[i]
    ensures r == [] || !IsPySpace(r[|r| - 1])
  {
    if s != [] && IsPySpace(s[|s| - 1]) then RStrip(s[..|s| - 1]) else s
  }

  /** Python's `s.strip()`: the longest infix of `s` with no whitespace at either end. */
  function Strip(s: string): (r: string)
    ensures Unpadded(r)
    ensures |r| <= |s|
  {
    LStrip(RStrip(s))
  }

  /** What `lstrip` removes is whitespace. */
  lemma {:induction false} LStripRemovesSpace(s: string)
    ensures forall i | 0 <= i < |s| - |LStrip(s)| :: IsPySpace(s[i])
  {
    if s != [] && IsPySpace(s[0]) {
      LStripRemovesSpace(s[1..]);
      assert forall i | 1 <= i < |s| :: s[i] == s[1..][i - 1];
    }
  }

  /** What `rstrip` removes is whitespace. */
  lemma {:induction false} RStripRemovesSpace(s: string)
    ensures forall i | |RStrip(s)| <= i < |s| :: IsPySpace(s[i])
  {
    if s != [] && IsPySpace(s[|s| - 1]) {
      RStripRemovesSpace(s[..|s| - 1]);
      assert forall i | 0 <= i < |s| - 1 :: s[i] == s[..|s| - 1][i];
    }
  }

  lemma StripUnpadded(s: string)
    requires Unpadded(s)
    ensures Strip(s) == s
  {
  }

  lemma {:induction false} StripIdempotent(s: string)
    ensures Strip(Strip(s)) == Strip(s)
  {
    StripUnpadded(Strip(s));
  }

  /** Trailing whitespace never changes what `strip` keeps. */
  lemma StripDropsTrailingSpace(s: string, c: char)
    requires IsPySpace(c)
    ensures Strip(s + [c]) == Strip(s)
  {
    var t := s + [c];
    assert t[..|t| - 1] == s;
    assert RStrip(t) == RStrip(s);
  }

  // ---------------------------------------------------------------- lower

  function LowerChar(c: char): char {
    if 'A' <= c <= 'Z' then (c as int + 32) as char else c
  }

  /** Python's `str.lower()` on ASCII letters; every other character is kept. */
  function Lower(s: string): (r: string)
    ensures |r| == |s|
    ensures forall i | 0 <= i < |s| :: r[i] == LowerChar(s[i])
  {
    if s == [] then [] else [LowerChar(s[0])] + Lower(s[1..])
  }

  // ---------------------------------------------------------------- split / join

  /**
    Python's `s.split(sep)` for a one-character separator: the pieces between
    separators, left to right; an empty string gives one empty piece.
   */
  function Split(s: string, sep: char): (parts: seq<string>)
    ensures |parts| >= 1
    ensures forall i | 0 <= i < |parts| :: sep !in parts[i]
  {
    if s == [] then [""]
    else
      var rest := Split(s[1..], sep);
      if s[0] == sep then [""] + rest
      else [[s[0]] + rest[0]] + rest[1..]
  }

  /** Python's `sep.join(parts)`. */
  function Join(parts: seq<string>, sep: char): string {
    if |parts| == 0 then ""
    else if |parts| == 1 then parts[0]
    else parts[0] + [sep] + Join(parts[1..], sep)
  }

  /** Splitting and joining again gives back the original string. */
  lemma {:induction false} JoinOfSplit(s: string, sep: char)
    ensures Join(Split(s, sep), sep) == s
  {
    if s != [] {
      var rest := Split(s[1..], sep);
      JoinOfSplit(s[1..], sep);
      if s[0] == sep {
        assert Split(s, sep) == [""] + rest;
        assert ([""] + rest)[1..] == rest;
      } else if |rest| == 1 {
        assert Split(s, sep) == [[s[0]] + rest[0]];
      } else {
        var parts := Split(s, sep);
        assert parts[1..] == rest[1..];
        assert Join(rest, sep) == rest[0] + [sep] + Join(rest[1..], sep);
      }
    }
  }

  /** A prefix free of the separator becomes the front of the first piece. */
  lemma {:induction false} SplitPrefix(a: string, b: string, sep: char)
    requires sep !in a
    ensures Split(a + b, sep) == [a + Split(b, sep)[0]] + Split(b, sep)[1..]
  {
    if a != [] {
      SplitPrefix(a[1..], b, sep);
      var p, q := Split(b, sep), Split(a[1..] + b, sep);
      assert q[0] == a[1..] + p[0] && q[1..] == p[1..];
      assert (a + b)[0] == a[0] && (a + b)[1..] == a[1..] + b;
      assert Split(a + b, sep) == [[a[0]] + q[0]] + q[1..];
      assert [a[0]] + (a[1..] + p[0]) == a + p[0];
    } else {
      var p := Split(b, sep);
      assert a + b == b;
      assert a + p[0] == p[0];
      assert [p[0]] + p[1..] == p;
    }
  }

  /** A string without the separator is its own single piece. */
  lemma SplitNoSeparator(a: string, sep: char)
    requires sep !in a
    ensures Split(a, sep) == [a]
  {
    SplitPrefix(a, "", sep);
    assert a + "" == a;
  }

  /** Cutting at the first separator: `a + sep + b` splits into `a` and the pieces of `b`. */
  lemma SplitAtFirst(a: string, b: string, sep: char)
    requires sep !in a
    ensures Split(a + [sep] + b, sep) == [a] + Split(b, sep)
  {
    SplitPrefix(a, [sep] + b, sep);
    assert a + [sep] + b == a + ([sep] + b);
    assert ([sep] + b)[1..] == b;
    assert Split([sep] + b, sep) == [""] + Split(b, sep);
    assert a + "" == a;
  }

  /** Joining separator-free pieces and splitting again gives back the pieces. */
  lemma {:induction false} SplitOfJoin(parts: seq<string>, sep: char)
    requires |parts| >= 1
    requires forall i | 0 <= i < |parts| :: sep !in parts[i]
    ensures Split(Join(parts, sep), sep) == parts
  {
    if |parts| == 1 {
      SplitNoSeparator(parts[0], sep);
    } else {
      SplitOfJoin(parts[1..], sep);
      SplitAtFirst(parts[0], Join(parts[1..], sep), sep);
      assert [parts[0]] + parts[1..] == parts;
    }
  }

  /** A separator-free suffix only lengthens the last piece. */
  lemma {:induction false} SplitSuffix(s: string, b: string, sep: char)
    requires sep !in b
    ensures var p := Split(s, sep);
      Split(s + b, sep) == p[..|p| - 1] + [p[|p| - 1] + b]
  {
    if s == [] {
      SplitNoSeparator(b, sep);
      assert s + b == b;
    } else {
      SplitSuffix(s[1..], b, sep);
      assert s + b == [s[0]] + (s[1..] + b);
      assert s == [s[0]] + s[1..];
      SplitSuffixStep(s[0], s[1..], b, sep);
    }
  }

  /** The inductive step of SplitSuffix: putting one more character in front. */
  lemma SplitSuffixStep(c: char, t: string, b: string, sep: char)
    requires var p := Split(t, sep); Split(t + b, sep) == p[..|p| - 1] + [p[|p| - 1] + b]
    ensures var p := Split([c] + t, sep);
      Split([c] + (t + b), sep) == p[..|p| - 1] + [p[|p| - 1] + b]
  {
    assert ([c] + t)[1..] == t && ([c] + (t + b))[1..] == t + b;
    if c == sep {
      assert Split([c] + t, sep) == [""] + Split(t, sep);
      assert Split([c] + (t + b), sep) == [""] + Split(t + b, sep);
    } else if |Split(t, sep)| == 1 {
      SplitSuffixSingle(c, t, b, sep);
    } else {
      SplitSuffixMany(c, t, b, sep);
    }
  }

  lemma SplitSuffixSingle(c: char, t: string, b: string, sep: char)
    requires c != sep && |Split(t, sep)| == 1
    requires Split(t + b, sep) == [Split(t, sep)[0] + b]
    ensures Split([c] + (t + b), sep) == [Split([c] + t, sep)[0] + b]
    ensures |Split([c] + t, sep)| == 1
  {
    var rest := Split(t, sep);
    assert ([c] + t)[1..] == t && ([c] + (t + b))[1..] == t + b;
    assert Split([c] + t, sep) == [[c] + rest[0]];
    assert Split([c] + (t + b), sep) == [[c] + (rest[0] + b)];
    assert [c] + (rest[0] + b) == ([c] + rest[0]) + b;
  }

  lemma SplitSuffixMany(c: char, t: string, b: string, sep: char)
    requires c != sep && |Split(t, sep)| > 1
    requires var p := Split(t, sep); Split(t + b, sep) == p[..|p| - 1] + [p[|p| - 1] + b]
    ensures var p := Split([c] + t, sep);
      Split([c] + (t + b), sep) == p[..|p| - 1] + [p[|p| - 1] + b]
  {
    var rest, rest' := Split(t, sep), Split(t + b, sep);
    assert ([c] + t)[1..] == t && ([c] + (t + b))[1..] == t + b;
    assert Split([c] + t, sep) == [[c] + rest[0]] + rest[1..];
    assert Split([c] + (t + b), sep) == [[c] + rest'[0]] + rest'[1..];
    assert rest'[0] == rest[0];
    assert rest'[1..] == rest[1..|rest| - 1] + [rest[|rest| - 1] + b];
  }

  // ---------------------------------------------------------------- int()

  function DigitValue(c: char): nat
    requires IsAsciiDigit(c)
  {
    c as int - '0' as int
  }

  /** The value of a string of ASCII decimal digits; leading zeros do not matter. */
  function DecimalValue(s: string): nat
    requires AllDigits(s)
  {
    if s == [] then 0 else 10 * DecimalValue(s[..|s| - 1]) + DigitValue(s[|s| - 1])
  }

  /**
    Python's `int(s)` on text: surrounding whitespace is ignored, an optional
    sign, then one or more ASCII digits. `None` stands for the ValueError.
   */
  function PyInt(s: string): Option<int> {
    var t := Strip(s);
    if |t| > 0 && (t[0] == '+' || t[0] == '-') then
      var d := t[1..];
      if |d| > 0 && AllDigits(d) then Some(if t[0] == '-' then -(DecimalValue(d) as int) else DecimalValue(d) as int)
      else None
    else if |t| > 0 && AllDigits(t) then Some(DecimalValue(t))
    else None
  }

  /** A digit string parses to its value, with or without a trailing newline. */
  lemma PyIntOfDigits(d: string)
    requires |d| > 0 && AllDigits(d)
    ensures PyInt(d) == Some(DecimalValue(d))
    ensures PyInt(d + "\n") == Some(DecimalValue(d))
  {
    assert IsAsciiDigit(d[0]) && IsAsciiDigit(d[|d| - 1]);
    StripUnpadded(d);
    assert d[0] != '+' && d[0] != '-';
    StripDropsTrailingSpace(d, '\n');
    assert Strip(d + "\n") == d;
  }
}
