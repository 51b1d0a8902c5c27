/**
  The two validation regexes of the schema layer have one shape:
  `^(?:G{lo,hi}S){n}G{lo,hi}$`, a character class G repeated lo to hi times,
  a literal separator S, n + 1 groups in all. This module gives a matcher with
  the backtracking engine's semantics (and Python's `$`), and proves that it
  accepts exactly the strings whose `split(S)` pieces are n + 1 groups.
 */
module Regex {
  import opened Text

  /** The character classes the two regexes use: `[0-9]` and `[0-9A-Fa-f]`. */
  datatype CharClass = Digits | HexDigits

  predicate InClass(cls: CharClass, c: char) {
    match cls
    case Digits => IsAsciiDigit(c)
    case HexDigits => IsHexDigit(c)
  }

  predicate AllInClass(g: string, cls: CharClass) {
    g == [] || (InClass(cls, g[0]) && AllInClass(g[1..], cls))
  }

  /** `G{lo,hi}` matched against all of g. */
  predicate Group(g: string, lo: nat, hi: nat, cls: CharClass) {
    lo <= |g| <= hi && AllInClass(g, cls)
  }

  /** `(?:G{lo,hi}S){n}G{lo,hi}` matched against all of s. */
  predicate MatchesGroups(s: string, n: nat, sep: char, lo: nat, hi: nat, cls: CharClass)
    decreases n, 1, 0
  {
    if n == 0 then Group(s, lo, hi, cls) else TryGroupLengths(s, n, sep, lo, hi, cls, hi)
  }

  /**
    Backtracking over the length of the first group: try k characters, then
    k - 1, down to lo; each try wants the separator right after the group and
    the rest of the string to match the remaining n - 1 repetitions.
   */
  predicate TryGroupLengths(s: string, n: nat, sep: char, lo: nat, hi: nat, cls: CharClass, k: nat)
    requires n > 0
    decreases n, 0, k
  {
    || (lo <= k < |s| && Group(s[..k], lo, hi, cls) && s[k] == sep && MatchesGroups(s[k + 1..], n - 1, sep, lo, hi, cls))
    || (lo < k && TryGroupLengths(s, n, sep, lo, hi, cls, k - 1))
  }

  /**
    Python's `re.match(r"^...$", s)`: `$` matches at the very end and also just
    before a single newline that ends the string.
   */
  predicate AnchoredMatch(s: string, n: nat, sep: char, lo: nat, hi: nat, cls: CharClass) {
    || MatchesGroups(s, n, sep, lo, hi, cls)
    || (|s| > 0 && s[|s| - 1] == '\n' && MatchesGroups(s[..|s| - 1], n, sep, lo, hi, cls))
  }

  predicate AllGroups(parts: seq<string>, lo: nat, hi: nat, cls: CharClass) {
    parts == [] || (Group(parts[0], lo, hi, cls) && AllGroups(parts[1..], lo, hi, cls))
  }

  /** `s.split(sep)` has exactly n + 1 pieces, each of them a group. */
  predicate SplitsIntoGroups(s: string, n: nat, sep: char, lo: nat, hi: nat, cls: CharClass) {
    var parts := Split(s, sep);
    |parts| == n + 1 && AllGroups(parts, lo, hi, cls)
  }

  /** When the separator is outside the class, the regex accepts exactly the strings of n + 1 separated groups. */
  lemma MatchesGroupsIffSplit(s: string, n: nat, sep: char, lo: nat, hi: nat, cls: CharClass)
    requires !InClass(cls, sep)
    ensures MatchesGroups(s, n, sep, lo, hi, cls) <==> SplitsIntoGroups(s, n, sep, lo, hi, cls)
  {
    if MatchesGroups(s, n, sep, lo, hi, cls) {
      MatchImpliesSplit(s, n, sep, lo, hi, cls);
    }
    if SplitsIntoGroups(s, n, sep, lo, hi, cls) {
      SplitImpliesMatch(s, n, sep, lo, hi, cls);
    }
  }

  lemma {:induction false} ClassExcludesSeparator(g: string, sep: char, cls: CharClass)
    requires !InClass(cls, sep) && AllInClass(g, cls)
    ensures sep !in g
  {
    if g != [] {
      ClassExcludesSeparator(g[1..], sep, cls);
      assert g == [g[0]] + g[1..];
    }
  }

  lemma CutAt(s: string, k: nat)
    requires k < |s|
    ensures s == s[..k] + [s[k]] + s[k + 1..]
  {
  }

  lemma {:induction false} MatchImpliesSplit(s: string, n: nat, sep: char, lo: nat, hi: nat, cls: CharClass)
    requires !InClass(cls, sep)
    requires MatchesGroups(s, n, sep, lo, hi, cls)
    ensures SplitsIntoGroups(s, n, sep, lo, hi, cls)
    decreases n, 1, 0
  {
    if n == 0 {
      ClassExcludesSeparator(s, sep, cls);
      SplitNoSeparator(s, sep);
    } else {
      TryImpliesSplit(s, n, sep, lo, hi, cls, hi);
    }
  }

  lemma {:induction false} TryImpliesSplit(s: string, n: nat, sep: char, lo: nat, hi: nat, cls: CharClass, k: nat)
    requires !InClass(cls, sep) && n > 0
    requires TryGroupLengths(s, n, sep, lo, hi, cls, k)
    ensures SplitsIntoGroups(s, n, sep, lo, hi, cls)
    decreases n, 0, k
  {
    if lo <= k < |s| && Group(s[..k], lo, hi, cls) && s[k] == sep && MatchesGroups(s[k + 1..], n - 1, sep, lo, hi, cls) {
      MatchImpliesSplit(s[k + 1..], n - 1, sep, lo, hi, cls);
      SplitAfterGroup(s, k, n, sep, lo, hi, cls);
    } else {
      TryImpliesSplit(s, n, sep, lo, hi, cls, k - 1);
    }
  }

  /** One group, the separator, then n - 1 separated groups: n separated groups. */
  lemma SplitAfterGroup(s: string, k: nat, n: nat, sep: char, lo: nat, hi: nat, cls: CharClass)
    requires !InClass(cls, sep) && n > 0 && k < |s| && s[k] == sep
    requires Group(s[..k], lo, hi, cls)
    requires SplitsIntoGroups(s[k + 1..], n - 1, sep, lo, hi, cls)
    ensures SplitsIntoGroups(s, n, sep, lo, hi, cls)
  {
    var a, b := s[..k], s[k + 1..];
    CutAt(s, k);
    ClassExcludesSeparator(a, sep, cls);
    SplitAtFirst(a, b, sep);
    var parts := Split(s, sep);
    assert parts == [a] + Split(b, sep);
    assert parts[1..] == Split(b, sep);
  }

  lemma {:induction false} SplitImpliesMatch(s: string, n: nat, sep: char, lo: nat, hi: nat, cls: CharClass)
    requires SplitsIntoGroups(s, n, sep, lo, hi, cls)
    ensures MatchesGroups(s, n, sep, lo, hi, cls)
    decreases n, 1, 0
  {
    var parts := Split(s, sep);
    JoinOfSplit(s, sep);
    if n > 0 {
      TryFindsFirstGroup(s, n, sep, lo, hi, cls, hi);
    }
  }

  /** The backtracking succeeds once k has come down to the length of the first piece. */
  lemma {:induction false} TryFindsFirstGroup(s: string, n: nat, sep: char, lo: nat, hi: nat, cls: CharClass, k: nat)
    requires n > 0 && SplitsIntoGroups(s, n, sep, lo, hi, cls)
    requires |Split(s, sep)[0]| <= k
    ensures TryGroupLengths(s, n, sep, lo, hi, cls, k)
    decreases n, 0, k
  {
    var parts := Split(s, sep);
    var a, tail := parts[0], parts[1..];
    if k == |a| {
      JoinOfSplit(s, sep);
      assert s == a + [sep] + Join(tail, sep);
      SplitOfJoin(tail, sep);
      assert s[..k] == a && s[k] == sep && s[k + 1..] == Join(tail, sep);
      SplitImpliesMatch(s[k + 1..], n - 1, sep, lo, hi, cls);
    } else {
      TryFindsFirstGroup(s, n, sep, lo, hi, cls, k - 1);
    }
  }

  /** A match has between n * (lo + 1) + lo and n * (hi + 1) + hi characters. */
  lemma {:induction false} MatchesGroupsLength(s: string, n: nat, sep: char, lo: nat, hi: nat, cls: CharClass)
    requires !InClass(cls, sep)
    requires MatchesGroups(s, n, sep, lo, hi, cls)
    ensures n * (lo + 1) + lo <= |s| <= n * (hi + 1) + hi
  {
    MatchImpliesSplit(s, n, sep, lo, hi, cls);
    JoinOfSplit(s, sep);
    JoinLength(Split(s, sep), n, sep, lo, hi, cls);
  }

  lemma {:induction false} JoinLength(parts: seq<string>, n: nat, sep: char, lo: nat, hi: nat, cls: CharClass)
    requires |parts| == n + 1 && AllGroups(parts, lo, hi, cls)
    ensures n * (lo + 1) + lo <= |Join(parts, sep)| <= n * (hi + 1) + hi
  {
    if n > 0 {
      JoinLength(parts[1..], n - 1, sep, lo, hi, cls);
      assert |Join(parts, sep)| == |parts[0]| + 1 + |Join(parts[1..], sep)|;
      assert n * (lo + 1) == (n - 1) * (lo + 1) + lo + 1;
      assert n * (hi + 1) == (n - 1) * (hi + 1) + hi + 1;
    }
  }

  /** AllGroups is the pointwise statement that every piece is a group. */
  lemma {:induction false} AllGroupsEach(parts: seq<string>, lo: nat, hi: nat, cls: CharClass)
    ensures AllGroups(parts, lo, hi, cls) <==> forall i | 0 <= i < |parts| :: Group(parts[i], lo, hi, cls)
  {
    if parts != [] {
      AllGroupsEach(parts[1..], lo, hi, cls);
      assert forall i | 1 <= i < |parts| :: parts[i] == parts[1..][i - 1];
    }
  }

  /** The groups a match is made of: the pieces of the split, which join back to the input. */
  lemma GroupsOfMatch(t: string, n: nat, sep: char, lo: nat, hi: nat, cls: CharClass) returns (g: seq<string>)
    requires !InClass(cls, sep) && MatchesGroups(t, n, sep, lo, hi, cls)
    ensures g == Split(t, sep) && |g| == n + 1 && AllGroups(g, lo, hi, cls)
    ensures t == Join(g, sep)
  {
    MatchImpliesSplit(t, n, sep, lo, hi, cls);
    g := Split(t, sep);
    JoinOfSplit(t, sep);
  }

  /** Any n + 1 groups joined by the separator match, and split back into themselves. */
  lemma MatchOfGroups(g: seq<string>, n: nat, sep: char, lo: nat, hi: nat, cls: CharClass)
    requires !InClass(cls, sep) && |g| == n + 1 && AllGroups(g, lo, hi, cls)
    ensures Split(Join(g, sep), sep) == g
    ensures MatchesGroups(Join(g, sep), n, sep, lo, hi, cls)
  {
    AllGroupsEach(g, lo, hi, cls);
    forall i | 0 <= i < |g| ensures sep !in g[i] {
      ClassExcludesSeparator(g[i], sep, cls);
    }
    SplitOfJoin(g, sep);
    SplitImpliesMatch(Join(g, sep), n, sep, lo, hi, cls);
  }

  /**
    The anchored regex accepts exactly n + 1 groups joined by the separator,
    with or without one trailing newline.
   */
  lemma AnchoredMatchIff(s: string, n: nat, sep: char, lo: nat, hi: nat, cls: CharClass)
    requires !InClass(cls, sep)
    ensures AnchoredMatch(s, n, sep, lo, hi, cls) <==>
      exists g: seq<string> | |g| == n + 1 && AllGroups(g, lo, hi, cls) ::
        s == Join(g, sep) || s == Join(g, sep) + "\n"
  {
    if AnchoredMatch(s, n, sep, lo, hi, cls) {
      if MatchesGroups(s, n, sep, lo, hi, cls) {
        var g := GroupsOfMatch(s, n, sep, lo, hi, cls);
      } else {
        var g := GroupsOfMatch(s[..|s| - 1], n, sep, lo, hi, cls);
        assert s == Join(g, sep) + "\n";
      }
    }
    if exists g: seq<string> | |g| == n + 1 && AllGroups(g, lo, hi, cls) ::
        s == Join(g, sep) || s == Join(g, sep) + "\n" {
      var g: seq<string> :| |g| == n + 1 && AllGroups(g, lo, hi, cls) &&
        (s == Join(g, sep) || s == Join(g, sep) + "\n");
      MatchOfGroups(g, n, sep, lo, hi, cls);
      if s != Join(g, sep) {
        assert s[..|s| - 1] == Join(g, sep);
      }
    }
  }
}
