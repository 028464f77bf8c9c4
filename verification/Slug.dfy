/**
 `GenerateSlug`: lower case, hyphens for spaces, then `--` replaced by `-` until none is left,
 then hyphens trimmed at both ends. Letters are ASCII.
 */
module Slug {

  function ToLower(c: char): char {
    if 'A' <= c <= 'Z' then c + 32 as char else c
  }

  function Hyphenate(c: char): char {
    if c == ' ' then '-' else c
  }

  /** Lower case with spaces replaced. */
  function Normalized(name: string): string {
    seq(|name|, i requires 0 <= i < |name| => Hyphenate(ToLower(name[i])))
  }

  predicate PairAt(s: string, i: int) {
    0 <= i < |s| - 1 && s[i] == '-' && s[i + 1] == '-'
  }

  ghost predicate HasPair(s: string) {
    exists i :: PairAt(s, i)
  }

  /** One left-to-right replacement of the non-overlapping occurrences of `--`. */
  function ReplacePairs(s: string): string {
    if |s| < 2 then s
    else if s[0] == '-' && s[1] == '-' then "-" + ReplacePairs(s[2..])
    else s[..1] + ReplacePairs(s[1..])
  }

  /** Every run of hyphens becomes one hyphen. */
  function Collapse(s: string): string {
    if |s| < 2 then s
    else if s[0] == '-' && s[1] == '-' then Collapse(s[1..])
    else s[..1] + Collapse(s[1..])
  }

  function TrimLeft(s: string): string {
    if s != "" && s[0] == '-' then TrimLeft(s[1..]) else s
  }

  function TrimRight(s: string): string {
    if s != "" && s[|s| - 1] == '-' then TrimRight(s[..|s| - 1]) else s
  }

  /** The one-pass definition. */
  function SlugOf(name: string): string {
    TrimRight(TrimLeft(Collapse(Normalized(name))))
  }

  method ContainsPair(s: string) returns (found: bool)
    ensures found <==> HasPair(s)
  {
    if |s| < 2 {
      return false;
    }
    for i := 0 to |s| - 1
      invariant forall k :: k < i ==> !PairAt(s, k)
    {
      if PairAt(s, i) {
        return true;
      }
    }
    return false;
  }

  /** The loop ends, and gives the one-pass result. */
  method GenerateSlug(name: string) returns (slug: string)
    ensures slug == SlugOf(name)
  {
    slug := Normalized(name);
    var again := ContainsPair(slug);
    while again
      invariant Collapse(slug) == Collapse(Normalized(name))
      invariant again <==> HasPair(slug)
      decreases |slug|
    {
      ReplacingShortens(slug);
      ReplacingKeepsCollapse(slug);
      slug := ReplacePairs(slug);
      again := ContainsPair(slug);
    }
    NoPairIsCollapsed(slug);
    slug := TrimRight(TrimLeft(slug));
  }

  // ----- The loop

  lemma {:induction false} ReplacingShortens(s: string)
    ensures |ReplacePairs(s)| <= |s|
    ensures HasPair(s) ==> |ReplacePairs(s)| < |s|
  {
    if |s| >= 2 {
      if s[0] == '-' && s[1] == '-' {
        ReplacingShortens(s[2..]);
      } else {
        ReplacingShortens(s[1..]);
        if HasPair(s) {
          var i :| PairAt(s, i);
          assert PairAt(s[1..], i - 1);
        }
      }
    }
  }

  lemma {:induction false} ReplacingKeepsFirst(s: string)
    ensures (ReplacePairs(s) == "") == (s == "") && (s != "" ==> ReplacePairs(s)[0] == s[0])
  {
  }

  lemma {:induction false} ReplacingKeepsCollapse(s: string)
    ensures Collapse(ReplacePairs(s)) == Collapse(s)
  {
    if |s| >= 2 {
      if s[0] == '-' && s[1] == '-' {
        var rest := s[2..];
        ReplacingKeepsCollapse(rest);
        ReplacingKeepsFirst(rest);
        CollapseAfter('-', rest, ReplacePairs(rest));
        assert s[1..] == "-" + rest;
      } else {
        var rest := s[1..];
        ReplacingKeepsCollapse(rest);
        ReplacingKeepsFirst(rest);
        CollapseAfter(s[0], rest, ReplacePairs(rest));
        assert s == [s[0]] + rest && s[..1] == [s[0]];
      }
    }
  }

  lemma CollapseAfter(c: char, s: string, t: string)
    requires Collapse(s) == Collapse(t) && (s == "") == (t == "") && (s != "" ==> s[0] == t[0])
    ensures Collapse([c] + s) == Collapse([c] + t)
  {
    assert ([c] + s)[1..] == s && ([c] + t)[1..] == t;
  }

  lemma MiddleHasNoPair(s: string, from: nat, to: nat)
    requires !HasPair(s) && from <= to <= |s|
    ensures !HasPair(s[from..to])
  {
    forall i ensures !PairAt(s[from..to], i) {
      assert !PairAt(s, from + i);
    }
  }

  lemma {:induction false} NoPairIsCollapsed(s: string)
    requires !HasPair(s)
    ensures Collapse(s) == s
  {
    if |s| >= 2 {
      var rest := s[1..];
      MiddleHasNoPair(s, 1, |s|);
      assert rest == s[1..|s|] && !PairAt(s, 0);
      NoPairIsCollapsed(rest);
      assert s[..1] + rest == s;
    }
  }

  // ----- What a slug looks like

  predicate SlugChar(c: char) {
    c != ' ' && !('A' <= c <= 'Z')
  }

  ghost predicate WellFormed(s: string) {
    && !HasPair(s)
    && (forall i :: 0 <= i < |s| ==> SlugChar(s[i]))
    && (s != "" ==> s[0] != '-' && s[|s| - 1] != '-')
  }

  lemma {:induction false} CollapseProperties(s: string)
    requires forall i :: 0 <= i < |s| ==> SlugChar(s[i])
    ensures var c := Collapse(s);
            && !HasPair(c) && (forall i :: 0 <= i < |c| ==> SlugChar(c[i]))
            && (c == "") == (s == "") && (s != "" ==> c[0] == s[0])
  {
    if |s| >= 2 {
      CollapseProperties(s[1..]);
      var rest := Collapse(s[1..]);
      if !(s[0] == '-' && s[1] == '-') {
        var c := s[..1] + rest;
        forall i ensures !PairAt(c, i) {
          assert i > 0 ==> !PairAt(rest, i - 1);
        }
      }
    }
  }

  lemma {:induction false} TrimLeftIsSuffix(s: string) returns (k: nat)
    ensures k <= |s| && TrimLeft(s) == s[k..]
    ensures TrimLeft(s) != "" ==> TrimLeft(s)[0] != '-'
  {
    k := 0;
    if s != "" && s[0] == '-' {
      var j := TrimLeftIsSuffix(s[1..]);
      k := j + 1;
    }
  }

  lemma {:induction false} TrimRightIsPrefix(s: string)
    ensures TrimRight(s) <= s
    ensures TrimRight(s) != "" ==> TrimRight(s)[|TrimRight(s)| - 1] != '-'
  {
    if s != "" && s[|s| - 1] == '-' {
      TrimRightIsPrefix(s[..|s| - 1]);
    }
  }

  lemma TrimmedIsMiddle(s: string) returns (k: nat, n: nat)
    ensures k <= n <= |s| && TrimRight(TrimLeft(s)) == s[k..n]
    ensures k < n ==> s[k] != '-' && s[n - 1] != '-'
  {
    k := TrimLeftIsSuffix(s);
    TrimRightIsPrefix(TrimLeft(s));
    var t := TrimRight(TrimLeft(s));
    n := k + |t|;
    assert t == s[k..][..|t|] == s[k..n];
    if t != "" {
      assert t[0] == TrimLeft(s)[0] == s[k];
      assert t[|t| - 1] == s[n - 1];
    }
  }

  /** No double, leading or trailing hyphen, no space and no upper-case letter. */
  lemma SlugIsWellFormed(name: string)
    ensures WellFormed(SlugOf(name))
  {
    var c := Collapse(Normalized(name));
    CollapseProperties(Normalized(name));
    var k, n := TrimmedIsMiddle(c);
    MiddleHasNoPair(c, k, n);
    forall i | 0 <= i < |c[k..n]| ensures SlugChar(c[k..n][i]) {
      assert c[k..n][i] == c[k + i];
    }
  }

  /** Exactly the well-formed strings are their own slug. */
  lemma FixedPointsAreWellFormed(s: string)
    ensures SlugOf(s) == s <==> WellFormed(s)
  {
    if WellFormed(s) {
      assert Normalized(s) == s;
      NoPairIsCollapsed(s);
    } else {
      SlugIsWellFormed(s);
    }
  }

  /** Generating a slug from a slug changes nothing. */
  lemma SlugIsIdempotent(name: string)
    ensures SlugOf(SlugOf(name)) == SlugOf(name)
  {
    SlugIsWellFormed(name);
    FixedPointsAreWellFormed(SlugOf(name));
  }

  // ----- The slug is the words of the name, joined by single hyphens

  /** The maximal pieces without a hyphen. */
  function Words(s: string): (ws: seq<string>)
    ensures s != "" && s[0] != '-' ==> ws != []
  {
    if s == "" then []
    else if s[0] == '-' then Words(s[1..])
    else if |s| == 1 || s[1] == '-' then [[s[0]]] + Words(s[1..])
    else
      var ws := Words(s[1..]);
      [[s[0]] + ws[0]] + ws[1..]
  }

  function Join(ws: seq<string>): string {
    if ws == [] then ""
    else if |ws| == 1 then ws[0]
    else ws[0] + "-" + Join(ws[1..])
  }

  lemma {:induction false} CollapseKeepsFirst(s: string)
    ensures (Collapse(s) == "") == (s == "") && (s != "" ==> Collapse(s)[0] == s[0])
  {
    if |s| >= 2 {
      CollapseKeepsFirst(s[1..]);
    }
  }

  lemma {:induction false} CollapseKeepsWords(s: string)
    ensures Words(Collapse(s)) == Words(s)
  {
    if |s| >= 2 {
      CollapseKeepsWords(s[1..]);
      CollapseKeepsFirst(s[1..]);
      if !(s[0] == '-' && s[1] == '-') {
        var c := s[..1] + Collapse(s[1..]);
        assert c[1..] == Collapse(s[1..]) && c[0] == s[0] && c[1] == s[1];
      }
    }
  }

  lemma {:induction false} TrailingHyphenAddsNoWord(s: string)
    ensures Words(s + "-") == Words(s)
  {
    if s != "" {
      TrailingHyphenAddsNoWord(s[1..]);
      assert (s + "-")[1..] == s[1..] + "-";
    } else {
      assert Words("-") == Words("-"[1..]);
    }
  }

  lemma {:induction false} TrimmingKeepsWords(s: string)
    ensures Words(TrimLeft(s)) == Words(s) && Words(TrimRight(s)) == Words(s)
    decreases |s|
  {
    if s != "" && s[0] == '-' {
      TrimmingKeepsWords(s[1..]);
    }
    if s != "" && s[|s| - 1] == '-' {
      TrimmingKeepsWords(s[..|s| - 1]);
      TrailingHyphenAddsNoWord(s[..|s| - 1]);
      assert s == s[..|s| - 1] + "-";
    }
  }

  lemma WordsAfterSingle(s: string)
    requires |s| > 1 && s[0] != '-' && s[1] == '-'
    ensures Words(s) == [[s[0]]] + Words(s[2..]) && s == [s[0]] + "-" + s[2..]
  {
    assert s[1..][1..] == s[2..];
  }

  lemma {:induction false} WellFormedIsJoined(s: string)
    requires !HasPair(s) && (s != "" ==> s[0] != '-' && s[|s| - 1] != '-')
    ensures Join(Words(s)) == s
  {
    if |s| > 1 {
      if s[1] == '-' {
        assert !PairAt(s, 1);
        MiddleHasNoPair(s, 2, |s|);
        assert s[2..|s|] == s[2..];
        WellFormedIsJoined(s[2..]);
        WordsAfterSingle(s);
        assert Words(s)[1..] == Words(s[2..]);
      } else {
        MiddleHasNoPair(s, 1, |s|);
        assert s[1..|s|] == s[1..];
        WellFormedIsJoined(s[1..]);
        var ws := Words(s[1..]);
        assert Words(s)[1..] == ws[1..];
        assert s == [s[0]] + s[1..];
      }
    }
  }

  /** What the slug is, said without any replacing, collapsing or trimming. */
  lemma SlugJoinsTheWords(name: string)
    ensures SlugOf(name) == Join(Words(Normalized(name)))
  {
    CollapseKeepsWords(Normalized(name));
    TrimmingKeepsWords(Collapse(Normalized(name)));
    TrimmingKeepsWords(TrimLeft(Collapse(Normalized(name))));
    SlugIsWellFormed(name);
    WellFormedIsJoined(SlugOf(name));
  }
  // ----- Which characters are changed

  /** A space counts as a hyphen, and a capital as its small letter. */
  lemma SpacesAndCapitals(a: string, b: string, c: char)
    ensures SlugOf(a + " " + b) == SlugOf(a + "-" + b)
    ensures 'A' <= c <= 'Z' ==> SlugOf(a + [c] + b) == SlugOf(a + [c + 32 as char] + b)
  {
    assert Normalized(a + " " + b) == Normalized(a + "-" + b);
    if 'A' <= c <= 'Z' {
      assert Normalized(a + [c] + b) == Normalized(a + [c + 32 as char] + b);
    }
  }

  /** Words without spaces, hyphens and capitals stay as they are, joined by a hyphen. */
  lemma TwoWords(a: string, b: string)
    requires WellFormed(a) && WellFormed(b) && a != "" && b != ""
    ensures SlugOf(a + " " + b) == a + "-" + b
  {
    var s := a + "-" + b;
    SpacesAndCapitals(a, b, 'A');
    forall i ensures !PairAt(s, i) {
      assert !PairAt(a, i) && !PairAt(b, i - |a| - 1);
    }
    FixedPointsAreWellFormed(s);
  }
}
