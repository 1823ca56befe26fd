/** The caption text heuristic of the activity plugin: the captions are
    joined with single spaces and lower-cased, and the activity is the first
    match of the regular expression `\b(\w+ing)\b` in that text.

    `\w` is restricted to ASCII here: letters, digits and the underscore.
    A match of `\b(\w+ing)\b` is then exactly a maximal run of word
    characters of length at least four that ends in "ing"; `FirstMatch`
    finds the leftmost one by scanning run after run, and `MatchAt` states
    what a match is directly, as the regular expression does. */
module Text {
  import opened Wrappers

  /** A word character of `\w`, over ASCII. */
  predicate IsWordChar(c: char) {
    ('a' <= c <= 'z') || ('A' <= c <= 'Z') || ('0' <= c <= '9') || c == '_'
  }

  /** `str.lower()` on one ASCII character. */
  function LowerChar(c: char): char {
    if 'A' <= c <= 'Z' then (c as int - 'A' as int + 'a' as int) as char else c
  }

  function Lower(s: string): string {
    seq(|s|, i requires 0 <= i < |s| => LowerChar(s[i]))
  }

  /** `sep.join(parts)`. */
  function Join(parts: seq<string>, sep: string): string {
    if |parts| == 0 then ""
    else if |parts| == 1 then parts[0]
    else parts[0] + sep + Join(parts[1..], sep)
  }

  /** `\w+ing`: at least one character before the suffix "ing". */
  predicate EndsWithIng(w: string) {
    |w| >= 4 && w[|w| - 3..] == "ing"
  }

  /** `s[i..j]` is a match of `\b(\w+ing)\b`: word characters only, a word
      boundary on both sides, and the suffix "ing". */
  ghost predicate MatchAt(s: string, i: int, j: int) {
    && 0 <= i < j <= |s|
    && (i == 0 || !IsWordChar(s[i - 1]))
    && (j == |s| || !IsWordChar(s[j]))
    && (forall k :: i <= k < j ==> IsWordChar(s[k]))
    && EndsWithIng(s[i..j])
  }

  /** The end of the run of word characters that starts at `i`. */
  function RunEnd(s: string, i: nat): (j: nat)
    requires i <= |s|
    ensures i <= j <= |s|
    ensures forall k :: i <= k < j ==> IsWordChar(s[k])
    ensures j == |s| || !IsWordChar(s[j])
    decreases |s| - i
  {
    if i == |s| || !IsWordChar(s[i]) then i else RunEnd(s, i + 1)
  }

  /** No run of word characters straddles position `p`. */
  ghost predicate AtBoundary(s: string, p: nat) {
    p <= |s| && (0 < p < |s| && IsWordChar(s[p]) ==> !IsWordChar(s[p - 1]))
  }

  /** The leftmost match at or after `p`, as a pair of positions. */
  function FirstMatchFrom(s: string, p: nat): (r: Option<(nat, nat)>)
    requires AtBoundary(s, p)
    ensures r.Some? ==> p <= r.value.0 && MatchAt(s, r.value.0, r.value.1)
    decreases |s| - p
  {
    if p == |s| then None
    else if !IsWordChar(s[p]) then FirstMatchFrom(s, p + 1)
    else
      var j := RunEnd(s, p);
      if EndsWithIng(s[p..j]) then Some((p, j)) else FirstMatchFrom(s, j)
  }

  /** `re.search(r"\b(\w+ing)\b", s)`, as the span of the match. */
  function FirstMatch(s: string): (r: Option<(nat, nat)>)
    ensures r.Some? ==> MatchAt(s, r.value.0, r.value.1)
  {
    FirstMatchFrom(s, 0)
  }

  /** The first element of `re.findall(r"\b(\w+ing)\b", s)`, if any. */
  function FirstIngWord(s: string): (r: Option<string>)
  {
    match FirstMatch(s)
    case Some((i, j)) => Some(s[i..j])
    case None => None
  }

  /** A match determines its end: it is the end of the run it starts. */
  lemma MatchEndIsRunEnd(s: string, i: nat, j: nat)
    requires MatchAt(s, i, j)
    ensures j == RunEnd(s, i)
  {
  }

  /** Every match at or after `p` is found, or an earlier one is. */
  lemma {:induction false} FirstMatchFromComplete(s: string, p: nat, i: nat, j: nat)
    requires AtBoundary(s, p)
    requires MatchAt(s, i, j) && p <= i
    ensures FirstMatchFrom(s, p).Some? && FirstMatchFrom(s, p).value.0 <= i
    decreases |s| - p
  {
    if !IsWordChar(s[p]) {
      FirstMatchFromComplete(s, p + 1, i, j);
    } else {
      var e := RunEnd(s, p);
      if i == p {
        MatchEndIsRunEnd(s, i, j);
      } else if !EndsWithIng(s[p..e]) {
        assert !IsWordChar(s[i - 1]);
        assert e <= i - 1;
        FirstMatchFromComplete(s, e, i, j);
      }
    }
  }

  /** `FirstMatch` finds exactly the leftmost match of the regular
      expression, and finds nothing exactly when there is no match. */
  lemma FirstMatchIsLeftmost(s: string, i: nat, j: nat)
    ensures FirstMatch(s) == Some((i, j)) <==>
              MatchAt(s, i, j) && forall i', j' :: MatchAt(s, i', j') ==> i <= i'
  {
    if FirstMatch(s) == Some((i, j)) {
      forall i', j' | MatchAt(s, i', j') ensures i <= i' {
        FirstMatchFromComplete(s, 0, i', j');
      }
    }
    if MatchAt(s, i, j) && forall i', j' :: MatchAt(s, i', j') ==> i <= i' {
      FirstMatchFromComplete(s, 0, i, j);
      var m := FirstMatch(s).value;
      MatchEndIsRunEnd(s, i, j);
      MatchEndIsRunEnd(s, m.0, m.1);
    }
  }

  lemma FirstMatchNone(s: string)
    ensures FirstMatch(s) == None <==> forall i, j :: !MatchAt(s, i, j)
  {
    if FirstMatch(s) == None {
      forall i, j | MatchAt(s, i, j) ensures false {
        FirstMatchFromComplete(s, 0, i, j);
      }
    }
  }

  /** A match never contains a space. */
  lemma MatchAvoidsSpace(s: string, n: nat, i: nat, j: nat)
    requires n < |s| && s[n] == ' ' && MatchAt(s, i, j)
    ensures j <= n || n < i
  {
  }

  /** Matches in `a + " " + b` that end within `a` are the matches of `a`. */
  lemma MatchLeftOfSpace(a: string, b: string, i: nat, j: nat)
    requires j <= |a|
    ensures MatchAt(a + " " + b, i, j) <==> MatchAt(a, i, j)
  {
    var s := a + " " + b;
    assert forall k :: 0 <= k < |a| ==> s[k] == a[k];
    if i <= j {
      assert s[i..j] == a[i..j];
    }
    assert s[|a|] == ' ';
  }

  /** Matches in `a + " " + b` that start after the space are the matches of `b`, shifted. */
  lemma MatchRightOfSpace(a: string, b: string, i: nat, j: nat)
    requires |a| < i
    ensures MatchAt(a + " " + b, i, j) <==> MatchAt(b, i - |a| - 1, j - |a| - 1)
  {
    var s := a + " " + b;
    var d := |a| + 1;
    assert forall k :: d <= k < |s| ==> s[k] == b[k - d];
    assert s[d - 1] == ' ';
    if i <= j <= |s| {
      assert s[i..j] == b[i - d..j - d];
    }
    if MatchAt(b, i - d, j - d) {
      forall k | i <= k < j ensures IsWordChar(s[k]) {
        assert s[k] == b[k - d];
      }
    }
    if MatchAt(s, i, j) {
      forall k | i - d <= k < j - d ensures IsWordChar(b[k]) {
        assert b[k] == s[k + d];
      }
    }
  }

  lemma FirstMatchInLeft(a: string, b: string, i: nat, j: nat)
    requires FirstMatch(a) == Some((i, j))
    ensures FirstMatch(a + " " + b) == Some((i, j))
  {
    var s := a + " " + b;
    var n := |a|;
    assert s[n] == ' ';
    FirstMatchIsLeftmost(a, i, j);
    MatchLeftOfSpace(a, b, i, j);
    forall i', j' | MatchAt(s, i', j') ensures i <= i' {
      MatchAvoidsSpace(s, n, i', j');
      if j' <= n {
        MatchLeftOfSpace(a, b, i', j');
      }
    }
    FirstMatchIsLeftmost(s, i, j);
  }

  lemma NoMatchInLeft(a: string, b: string, i': nat, j': nat)
    requires FirstMatch(a) == None && MatchAt(a + " " + b, i', j')
    ensures |a| < i'
  {
    var s := a + " " + b;
    assert s[|a|] == ' ';
    FirstMatchNone(a);
    MatchAvoidsSpace(s, |a|, i', j');
    if j' <= |a| {
      MatchLeftOfSpace(a, b, i', j');
    }
  }

  lemma FirstMatchInRight(a: string, b: string, i: nat, j: nat)
    requires FirstMatch(a) == None && FirstMatch(b) == Some((i, j))
    ensures FirstMatch(a + " " + b) == Some((i + |a| + 1, j + |a| + 1))
  {
    var s := a + " " + b;
    var d := |a| + 1;
    FirstMatchIsLeftmost(b, i, j);
    MatchRightOfSpace(a, b, i + d, j + d);
    forall i', j' | MatchAt(s, i', j') ensures i + d <= i' {
      NoMatchInLeft(a, b, i', j');
      MatchRightOfSpace(a, b, i', j');
    }
    FirstMatchIsLeftmost(s, i + d, j + d);
  }

  lemma NoMatchEither(a: string, b: string)
    requires FirstMatch(a) == None && FirstMatch(b) == None
    ensures FirstMatch(a + " " + b) == None
  {
    var s := a + " " + b;
    FirstMatchNone(b);
    forall i', j' | MatchAt(s, i', j') ensures false {
      NoMatchInLeft(a, b, i', j');
      MatchRightOfSpace(a, b, i', j');
    }
    FirstMatchNone(s);
  }

  /** No run of word characters spans a space, so the first `-ing` word of
      `a + " " + b` is the first one of `a`, or else the first one of `b`. */
  lemma FirstIngWordAcrossSpace(a: string, b: string)
    ensures FirstIngWord(a + " " + b) ==
      if FirstIngWord(a).Some? then FirstIngWord(a) else FirstIngWord(b)
  {
    var s := a + " " + b;
    match FirstMatch(a)
    case Some((i, j)) =>
      FirstMatchInLeft(a, b, i, j);
      assert s[i..j] == a[i..j];
    case None =>
      match FirstMatch(b)
      case Some((i, j)) =>
        FirstMatchInRight(a, b, i, j);
        assert s[i + |a| + 1..j + |a| + 1] == b[i..j];
      case None =>
        NoMatchEither(a, b);
  }
}
