/**
 * How the tip handler reads its fields out of the agent pipeline's free-form
 * reply: six regular expressions of the shape `"key":\s*(capture)`. For
 * `verified` and `confidence` the global form is used and the last match
 * wins; for the other four the first match wins; absent fields fall back to
 * defaults.
 *
 * A match is modelled position by position. Because every key is followed
 * by a greedy `\s*` and a capture that cannot begin with whitespace, a match
 * at a position is unique: the key, then the longest whitespace run, then
 * the capture.
 */
module Extraction {
  import opened Wrappers
  import opened JsText

  /** The capture groups the handler uses. */
  datatype Capture =
    | TrueOrFalse   // (true|false)
    | Digits        // (\d+)
    | DigitsOrDots  // ([\d.]+)
    | Quoted        // "([^"]+)"

  predicate NameChar(c: char)
  {
    'a' <= c <= 'z' || c == '_'
  }

  /** The literal text `"name":` a pattern starts with, for a name of
      lower-case letters and underscores. */
  predicate IsKey(key: string)
  {
    && |key| >= 4 && key[0] == '"' && key[|key| - 2] == '"' && key[|key| - 1] == ':'
    && forall k :: 1 <= k < |key| - 2 ==> NameChar(key[k])
  }

  const VerifiedKey: string := "\"verified\":"
  const ConfidenceKey: string := "\"confidence\":"
  const StrategyKey: string := "\"strategy\":"
  const RiskKey: string := "\"risk_level\":"
  const CommissionKey: string := "\"commission_pct\":"
  const QualityKey: string := "\"tip_quality_score\":"

  const DefaultStrategy: string := "NO_ACTION"
  const DefaultRisk: string := "UNKNOWN"

  predicate IsDigitOrDot(c: char)
  {
    IsDigit(c) || c == '.'
  }

  predicate IsNotDigit(c: char)
  {
    !IsDigit(c)
  }

  predicate IsNotQuote(c: char)
  {
    c != '"'
  }

  /** A match: capture group 1 and the length of the whole matched text. */
  datatype Match = Match(group: string, len: nat)

  /** The capture `cap` anchored at the start of `t`. */
  function CaptureHere(t: string, cap: Capture): (m: Option<Match>)
    ensures m.Some? ==> 0 < m.value.len <= |t| && m.value.group != []
  {
    match cap
    case TrueOrFalse =>
      if |t| >= 4 && t[..4] == "true" then Some(Match("true", 4))
      else if |t| >= 5 && t[..5] == "false" then Some(Match("false", 5))
      else None
    case Digits =>
      var n := Span(t, IsDigit);
      if n == 0 then None else Some(Match(t[..n], n))
    case DigitsOrDots =>
      var n := Span(t, IsDigitOrDot);
      if n == 0 then None else Some(Match(t[..n], n))
    case Quoted =>
      if |t| == 0 || t[0] != '"' then None
      else
        var n := Span(t[1..], IsNotQuote);
        if n == 0 || n == |t| - 1 then None
        else Some(Match(t[1..1 + n], n + 2))
  }

  /** What a capture holds and how much text it covers; none begins with
      whitespace. */
  lemma CaptureShape(t: string, cap: Capture)
    requires CaptureHere(t, cap).Some?
    ensures var m := CaptureHere(t, cap).value;
      && !IsSpace(t[0])
      && (cap != Quoted ==> m.len == |m.group| && t[..m.len] == m.group)
      && (cap == Quoted ==> m.len == |m.group| + 2 && t[0] == '"' && t[1..m.len - 1] == m.group)
      && (cap == TrueOrFalse ==> m.group == "true" || m.group == "false")
      && (cap == Digits ==> AllDigits(m.group))
      && (cap == DigitsOrDots ==> forall k :: 0 <= k < |m.group| ==> IsDigitOrDot(m.group[k]))
      && (cap == Quoted ==> forall k :: 0 <= k < |m.group| ==> m.group[k] != '"')
  {
    match cap
    case TrueOrFalse => TrueOrFalseShape(t);
    case Digits => DigitsShape(t);
    case DigitsOrDots => DigitsOrDotsShape(t);
    case Quoted => QuotedShape(t);
  }

  lemma TrueOrFalseShape(t: string)
    requires CaptureHere(t, TrueOrFalse).Some?
    ensures var m := CaptureHere(t, TrueOrFalse).value;
      && (m.group == "true" || m.group == "false")
      && m.len == |m.group| && t[..m.len] == m.group && !IsSpace(t[0])
  {
    var m := CaptureHere(t, TrueOrFalse).value;
    assert t[0] == t[..m.len][0];
  }

  lemma DigitsShape(t: string)
    requires CaptureHere(t, Digits).Some?
    ensures var m := CaptureHere(t, Digits).value;
      && AllDigits(m.group) && m.len == |m.group| && t[..m.len] == m.group && !IsSpace(t[0])
  {
    var n := Span(t, IsDigit);
    assert forall k :: 0 <= k < n ==> t[..n][k] == t[k];
  }

  lemma DigitsOrDotsShape(t: string)
    requires CaptureHere(t, DigitsOrDots).Some?
    ensures var m := CaptureHere(t, DigitsOrDots).value;
      && (forall k :: 0 <= k < |m.group| ==> IsDigitOrDot(m.group[k]))
      && m.len == |m.group| && t[..m.len] == m.group && !IsSpace(t[0])
  {
    var n := Span(t, IsDigitOrDot);
    assert forall k :: 0 <= k < n ==> t[..n][k] == t[k];
  }

  lemma QuotedShape(t: string)
    requires CaptureHere(t, Quoted).Some?
    ensures var m := CaptureHere(t, Quoted).value;
      && (forall k :: 0 <= k < |m.group| ==> m.group[k] != '"')
      && m.len == |m.group| + 2 && t[0] == '"' && t[1..m.len - 1] == m.group && !IsSpace(t[0])
  {
    var n := Span(t[1..], IsNotQuote);
    forall k | 0 <= k < n ensures t[1..1 + n][k] == t[1..][k] && t[1..1 + n][k] != '"' {
      assert IsNotQuote(t[1..][k]);
    }
  }

  /** A match found `n` characters further into the text. */
  function Shift(m: Option<Match>, n: nat): Option<Match>
  {
    match m
    case None => None
    case Some(x) => Some(Match(x.group, x.len + n))
  }

  /** `\s*(cap)` anchored at the start of `t`. The capture never begins with
      whitespace, so the greedy `\s*` gives back nothing on backtracking. */
  function AfterKey(t: string, cap: Capture): (m: Option<Match>)
    ensures m.Some? ==> m.value.group != [] && 0 < m.value.len <= |t|
  {
    if t != [] && IsSpace(t[0]) then Shift(AfterKey(t[1..], cap), 1) else CaptureHere(t, cap)
  }

  /** One leading whitespace character adds one to the run `\s*` takes. */
  lemma SpaceSpanStep(t: string)
    requires t != [] && IsSpace(t[0])
    ensures Span(t, IsSpace) == 1 + Span(t[1..], IsSpace)
    ensures t[Span(t, IsSpace)..] == t[1..][Span(t[1..], IsSpace)..]
  {
  }

  /** `\s*(cap)` is the longest whitespace run followed by the capture. */
  lemma {:induction false} AfterKeyShape(t: string, cap: Capture)
    ensures AfterKey(t, cap) == Shift(CaptureHere(t[Span(t, IsSpace)..], cap), Span(t, IsSpace))
  {
    if t != [] && IsSpace(t[0]) {
      AfterKeyShape(t[1..], cap);
      SpaceSpanStep(t);
      ShiftAdd(CaptureHere(t[Span(t, IsSpace)..], cap), Span(t[1..], IsSpace), 1);
    } else {
      assert t[0..] == t;
      ShiftAdd(CaptureHere(t, cap), 0, 0);
    }
  }

  /** The pattern `key\s*(cap)` anchored at the start of `t`: the key
      character by character, then `\s*(cap)`. */
  function MatchHere(t: string, key: string, cap: Capture): (m: Option<Match>)
    decreases key
    ensures m.Some? ==> |key| < m.value.len <= |t| && m.value.group != []
  {
    if key == [] then AfterKey(t, cap)
    else if t == [] || t[0] != key[0] then None
    else Shift(MatchHere(t[1..], key[1..], cap), 1)
  }

  lemma ShiftAdd(m: Option<Match>, a: nat, b: nat)
    ensures Shift(Shift(m, a), b) == Shift(m, a + b)
    ensures Shift(m, 0) == m
  {
  }

  /** Matching a key one character further on. */
  lemma KeyStep(t: string, key: string)
    requires 0 < |key| <= |t| && t[0] == key[0]
    ensures (t[1..][..|key| - 1] == key[1..]) == (t[..|key|] == key)
    ensures t[1..][|key| - 1..] == t[|key|..]
  {
    assert t[..|key|] == [t[0]] + t[1..][..|key| - 1];
    assert key == [key[0]] + key[1..];
  }

  /** A match is the whole key followed by `\s*(cap)`. */
  lemma {:induction false} MatchHereKey(t: string, key: string, cap: Capture)
    decreases key
    ensures MatchHere(t, key, cap) ==
      if |key| <= |t| && t[..|key|] == key then Shift(AfterKey(t[|key|..], cap), |key|) else None
  {
    if key == [] {
      assert t[..0] == key && t[0..] == t;
      ShiftAdd(AfterKey(t, cap), 0, 0);
    } else if t == [] || t[0] != key[0] {
      KeyMismatch(t, key);
    } else {
      MatchHereKey(t[1..], key[1..], cap);
      assert MatchHere(t, key, cap) == Shift(MatchHere(t[1..], key[1..], cap), 1);
      if |key| <= |t| {
        KeyStep(t, key);
        ShiftAdd(AfterKey(t[|key|..], cap), |key| - 1, 1);
      } else {
        assert MatchHere(t[1..], key[1..], cap) == None;
      }
    }
  }

  /** A text that differs from the key at its first character does not
      start with the key. */
  lemma KeyMismatch(t: string, key: string)
    requires key != [] && (t == [] || t[0] != key[0])
    ensures !(|key| <= |t| && t[..|key|] == key)
  {
    if |key| <= |t| {
      assert t[..|key|][0] == t[0];
    }
  }

  /** The shape of a match: the key, the longest whitespace run, then the
      capture. */
  lemma MatchShape(t: string, key: string, cap: Capture) returns (start: nat, c: Match)
    requires MatchHere(t, key, cap).Some?
    ensures |key| <= start <= |t| && t[..|key|] == key
    ensures CaptureHere(t[start..], cap) == Some(c)
    ensures MatchHere(t, key, cap) == Some(Match(c.group, start + c.len))
    ensures forall k :: |key| <= k < start ==> IsSpace(t[k])
  {
    var n;
    n, c := KeyThenCapture(t, key, cap);
    start := |key| + n;
    DropDrop(t, |key|, n);
    SameCapture(t[|key|..][n..], t[start..], cap);
    SpacesAt(t, |key|, n);
  }

  /** A match is the key, `n` whitespace characters after it, then the
      capture `c`. */
  lemma KeyThenCapture(t: string, key: string, cap: Capture) returns (n: nat, c: Match)
    requires MatchHere(t, key, cap).Some?
    ensures |key| + n <= |t| && t[..|key|] == key
    ensures CaptureHere(t[|key|..][n..], cap) == Some(c)
    ensures MatchHere(t, key, cap) == Some(Match(c.group, |key| + n + c.len))
    ensures forall k :: 0 <= k < n ==> IsSpace(t[|key|..][k])
  {
    KeyPrefix(t, key, cap);
    var u := t[|key|..];
    n, c := AfterKeyParts(u, cap);
    ShiftSome(MatchHere(t, key, cap), AfterKey(u, cap), |key|, n, c);
  }

  lemma SameCapture(u: string, v: string, cap: Capture)
    requires u == v
    ensures CaptureHere(u, cap) == CaptureHere(v, cap)
  {
  }

  /** A match of the rest, shifted past the key. */
  lemma ShiftSome(whole: Option<Match>, rest: Option<Match>, a: nat, n: nat, c: Match)
    requires whole == Shift(rest, a) && rest == Some(Match(c.group, n + c.len))
    ensures whole == Some(Match(c.group, a + n + c.len))
  {
  }

  lemma DropDrop(t: string, a: nat, b: nat)
    requires a + b <= |t|
    ensures t[a..][b..] == t[a + b..]
  {
  }

  /** A match starts with the whole key. */
  lemma KeyPrefix(t: string, key: string, cap: Capture)
    requires MatchHere(t, key, cap).Some?
    ensures |key| <= |t| && t[..|key|] == key
    ensures MatchHere(t, key, cap) == Shift(AfterKey(t[|key|..], cap), |key|)
  {
    MatchHereKey(t, key, cap);
  }

  /** The parts of a `\s*(cap)` match: `n` whitespace characters, then the
      capture `c`. */
  lemma AfterKeyParts(u: string, cap: Capture) returns (n: nat, c: Match)
    requires AfterKey(u, cap).Some?
    ensures n <= |u| && CaptureHere(u[n..], cap) == Some(c)
    ensures AfterKey(u, cap) == Some(Match(c.group, n + c.len))
    ensures forall k :: 0 <= k < n ==> IsSpace(u[k])
  {
    AfterKeyShape(u, cap);
    n := Span(u, IsSpace);
    c := CaptureHere(u[n..], cap).value;
  }

  /** A whitespace run at the start of `t[i..]`, read in `t` itself. */
  lemma SpacesAt(t: string, i: nat, n: nat)
    requires i + n <= |t|
    requires forall k :: 0 <= k < n ==> IsSpace(t[i..][k])
    ensures forall k :: i <= k < i + n ==> IsSpace(t[k])
  {
    forall k | i <= k < i + n ensures IsSpace(t[k]) {
      assert t[k] == t[i..][k - i];
    }
  }

  /** The parts of a `true|false`, digit or digit-and-dot match anchored
      at the start of `t`: the key, whitespace up to `start`, then the
      group `g`, which ends the match. */
  lemma MatchParts(t: string, key: string, cap: Capture) returns (start: nat, g: string)
    requires cap != Quoted && MatchHere(t, key, cap).Some?
    ensures MatchHere(t, key, cap) == Some(Match(g, start + |g|))
    ensures |key| <= start && start + |g| <= |t| && g != []
    ensures forall k :: 0 <= k < |key| ==> t[k] == key[k]
    ensures forall k :: |key| <= k < start ==> IsSpace(t[k])
    ensures forall k :: 0 <= k < |g| ==> t[start + k] == g[k]
    ensures cap == TrueOrFalse ==> g == "true" || g == "false"
    ensures cap == Digits ==> AllDigits(g)
  {
    var c;
    start, c := MatchShape(t, key, cap);
    CaptureShape(t[start..], cap);
    g := c.group;
    assert t[0..] == t;
    SliceChars(t, 0, key);
    SliceChars(t, start, g);
  }

  /** `w` occurs in `t` at `i`, character by character. */
  lemma SliceChars(t: string, i: nat, w: string)
    requires i <= |t| && |w| <= |t| - i && t[i..][..|w|] == w
    ensures forall k :: 0 <= k < |w| ==> t[i + k] == w[k]
  {
    forall k | 0 <= k < |w| ensures t[i + k] == w[k] {
      assert t[i..][..|w|][k] == t[i + k];
    }
  }

  /** No match starts where the text differs from the key. */
  lemma NoMatchAtMismatch(t: string, key: string, cap: Capture, k: nat)
    requires k < |key| && (k >= |t| || t[k] != key[k])
    ensures MatchHere(t, key, cap).None?
  {
    MatchHereKey(t, key, cap);
    if |key| <= |t| {
      assert t[..|key|][k] == t[k];
    }
  }

  /** What each capture group can hold, for a match anchored at the start
      of `t`. */
  lemma GroupHere(t: string, key: string, cap: Capture)
    requires MatchHere(t, key, cap).Some?
    ensures var g := MatchHere(t, key, cap).value.group;
      && (cap == TrueOrFalse ==> g == "true" || g == "false")
      && (cap == Digits ==> AllDigits(g))
      && (cap == DigitsOrDots ==> forall k :: 0 <= k < |g| ==> IsDigitOrDot(g[k]))
      && (cap == Quoted ==> forall k :: 0 <= k < |g| ==> g[k] != '"')
  {
    var start, c := MatchShape(t, key, cap);
    CaptureShape(t[start..], cap);
  }

  /** A `true|false`, digit or digit-and-dot group holds no quote. */
  lemma NoQuoteInGroup(t: string, key: string, cap: Capture, k: nat)
    requires cap != Quoted && MatchHere(t, key, cap).Some?
    requires k < |MatchHere(t, key, cap).value.group|
    ensures MatchHere(t, key, cap).value.group[k] != '"'
  {
    GroupHere(t, key, cap);
  }

  predicate MatchesAt(s: string, key: string, cap: Capture, i: nat)
    requires i <= |s|
  {
    MatchHere(s[i..], key, cap).Some?
  }

  function MatchAt(s: string, key: string, cap: Capture, i: nat): (m: Match)
    requires i <= |s| && MatchesAt(s, key, cap, i)
    ensures i + |key| < i + m.len <= |s| && m.group != []
  {
    MatchHere(s[i..], key, cap).value
  }

  /** What each capture group can hold. */
  lemma MatchGroup(s: string, key: string, cap: Capture, i: nat)
    requires i <= |s| && MatchesAt(s, key, cap, i)
    ensures var g := MatchAt(s, key, cap, i).group;
      && (cap == TrueOrFalse ==> g == "true" || g == "false")
      && (cap == Digits ==> AllDigits(g))
      && (cap == DigitsOrDots ==> forall k :: 0 <= k < |g| ==> IsDigitOrDot(g[k]))
      && (cap == Quoted ==> forall k :: 0 <= k < |g| ==> g[k] != '"')
  {
    GroupHere(s[i..], key, cap);
  }

  /** The text a match at `i` covers, as a non-`g` or `g` `match` returns it. */
  function MatchedText(s: string, key: string, cap: Capture, i: nat): (text: string)
    requires i <= |s| && MatchesAt(s, key, cap, i)
  {
    var t := s[i..];
    t[..MatchHere(t, key, cap).value.len]
  }

  /** The leftmost match at or after `p`: what a regular expression without
      the `g` flag finds, starting from `p == 0`. */
  function FirstFrom(s: string, key: string, cap: Capture, p: nat): (r: Option<nat>)
    decreases |s| + 1 - p
    ensures r.Some? ==> p <= r.value <= |s| && MatchesAt(s, key, cap, r.value)
    ensures r.Some? ==> forall j :: p <= j < r.value ==> !MatchesAt(s, key, cap, j)
    ensures r.None? ==> forall j :: p <= j <= |s| ==> !MatchesAt(s, key, cap, j)
  {
    if p > |s| then None
    else if MatchesAt(s, key, cap, p) then Some(p)
    else FirstFrom(s, key, cap, p + 1)
  }

  /** The positions a global `match` collects from `p` on: each search
      resumes where the previous match ended. */
  function GlobalMatches(s: string, key: string, cap: Capture, p: nat): (r: seq<nat>)
    decreases |s| + 1 - p
    ensures forall k :: 0 <= k < |r| ==> p <= r[k] <= |s| && MatchesAt(s, key, cap, r[k])
  {
    match FirstFrom(s, key, cap, p)
    case None => []
    case Some(i) => [i] + GlobalMatches(s, key, cap, i + MatchAt(s, key, cap, i).len)
  }

  /** Inside a key, only the closing quote is a quote, and a colon follows it. */
  lemma KeyQuotes(key: string, d: nat)
    requires IsKey(key) && 0 < d < |key| && key[d] == '"'
    ensures d == |key| - 2 && key[d + 1] == ':' && key[1] != ':'
  {
  }

  /** No match of a `true|false`, digit or digit-and-dot pattern starts
      strictly inside another: the only quote inside a match is the key's
      closing one, and it is followed by `:` rather than a name character. */
  lemma NoMatchInside(s: string, key: string, cap: Capture, i: nat, j: nat)
    requires IsKey(key) && cap != Quoted
    requires i <= |s| && MatchesAt(s, key, cap, i)
    requires i < j < i + MatchAt(s, key, cap, i).len
    ensures !MatchesAt(s, key, cap, j)
  {
    var t := s[i..];
    var start, g := MatchParts(t, key, cap);
    var d := j - i;
    var u := s[j..];
    assert u[0] == t[d];
    if d < |key| && key[d] == '"' {
      KeyQuotes(key, d);
      assert u[1] == t[d + 1];
      NoMatchAtMismatch(u, key, cap, 1);
    } else {
      if d >= start {
        NoQuoteInGroup(t, key, cap, d - start);
      }
      NoMatchAtMismatch(u, key, cap, 0);
    }
  }

  /** A global `match` collects nothing exactly when nothing matches. */
  lemma GlobalNone(s: string, key: string, cap: Capture, p: nat)
    ensures GlobalMatches(s, key, cap, p) == [] <==> forall j :: p <= j <= |s| ==> !MatchesAt(s, key, cap, j)
  {
  }

  /** No other match starts inside the text of a match. */
  lemma NoMatchWithin(s: string, key: string, cap: Capture, i: nat)
    requires IsKey(key) && cap != Quoted
    requires i <= |s| && MatchesAt(s, key, cap, i)
    ensures forall j :: i < j < i + MatchAt(s, key, cap, i).len ==> !MatchesAt(s, key, cap, j)
  {
    forall j | i < j < i + MatchAt(s, key, cap, i).len {
      NoMatchInside(s, key, cap, i, j);
    }
  }

  /** The last position a global `match` collects is the rightmost match. */
  lemma {:induction false} GlobalLastIsRightmost(s: string, key: string, cap: Capture, p: nat)
    requires IsKey(key) && cap != Quoted
    requires GlobalMatches(s, key, cap, p) != []
    decreases |s| + 1 - p
    ensures var g := GlobalMatches(s, key, cap, p);
      forall j :: g[|g| - 1] < j <= |s| ==> !MatchesAt(s, key, cap, j)
  {
    var i := FirstFrom(s, key, cap, p).value;
    var next := i + MatchAt(s, key, cap, i).len;
    var rest := GlobalMatches(s, key, cap, next);
    assert GlobalMatches(s, key, cap, p) == [i] + rest;
    if rest == [] {
      GlobalNone(s, key, cap, next);
      NoMatchWithin(s, key, cap, i);
    } else {
      GlobalLastIsRightmost(s, key, cap, next);
    }
  }

  /** A match depends only on the text from its position on. */
  lemma MatchIgnoresPrefix(p: string, s: string, key: string, cap: Capture, k: nat)
    requires |p| <= k <= |p + s|
    ensures MatchesAt(p + s, key, cap, k) == MatchesAt(s, key, cap, k - |p|)
  {
    assert (p + s)[k..] == s[k - |p|..];
  }

  /** The text of `p + s` from `|p| + j` on is the text of `s` from `j` on,
      so a match there is the same match with the same text. */
  lemma SuffixIgnoresPrefix(p: string, s: string, j: nat)
    requires j <= |s|
    ensures (p + s)[|p| + j..] == s[j..]
  {
  }

  /** The text of the last match a global `match` collects, if any. */
  function LastText(s: string, key: string, cap: Capture): (r: Option<string>)
    ensures r.None? <==> forall j :: 0 <= j <= |s| ==> !MatchesAt(s, key, cap, j)
  {
    GlobalNone(s, key, cap, 0);
    var g := GlobalMatches(s, key, cap, 0);
    if g == [] then None else Some(MatchedText(s, key, cap, g[|g| - 1]))
  }

  /** The flag of the rightmost `key\s*(true|false)`: whether the text of
      the last match a global `match` collects includes `true`; false when
      there is none. */
  function LastFlag(s: string, key: string): (b: bool)
    ensures b ==> exists j :: 0 <= j <= |s| && MatchesAt(s, key, TrueOrFalse, j)
  {
    match LastText(s, key, TrueOrFalse)
    case None => false
    case Some(text) => Includes(text, "true")
  }

  /** `verifiedMatches[verifiedMatches.length - 1].includes('true')`, or
      false when there is no match. */
  function Verified(s: string): (b: bool)
    ensures b ==> exists j :: 0 <= j <= |s| && MatchesAt(s, VerifiedKey, TrueOrFalse, j)
  {
    LastFlag(s, VerifiedKey)
  }

  /** The first digit run of `text`: `text.match(/(\d+)/)`. */
  function FirstDigitRun(text: string): (r: Option<string>)
    ensures r.Some? ==> r.value != [] && AllDigits(r.value)
    ensures r.None? <==> forall k :: 0 <= k < |text| ==> !IsDigit(text[k])
  {
    var i := Span(text, IsNotDigit);
    if i == |text| then None
    else
      var rest := text[i..];
      Some(rest[..Span(rest, IsDigit)])
  }

  /** The number in the text of the rightmost `key\s*(\d+)`: `parseInt` of
      the first digit run of the last match; 0 when there is none. */
  function LastNumber(s: string, key: string): (n: nat)
    ensures n > 0 ==> exists j :: 0 <= j <= |s| && MatchesAt(s, key, Digits, j)
  {
    match LastText(s, key, Digits)
    case None => 0
    case Some(text) =>
      match FirstDigitRun(text)
      case None => 0
      case Some(d) =>
        assert ParseInt(d) == Some(DecimalValue(d));
        ParseInt(d).value
  }

  /** The number in the last `"confidence"` match, or 0 when there is none. */
  function Confidence(s: string): (n: nat)
    ensures n > 0 ==> exists j :: 0 <= j <= |s| && MatchesAt(s, ConfidenceKey, Digits, j)
  {
    LastNumber(s, ConfidenceKey)
  }

  /** `"verified":` is a key without a `t`. */
  lemma VerifiedKeyFacts()
    ensures IsKey(VerifiedKey)
    ensures forall k :: 0 <= k < |VerifiedKey| ==> VerifiedKey[k] != 't'
  {
  }

  /** `"confidence":` is a key without a digit. */
  lemma ConfidenceKeyFacts()
    ensures IsKey(ConfidenceKey)
    ensures forall k :: 0 <= k < |ConfidenceKey| ==> !IsDigit(ConfidenceKey[k])
  {
  }

  /** The text of a `true|false` match anchored at the start of `t`, for a
      key without a `t`, contains `true` exactly when its group is `true`. */
  lemma FlagText(t: string, key: string)
    requires MatchHere(t, key, TrueOrFalse).Some?
    requires forall k :: 0 <= k < |key| ==> key[k] != 't'
    ensures var m := MatchHere(t, key, TrueOrFalse).value;
      Includes(t[..m.len], "true") <==> m.group == "true"
  {
    var start, g := MatchParts(t, key, TrueOrFalse);
    FlagInParts(t, key, start, g);
  }

  /** The text of a key, whitespace and a `true|false` group contains
      `true` exactly when the group is `true`. */
  lemma FlagInParts(t: string, key: string, start: nat, g: string)
    requires |key| <= start && start + |g| <= |t| && (g == "true" || g == "false")
    requires forall k :: 0 <= k < |key| ==> key[k] != 't'
    requires forall k :: 0 <= k < |key| ==> t[k] == key[k]
    requires forall k :: |key| <= k < start ==> IsSpace(t[k])
    requires forall k :: 0 <= k < |g| ==> t[start + k] == g[k]
    ensures Includes(t[..start + |g|], "true") <==> g == "true"
  {
    var text := t[..start + |g|];
    if g == "true" {
      assert OccursAt(text, "true", start) by {
        forall k | 0 <= k < 4 ensures text[start..start + 4][k] == "true"[k] {
          assert text[start + k] == t[start + k];
        }
      }
    } else {
      assert g == "false";
      forall k: nat | k <= |text| ensures !OccursAt(text, "true", k) {
        if k + 4 <= |text| {
          assert t[k] != 't' by {
            if k < |key| {
              assert t[k] == key[k];
            } else if k < start {
              assert IsSpace(t[k]);
            } else {
              assert t[start + (k - start)] == g[k - start];
            }
          }
          assert text[k..k + 4][0] == t[k] != "true"[0];
        }
      }
    }
  }

  /** The same for a match at `i` of a reply. */
  lemma FlagTextAt(s: string, i: nat, key: string)
    requires i <= |s| && MatchesAt(s, key, TrueOrFalse, i)
    requires forall k :: 0 <= k < |key| ==> key[k] != 't'
    ensures Includes(MatchedText(s, key, TrueOrFalse, i), "true")
        <==> MatchAt(s, key, TrueOrFalse, i).group == "true"
  {
    var t := s[i..];
    FlagText(t, key);
  }

  /** A match with no match after it is the last one a global `match`
      collects. */
  lemma GlobalLastIs(s: string, key: string, cap: Capture, i: nat)
    requires IsKey(key) && cap != Quoted
    requires i <= |s| && MatchesAt(s, key, cap, i)
    requires forall j :: i < j <= |s| ==> !MatchesAt(s, key, cap, j)
    ensures LastText(s, key, cap) == Some(MatchedText(s, key, cap, i))
  {
    GlobalNone(s, key, cap, 0);
    GlobalLastIsRightmost(s, key, cap, 0);
    var g := GlobalMatches(s, key, cap, 0);
    assert g[|g| - 1] == i;
  }

  /** The flag is read from the rightmost match. */
  lemma LastFlagReadsLast(s: string, key: string, i: nat)
    requires IsKey(key) && forall k :: 0 <= k < |key| ==> key[k] != 't'
    requires i <= |s| && MatchesAt(s, key, TrueOrFalse, i)
    requires forall j :: i < j <= |s| ==> !MatchesAt(s, key, TrueOrFalse, j)
    ensures LastFlag(s, key) <==> MatchAt(s, key, TrueOrFalse, i).group == "true"
  {
    GlobalLastIs(s, key, TrueOrFalse, i);
    FlagTextAt(s, i, key);
  }

  /** `verified` is the flag of the rightmost `"verified": true|false`. */
  lemma VerifiedReadsLastFlag(s: string, i: nat)
    requires i <= |s| && MatchesAt(s, VerifiedKey, TrueOrFalse, i)
    requires forall j :: i < j <= |s| ==> !MatchesAt(s, VerifiedKey, TrueOrFalse, j)
    ensures Verified(s) <==> MatchAt(s, VerifiedKey, TrueOrFalse, i).group == "true"
  {
    VerifiedKeyFacts();
    LastFlagReadsLast(s, VerifiedKey, i);
  }

  /** Without any `"verified": true|false`, `verified` is false. */
  lemma VerifiedFalseWithoutFlag(s: string)
    requires forall j :: 0 <= j <= |s| ==> !MatchesAt(s, VerifiedKey, TrueOrFalse, j)
    ensures !Verified(s)
  {
    VerifiedKeyFacts();
    GlobalNone(s, VerifiedKey, TrueOrFalse, 0);
  }

  /** The first digit run in the text of a digit match anchored at the
      start of `t`, for a key without digits, is its group. */
  lemma NumberText(t: string, key: string)
    requires MatchHere(t, key, Digits).Some?
    requires forall k :: 0 <= k < |key| ==> !IsDigit(key[k])
    ensures var m := MatchHere(t, key, Digits).value;
      FirstDigitRun(t[..m.len]) == Some(m.group)
  {
    var start, g := MatchParts(t, key, Digits);
    DigitRunInParts(t, key, start, g);
    RunOfMatch(MatchHere(t, key, Digits), t, start, g);
  }

  /** The digit run of a match's text, read through the match itself. */
  lemma RunOfMatch(m: Option<Match>, t: string, start: nat, g: string)
    requires m == Some(Match(g, start + |g|)) && start + |g| <= |t|
    requires FirstDigitRun(t[..start + |g|]) == Some(g)
    ensures m.Some? && m.value.len <= |t| && FirstDigitRun(t[..m.value.len]) == Some(m.value.group)
  {
  }

  /** The first digit run in the text of a digit-free key, whitespace and
      a digit group is the group. */
  lemma DigitRunInParts(t: string, key: string, start: nat, g: string)
    requires |key| <= start && start + |g| <= |t| && g != [] && AllDigits(g)
    requires forall k :: 0 <= k < |key| ==> !IsDigit(key[k])
    requires forall k :: 0 <= k < |key| ==> t[k] == key[k]
    requires forall k :: |key| <= k < start ==> IsSpace(t[k])
    requires forall k :: 0 <= k < |g| ==> t[start + k] == g[k]
    ensures FirstDigitRun(t[..start + |g|]) == Some(g)
  {
    var text := t[..start + |g|];
    forall k | 0 <= k < start ensures !IsDigit(text[k]) {
      assert text[k] == t[k];
      if k < |key| {
        assert t[k] == key[k];
      } else {
        assert IsSpace(t[k]);
      }
    }
    assert text[start] == t[start + 0] == g[0];
    NonDigitSpan(text, start);
    var rest := text[start..];
    assert rest == g by {
      forall k | 0 <= k < |rest| ensures rest[k] == g[k] {
        assert rest[k] == t[start + k];
      }
    }
    assert rest[..|rest|] == rest;
  }

  /** The same for a match at `i` of a reply. */
  lemma NumberTextAt(s: string, i: nat, key: string)
    requires i <= |s| && MatchesAt(s, key, Digits, i)
    requires forall k :: 0 <= k < |key| ==> !IsDigit(key[k])
    ensures FirstDigitRun(MatchedText(s, key, Digits, i)) == Some(MatchAt(s, key, Digits, i).group)
  {
    var t := s[i..];
    NumberText(t, key);
  }

  /** When the first digit of `text` is at `n`, the non-digit prefix spans `n`. */
  lemma {:induction false} NonDigitSpan(text: string, n: nat)
    requires n < |text| && IsDigit(text[n])
    requires forall k :: 0 <= k < n ==> !IsDigit(text[k])
    ensures Span(text, IsNotDigit) == n
  {
    if n > 0 {
      NonDigitSpan(text[1..], n - 1);
    }
  }

  /** The number is read from the rightmost match. */
  lemma LastNumberReadsLast(s: string, key: string, i: nat)
    requires IsKey(key) && forall k :: 0 <= k < |key| ==> !IsDigit(key[k])
    requires i <= |s| && MatchesAt(s, key, Digits, i)
    requires forall j :: i < j <= |s| ==> !MatchesAt(s, key, Digits, j)
    ensures var g := MatchAt(s, key, Digits, i).group;
      AllDigits(g) && LastNumber(s, key) == DecimalValue(g)
  {
    MatchGroup(s, key, Digits, i);
    GlobalLastIs(s, key, Digits, i);
    NumberTextAt(s, i, key);
  }

  /** `confidence` is the number in the rightmost `"confidence": <digits>`. */
  lemma ConfidenceReadsLastNumber(s: string, i: nat)
    requires i <= |s| && MatchesAt(s, ConfidenceKey, Digits, i)
    requires forall j :: i < j <= |s| ==> !MatchesAt(s, ConfidenceKey, Digits, j)
    ensures var g := MatchAt(s, ConfidenceKey, Digits, i).group;
      AllDigits(g) && Confidence(s) == DecimalValue(g)
  {
    ConfidenceKeyFacts();
    LastNumberReadsLast(s, ConfidenceKey, i);
  }

  /** Without any `"confidence": <digits>`, `confidence` is 0. */
  lemma ConfidenceZeroWithoutNumber(s: string)
    requires forall j :: 0 <= j <= |s| ==> !MatchesAt(s, ConfidenceKey, Digits, j)
    ensures Confidence(s) == 0
  {
    ConfidenceKeyFacts();
    GlobalNone(s, ConfidenceKey, Digits, 0);
  }

  /** Text in front of a reply moves its rightmost match along. */
  lemma RightmostIgnoresPrefix(p: string, s: string, key: string, cap: Capture, l: nat)
    requires l <= |s| && MatchesAt(s, key, cap, l)
    requires forall j :: l < j <= |s| ==> !MatchesAt(s, key, cap, j)
    ensures forall j :: |p| + l < j <= |p + s| ==> !MatchesAt(p + s, key, cap, j)
  {
    forall j | |p| + l < j <= |p + s| ensures !MatchesAt(p + s, key, cap, j) {
      MatchIgnoresPrefix(p, s, key, cap, j);
    }
  }

  /** The rightmost match of a reply that has one. */
  lemma Rightmost(s: string, key: string, cap: Capture, i: nat) returns (l: nat)
    requires IsKey(key) && cap != Quoted
    requires i <= |s| && MatchesAt(s, key, cap, i)
    ensures l <= |s| && MatchesAt(s, key, cap, l)
    ensures forall j :: l < j <= |s| ==> !MatchesAt(s, key, cap, j)
  {
    GlobalNone(s, key, cap, 0);
    GlobalLastIsRightmost(s, key, cap, 0);
    var g := GlobalMatches(s, key, cap, 0);
    l := g[|g| - 1];
  }

  /** Text in front of a reply that already has a match leaves the text
      of its last match as it was. */
  lemma LastTextIgnoresPrefix(p: string, s: string, key: string, cap: Capture, i: nat)
    requires IsKey(key) && cap != Quoted
    requires i <= |s| && MatchesAt(s, key, cap, i)
    ensures LastText(p + s, key, cap) == LastText(s, key, cap)
  {
    var l := Rightmost(s, key, cap, i);
    GlobalLastIs(s, key, cap, l);
    SuffixIgnoresPrefix(p, s, l);
    RightmostIgnoresPrefix(p, s, key, cap, l);
    GlobalLastIs(p + s, key, cap, |p| + l);
  }

  /** The last occurrence wins: text in front of a reply that already
      carries a `verified` flag does not change `verified`. */
  lemma VerifiedLastOccurrenceWins(p: string, s: string, i: nat)
    requires i <= |s| && MatchesAt(s, VerifiedKey, TrueOrFalse, i)
    ensures Verified(p + s) == Verified(s)
  {
    VerifiedKeyFacts();
    LastTextIgnoresPrefix(p, s, VerifiedKey, TrueOrFalse, i);
  }

  /** The last occurrence wins: text in front of a reply that already
      carries a `confidence` number does not change `confidence`. */
  lemma ConfidenceLastOccurrenceWins(p: string, s: string, i: nat)
    requires i <= |s| && MatchesAt(s, ConfidenceKey, Digits, i)
    ensures Confidence(p + s) == Confidence(s)
  {
    ConfidenceKeyFacts();
    LastTextIgnoresPrefix(p, s, ConfidenceKey, Digits, i);
  }

  /** Group 1 of the first match of `key\s*(cap)`, if any. */
  function FirstGroup(s: string, key: string, cap: Capture): (r: Option<string>)
    ensures r.None? <==> forall j :: 0 <= j <= |s| ==> !MatchesAt(s, key, cap, j)
    ensures r.Some? ==>
      (exists i :: 0 <= i <= |s| && MatchesAt(s, key, cap, i) &&
         r.value == MatchAt(s, key, cap, i).group &&
         forall j :: 0 <= j < i ==> !MatchesAt(s, key, cap, j))
    ensures r.Some? ==> r.value != []
    ensures r.Some? && cap == Digits ==> AllDigits(r.value)
    ensures r.Some? && cap == DigitsOrDots ==> forall k :: 0 <= k < |r.value| ==> IsDigitOrDot(r.value[k])
    ensures r.Some? && cap == Quoted ==> forall k :: 0 <= k < |r.value| ==> r.value[k] != '"'
  {
    match FirstFrom(s, key, cap, 0)
    case None => None
    case Some(i) =>
      MatchGroup(s, key, cap, i);
      Some(MatchAt(s, key, cap, i).group)
  }

  /** `strategyMatch ? strategyMatch[1] : "NO_ACTION"`. */
  function Strategy(s: string): (r: string)
    ensures r != []
    ensures FirstGroup(s, StrategyKey, Quoted).None? ==> r == DefaultStrategy
    ensures FirstGroup(s, StrategyKey, Quoted).Some? ==> r == FirstGroup(s, StrategyKey, Quoted).value
    ensures FirstGroup(s, StrategyKey, Quoted).Some? ==> forall k :: 0 <= k < |r| ==> r[k] != '"'
  {
    match FirstGroup(s, StrategyKey, Quoted)
    case None => DefaultStrategy
    case Some(g) => g
  }

  /** `riskMatch ? riskMatch[1] : "UNKNOWN"`. */
  function RiskLevel(s: string): (r: string)
    ensures r != []
    ensures FirstGroup(s, RiskKey, Quoted).None? ==> r == DefaultRisk
    ensures FirstGroup(s, RiskKey, Quoted).Some? ==> r == FirstGroup(s, RiskKey, Quoted).value
    ensures FirstGroup(s, RiskKey, Quoted).Some? ==> forall k :: 0 <= k < |r| ==> r[k] != '"'
  {
    match FirstGroup(s, RiskKey, Quoted)
    case None => DefaultRisk
    case Some(g) => g
  }

  /** A JavaScript number as `parseFloat` can return it here. */
  datatype Number = Finite(value: real) | NaN

  lemma ProperFraction(a: real, b: real)
    requires 0.0 <= a < b
    ensures 0.0 <= a / b < 1.0
  {
    assert a / b * b == a;
  }

  /** The value of the digits after a decimal point. */
  function FractionValue(f: string): (v: real)
    requires AllDigits(f)
    ensures 0.0 <= v < 1.0
    ensures f == [] ==> v == 0.0
  {
    ProperFraction(DecimalValue(f) as real, Pow(10, |f|) as real);
    DecimalValue(f) as real / Pow(10, |f|) as real
  }

  /** `parseFloat` of a run of digits and dots: the longest prefix of the
      form `digits [. digits]` with at least one digit; NaN when there is
      none (the run starts with a dot that no digit follows). */
  function ParseFloatDigitsDots(g: string): (r: Number)
    requires forall k :: 0 <= k < |g| ==> IsDigitOrDot(g[k])
    ensures r == NaN <==> g == [] || (!IsDigit(g[0]) && (|g| == 1 || !IsDigit(g[1])))
    ensures r.Finite? ==> r.value >= 0.0
    ensures AllDigits(g) && g != [] ==> r == Finite(DecimalValue(g) as real)
  {
    var n := Span(g, IsDigit);
    var rest := g[n..];
    var fraction := if rest != [] && rest[0] == '.' then rest[1..][..Span(rest[1..], IsDigit)] else [];
    assert AllDigits(g) ==> n == |g| && g[..n] == g;
    if n == 0 && fraction == [] then
      assert |g| > 1 ==> !IsDigit(g[1]) by {
        if |g| > 1 {
          assert rest == g && !IsDigit(g[0]) && IsDigitOrDot(g[0]);
          assert |rest[1..][..Span(rest[1..], IsDigit)]| == 0;
          assert rest[1..][0] == g[1];
        }
      }
      NaN
    else
      assert n == 0 ==> |g| > 1 && IsDigit(g[1]) by {
        if n == 0 {
          assert rest[1..][0] == g[1];
        }
      }
      Finite(DecimalValue(g[..n]) as real + FractionValue(fraction))
  }

  /** A greedy run that stops at position `n` has length `n`. */
  lemma SpanIs(s: string, p: char -> bool, n: nat)
    requires n <= |s| && (forall k :: 0 <= k < n ==> p(s[k]))
    requires n == |s| || !p(s[n])
    ensures Span(s, p) == n
  {
  }

  /** `parseFloat` of `a.b` followed by nothing or by another dot reads
      the integer part `a` and the fraction `b`: "2.5" is 2.5, "1." is 1,
      ".5" is 0.5 and "3.5.7" is 3.5. */
  lemma ParseFloatDecimal(a: string, b: string, t: string)
    requires AllDigits(a) && AllDigits(b) && a + b != []
    requires forall k :: 0 <= k < |t| ==> IsDigitOrDot(t[k])
    requires t == [] || t[0] == '.'
    ensures var g := a + "." + b + t;
      && (forall k :: 0 <= k < |g| ==> IsDigitOrDot(g[k]))
      && ParseFloatDigitsDots(g) == Finite(DecimalValue(a) as real + FractionValue(b))
  {
    var g := a + "." + b + t;
    assert forall k :: 0 <= k < |g| ==> IsDigitOrDot(g[k]) by {
      forall k | 0 <= k < |g| ensures IsDigitOrDot(g[k]) {
        if k < |a| {
          assert g[k] == a[k];
        } else if k == |a| {
          assert g[k] == '.';
        } else if k <= |a| + |b| {
          assert g[k] == b[k - |a| - 1];
        } else {
          assert g[k] == t[k - |a| - |b| - 1];
        }
      }
    }
    assert g[|a|] == '.';
    SpanIs(g, IsDigit, |a|);
    var rest := g[|a|..];
    assert rest[1..] == b + t;
    SpanIs(b + t, IsDigit, |b|);
    assert (b + t)[..|b|] == b;
    assert g[..|a|] == a;
  }

  /** `commissionMatch ? parseFloat(commissionMatch[1]) : 0` as written. */
  function CommissionAsWritten(s: string): (r: Number)
    ensures FirstGroup(s, CommissionKey, DigitsOrDots).None? ==> r == Finite(0.0)
    ensures FirstGroup(s, CommissionKey, DigitsOrDots).Some? ==>
      r == ParseFloatDigitsDots(FirstGroup(s, CommissionKey, DigitsOrDots).value)
    ensures r.Finite? ==> r.value >= 0.0
  {
    match FirstGroup(s, CommissionKey, DigitsOrDots)
    case None => Finite(0.0)
    case Some(g) => ParseFloatDigitsDots(g)
  }

  /** `"commission_pct": .` matches with the dot as its group. */
  lemma LoneDotMatches()
    ensures MatchHere("\"commission_pct\": .}", CommissionKey, DigitsOrDots) == Some(Match(".", 19))
  {
    var t := "\"commission_pct\": .}";
    assert AfterKey(" .}", DigitsOrDots) == Some(Match(".", 2)) by {
      assert Span(".}", IsDigitOrDot) == 1 by {
        assert ".}"[1..] == "}";
      }
      assert ".}"[..1] == ".";
      assert CaptureHere(".}", DigitsOrDots) == Some(Match(".", 1));
      assert " .}"[1..] == ".}";
    }
    assert t[..|CommissionKey|] == CommissionKey && t[|CommissionKey|..] == " .}";
    MatchHereKey(t, CommissionKey, DigitsOrDots);
  }

  /** A reply whose commission field is a lone dot stores NaN. */
  lemma CommissionCanBeNaN()
    ensures CommissionAsWritten("{\"commission_pct\": .}") == NaN
  {
    var s := "{\"commission_pct\": .}";
    assert s[1..] == "\"commission_pct\": .}";
    LoneDotMatches();
    assert FirstFrom(s, CommissionKey, DigitsOrDots, 0) == Some(1) by {
      NoMatchAtMismatch(s, CommissionKey, DigitsOrDots, 0);
    }
  }

  /** The commission percentage as a number: a run that `parseFloat` cannot
      read counts as no commission, like a missing field. */
  function Commission(s: string): (r: real)
    ensures r >= 0.0
    ensures CommissionAsWritten(s).Finite? ==> r == CommissionAsWritten(s).value
    ensures CommissionAsWritten(s) == NaN ==> r == 0.0
  {
    match CommissionAsWritten(s)
    case Finite(v) => v
    case NaN => 0.0
  }

  /** `qualityMatch ? parseInt(qualityMatch[1]) : (verified ? confidence : 0)`. */
  function Quality(s: string, verified: bool, confidence: nat): (q: nat)
    ensures FirstGroup(s, QualityKey, Digits).None? ==> q == (if verified then confidence else 0)
    ensures FirstGroup(s, QualityKey, Digits).Some? ==> q == DecimalValue(FirstGroup(s, QualityKey, Digits).value)
  {
    match FirstGroup(s, QualityKey, Digits)
    case None => if verified then confidence else 0
    case Some(g) => ParseInt(g).value
  }

  /** The fields the handler reads from one reply. */
  datatype Evaluation = Evaluation(
    verified: bool,
    confidence: nat,
    strategy: string,
    riskLevel: string,
    commissionPct: real,
    quality: nat)

  function Extract(reply: string): (e: Evaluation)
    ensures e.commissionPct >= 0.0
    ensures e.strategy != [] && e.riskLevel != []
    ensures !e.verified && FirstGroup(reply, QualityKey, Digits).None? ==> e.quality == 0
  {
    var verified := Verified(reply);
    var confidence := Confidence(reply);
    Evaluation(verified, confidence, Strategy(reply), RiskLevel(reply), Commission(reply),
               Quality(reply, verified, confidence))
  }

  /** No position of a reply without a double quote holds a match of a key. */
  lemma NoMatchInPlainText(s: string, key: string, cap: Capture)
    requires key != [] && key[0] == '"'
    requires forall k :: 0 <= k < |s| ==> s[k] != '"'
    ensures forall j :: 0 <= j <= |s| ==> !MatchesAt(s, key, cap, j)
  {
    forall j | 0 <= j <= |s| ensures !MatchesAt(s, key, cap, j) {
      NoMatchAtMismatch(s[j..], key, cap, 0);
    }
  }

  /** Every key begins with a double quote, so a reply without one (plain
      prose) yields all the defaults. */
  lemma DefaultsWithoutQuotes(reply: string)
    requires forall k :: 0 <= k < |reply| ==> reply[k] != '"'
    ensures Extract(reply) == Evaluation(false, 0, DefaultStrategy, DefaultRisk, 0.0, 0)
  {
    NoMatchInPlainText(reply, VerifiedKey, TrueOrFalse);
    NoMatchInPlainText(reply, ConfidenceKey, Digits);
    NoMatchInPlainText(reply, StrategyKey, Quoted);
    NoMatchInPlainText(reply, RiskKey, Quoted);
    NoMatchInPlainText(reply, CommissionKey, DigitsOrDots);
    NoMatchInPlainText(reply, QualityKey, Digits);
    VerifiedFalseWithoutFlag(reply);
    ConfidenceZeroWithoutNumber(reply);
  }
}
