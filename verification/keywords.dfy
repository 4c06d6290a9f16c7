/**
 * The keyword rule of the verification agent: a tip counts as an
 * institutional-grade success when its lower-cased text contains one of a
 * fixed list of phrases. Nothing in the backend calls it; it is modelled
 * for what it decides.
 */
module IntelVerification {
  import opened JsText

  /** `SUCCESS_KEYWORDS`, in their order in the source. */
  const SuccessKeywords: seq<string> := [
    "partnership", "samsung", "major exchange", "institutional",
    "government adoption", "official announcement", "integration",
    "breaking news", "collaboration", "listing", "regulation", "license"]

  /** U+212A, whose lower-case form is the ASCII letter `k`. */
  const KelvinSign: char := '\U{212A}'

  /** `toLowerCase` on one character, for every character whose lower-case
      form can be part of a keyword: `A` to `Z`, and the Kelvin sign. */
  function LowerChar(c: char): (l: char)
    ensures 'A' <= c <= 'Z' ==> 'a' <= l <= 'z' && l as int - c as int == 'a' as int - 'A' as int
    ensures c == KelvinSign ==> l == 'k'
    ensures !('A' <= c <= 'Z') && c != KelvinSign ==> l == c
  {
    if 'A' <= c <= 'Z' then (c as int - 'A' as int + 'a' as int) as char
    else if c == KelvinSign then 'k'
    else c
  }

  /** `s.toLowerCase()`, one character at a time. */
  function ToLowerCase(s: string): (r: string)
    ensures |r| == |s|
    ensures forall k :: 0 <= k < |s| ==> r[k] == LowerChar(s[k])
  {
    if s == [] then [] else [LowerChar(s[0])] + ToLowerCase(s[1..])
  }

  /** `s.toUpperCase()` restricted to ASCII: `a` to `z` become `A` to `Z`. */
  function AsciiUpperCase(s: string): (r: string)
    ensures |r| == |s|
    ensures forall k :: 0 <= k < |s| ==>
      if 'a' <= s[k] <= 'z' then 'A' <= r[k] <= 'Z' && LowerChar(r[k]) == s[k] else r[k] == s[k]
  {
    if s == [] then []
    else
      var c := s[0];
      [if 'a' <= c <= 'z' then (c as int - 'a' as int + 'A' as int) as char else c] + AsciiUpperCase(s[1..])
  }

  /** `words.some(w => text.includes(w))`, tried in order. */
  function AnyIncluded(text: string, words: seq<string>): (b: bool)
    ensures b <==> exists k :: 0 <= k < |words| && Includes(text, words[k])
  {
    if words == [] then false
    else
      var rest := AnyIncluded(text, words[1..]);
      assert rest <==> exists k :: 1 <= k < |words| && Includes(text, words[k]) by {
        forall k | 1 <= k < |words| ensures words[1..][k - 1] == words[k] { }
      }
      Includes(text, words[0]) || rest
  }

  /** `shouldHardcodeSuccess(tip)`: true exactly when some keyword occurs
      in the lower-cased tip. */
  predicate ShouldHardcodeSuccess(tip: string): (b: bool)
    ensures b <==> exists k :: 0 <= k < |SuccessKeywords| && Includes(ToLowerCase(tip), SuccessKeywords[k])
  {
    AnyIncluded(ToLowerCase(tip), SuccessKeywords)
  }

  lemma {:induction false} LowerCaseIdempotent(s: string)
    ensures ToLowerCase(ToLowerCase(s)) == ToLowerCase(s)
  {
    var l := ToLowerCase(s);
    assert forall k :: 0 <= k < |l| ==> LowerChar(l[k]) == l[k];
  }

  lemma {:induction false} LowerOfUpper(s: string)
    ensures ToLowerCase(AsciiUpperCase(s)) == ToLowerCase(s)
  {
    var u := AsciiUpperCase(s);
    forall k | 0 <= k < |s| ensures LowerChar(u[k]) == LowerChar(s[k]) {
      if 'a' <= s[k] <= 'z' {
        assert LowerChar(u[k]) == s[k];
      }
    }
  }

  /** The rule ignores case: a tip, its lower-cased form and its ASCII
      upper-cased form all get the same answer. */
  lemma CaseInsensitive(tip: string)
    ensures ShouldHardcodeSuccess(ToLowerCase(tip)) == ShouldHardcodeSuccess(tip)
    ensures ShouldHardcodeSuccess(AsciiUpperCase(tip)) == ShouldHardcodeSuccess(tip)
  {
    LowerCaseIdempotent(tip);
    LowerOfUpper(tip);
  }

  /** The empty text includes no non-empty word. */
  lemma NoWordInEmpty(words: seq<string>)
    requires forall k :: 0 <= k < |words| ==> words[k] != []
    ensures !AnyIncluded("", words)
  {
  }

  /** No keyword is empty, so an empty tip is never a success. */
  lemma EmptyTipIsNoSuccess()
    ensures !ShouldHardcodeSuccess("")
  {
    assert ToLowerCase("") == "";
    NoWordInEmpty(SuccessKeywords);
  }

  /** A word found in the lower-cased form of `t` is found in the
      lower-cased form of any text containing `t`. */
  lemma {:induction false} IncludesThrough(t: string, u: string, w: string)
    requires Includes(u, t) && Includes(ToLowerCase(t), w)
    ensures Includes(ToLowerCase(u), w)
  {
    var p: nat :| p <= |u| && OccursAt(u, t, p);
    var q: nat :| q <= |t| && OccursAt(ToLowerCase(t), w, q);
    OccursThrough(t, u, w, p, q);
  }

  /** The position form of the above: `w` at `q` in the lower-cased `t`,
      and `t` at `p` in `u`, put `w` at `p + q` in the lower-cased `u`. */
  lemma OccursThrough(t: string, u: string, w: string, p: nat, q: nat)
    requires OccursAt(u, t, p) && OccursAt(ToLowerCase(t), w, q)
    ensures OccursAt(ToLowerCase(u), w, p + q)
  {
    var lu, lt := ToLowerCase(u), ToLowerCase(t);
    forall i | 0 <= i < |w| ensures lu[p + q + i] == w[i] {
      assert u[p + q + i] == u[p..p + |t|][q + i];
      assert w[i] == lt[q..q + |w|][i];
    }
    assert lu[p + q..p + q + |w|] == w;
  }

  /** Once a text contains a keyword, so does every text around it. */
  lemma Monotone(t: string, u: string)
    requires Includes(u, t)
    requires ShouldHardcodeSuccess(t)
    ensures ShouldHardcodeSuccess(u)
  {
    var k :| 0 <= k < |SuccessKeywords| && Includes(ToLowerCase(t), SuccessKeywords[k]);
    IncludesThrough(t, u, SuccessKeywords[k]);
  }
}
