/** Text helpers behind `str.lower()` on field names and pandas'
    case-insensitive `str.contains`: ASCII lower-casing and substring search. */
module Text {

  predicate IsUpper(c: char) {
    'A' <= c <= 'Z'
  }

  /** Lower-cases one ASCII capital letter; every other character is kept. */
  function LowerChar(c: char): (d: char)
    ensures !IsUpper(d)
    ensures IsUpper(c) ==> d as int == c as int + 32
    ensures !IsUpper(c) ==> d == c
  {
    if IsUpper(c) then (c as int + 32) as char else c
  }

  /** `s.lower()`: no capital letter is left and nothing else changes. */
  function Lower(s: string): (r: string)
    ensures |r| == |s|
    ensures forall i :: 0 <= i < |r| ==> !IsUpper(r[i])
    ensures forall i :: 0 <= i < |s| && !IsUpper(s[i]) ==> r[i] == s[i]
    ensures forall i :: 0 <= i < |s| && IsUpper(s[i]) ==> r[i] as int == s[i] as int + 32
  {
    seq(|s|, i requires 0 <= i < |s| => LowerChar(s[i]))
  }

  /** Lower-casing twice is lower-casing once. */
  lemma LowerIdempotent(s: string)
    ensures Lower(Lower(s)) == Lower(s)
  {
  }

  /** A text with no capital letter is its own lower-case form. */
  lemma LowerOfLowerCase(s: string)
    requires forall i :: 0 <= i < |s| ==> !IsUpper(s[i])
    ensures Lower(s) == s
  {
  }

  /** `w` occurs in `s` starting at index `i`. */
  predicate OccursAt(s: string, w: string, i: int) {
    0 <= i && i + |w| <= |s| && s[i..i + |w|] == w
  }

  /** Substring search, scanning start positions from the left. */
  function Contains(s: string, w: string): bool
    decreases |s|
  {
    |w| <= |s| && (s[..|w|] == w || Contains(s[1..], w))
  }

  /** The scan finds `w` exactly when `w` occurs at some position of `s`. */
  lemma {:induction false} ContainsIffOccurs(s: string, w: string)
    ensures Contains(s, w) <==> exists i :: OccursAt(s, w, i)
    decreases |s|
  {
    if |w| <= |s| {
      if s[..|w|] == w {
        assert OccursAt(s, w, 0);
      } else {
        ContainsIffOccurs(s[1..], w);
      }
      if s[..|w|] != w && Contains(s[1..], w) {
        var i :| OccursAt(s[1..], w, i);
        assert s[i + 1..i + 1 + |w|] == s[1..][i..i + |w|];
        assert OccursAt(s, w, i + 1);
      }
      if exists i :: OccursAt(s, w, i) {
        var i :| OccursAt(s, w, i);
        if i > 0 && s[..|w|] != w {
          assert s[1..][i - 1..i - 1 + |w|] == s[i..i + |w|];
          assert OccursAt(s[1..], w, i - 1);
        }
      }
    }
  }

  /** `str.contains(w, case=False)` on one text: the lower-cased word occurs
      in the lower-cased text. */
  function ContainsIgnoringCase(s: string, w: string): bool {
    Contains(Lower(s), Lower(w))
  }

  /** `str.contains("w0|w1|...", case=False)` for a regular expression that is
      an alternation of plain words: some word occurs, ignoring case. */
  function ContainsAnyIgnoringCase(s: string, words: seq<string>): bool {
    exists k :: 0 <= k < |words| && ContainsIgnoringCase(s, words[k])
  }

  /** Matching ignores the case of the text: two texts equal up to case
      contain the same words. */
  lemma {:induction false} ContainsAnyIgnoresCase(s: string, t: string, words: seq<string>)
    requires |s| == |t|
    requires forall i :: 0 <= i < |s| ==> LowerChar(s[i]) == LowerChar(t[i])
    ensures ContainsAnyIgnoringCase(s, words) == ContainsAnyIgnoringCase(t, words)
  {
    assert Lower(s) == Lower(t);
  }

  /** A word holding a character that the text lacks does not occur in it. */
  lemma NotContainsWithoutChar(s: string, w: string, j: nat)
    requires j < |w| && w[j] !in s
    ensures !Contains(s, w)
  {
    ContainsIffOccurs(s, w);
  }

  /** A text in which one of the words occurs, in any case, matches the
      alternation. */
  lemma ContainsAnyWhenOccurs(s: string, words: seq<string>, k: nat, i: nat)
    requires k < |words|
    requires OccursAt(Lower(s), Lower(words[k]), i)
    ensures ContainsAnyIgnoringCase(s, words)
  {
    ContainsIffOccurs(Lower(s), Lower(words[k]));
  }
}
