/**
 * The Python `str` builtins the keyword scorer relies on: `str.isspace`
 * (through `str.split()`), `str.lower()`, the `in` operator on strings and
 * `str.count`.
 */
module PyText {

  /** Python's `str.isspace`: the characters `str.split()` splits on. */
  predicate IsSpace(c: char)
  {
    || c == ' ' || c == '\t' || c == '\n' || c == '\r'
    || c == '\U{0B}' || c == '\U{0C}'
    || ('\U{1C}' <= c <= '\U{1F}')
    || c == '\U{85}' || c == '\U{A0}' || c == '\U{1680}'
    || ('\U{2000}' <= c <= '\U{200A}')
    || c == '\U{2028}' || c == '\U{2029}' || c == '\U{202F}'
    || c == '\U{205F}' || c == '\U{3000}'
  }

  /**
   * `str.lower()` on one character, for the ASCII letters and for the one
   * other character that lower-cases to a single ASCII letter: U+212A
   * KELVIN SIGN, which becomes `k`.
   */
  function LowerChar(c: char): char
  {
    if 'A' <= c <= 'Z' then (c as int + 32) as char
    else if c == '\U{212A}' then 'k'
    else c
  }

  function Lower(s: string): (r: string)
    ensures |r| == |s|
  {
    seq(|s|, i requires 0 <= i < |s| => LowerChar(s[i]))
  }

  /** Lower-casing never turns a whitespace character into anything else. */
  lemma LowerKeepsSpace(c: char)
    requires !IsSpace(LowerChar(c))
    ensures !IsSpace(c)
  {
  }

  /** No lower-case ASCII letter is whitespace. */
  lemma LettersAreNotSpace()
    ensures forall c :: 'a' <= c <= 'z' ==> !IsSpace(c)
  {
  }

  /** Drops the leading run of non-whitespace characters (the rest of a word). */
  function DropWord(s: string): (r: string)
    ensures |r| <= |s|
    ensures r == s[|s| - |r|..]
    ensures r == [] || IsSpace(r[0])
  {
    if s == [] || IsSpace(s[0]) then s else DropWord(s[1..])
  }

  /** `len(s.split())`: the number of maximal runs of non-whitespace characters. */
  function WordCount(s: string): nat
    decreases |s|
  {
    if s == [] then 0
    else if IsSpace(s[0]) then WordCount(s[1..])
    else 1 + WordCount(DropWord(s[1..]))
  }

  predicate HasNonSpace(s: string)
  {
    exists i :: 0 <= i < |s| && !IsSpace(s[i])
  }

  /** `s.split()` is empty exactly when `s` is empty or all whitespace. */
  lemma {:induction false} WordCountPositive(s: string)
    ensures WordCount(s) > 0 <==> HasNonSpace(s)
    decreases |s|
  {
    if s == [] {
    } else if IsSpace(s[0]) {
      WordCountPositive(s[1..]);
      if HasNonSpace(s) {
        var i :| 0 <= i < |s| && !IsSpace(s[i]);
        assert s[1..][i - 1] == s[i];
      }
      if HasNonSpace(s[1..]) {
        var i :| 0 <= i < |s[1..]| && !IsSpace(s[1..][i]);
        assert s[i + 1] == s[1..][i];
      }
    } else {
      assert !IsSpace(s[0]);
    }
  }

  /** `k` occurs in `s` starting at index `i`. */
  predicate OccursAt(s: string, k: string, i: int)
  {
    0 <= i && i + |k| <= |s| && s[i..i + |k|] == k
  }

  /** `k in s`: `k` occurs in `s` as a contiguous substring. */
  predicate Contains(s: string, k: string)
  {
    exists i :: 0 <= i <= |s| && OccursAt(s, k, i)
  }

  /** `s.count(k)`: non-overlapping occurrences of a non-empty `k`, scanning left to right. */
  function Count(s: string, k: string): nat
    requires k != []
    decreases |s|
  {
    if |s| < |k| then 0
    else if s[..|k|] == k then 1 + Count(s[|k|..], k)
    else Count(s[1..], k)
  }

  /** `s.count(k)` is positive exactly when `k in s`. */
  lemma {:induction false} CountPositiveIffContains(s: string, k: string)
    requires k != []
    ensures Count(s, k) > 0 <==> Contains(s, k)
    decreases |s|
  {
    if |s| < |k| {
    } else if s[..|k|] == k {
      assert OccursAt(s, k, 0);
    } else {
      CountPositiveIffContains(s[1..], k);
      if Contains(s, k) {
        var i :| 0 <= i <= |s| && OccursAt(s, k, i);
        assert i != 0;
        assert s[1..][i - 1..i - 1 + |k|] == s[i..i + |k|];
        assert OccursAt(s[1..], k, i - 1);
      }
      if Contains(s[1..], k) {
        var i :| 0 <= i <= |s[1..]| && OccursAt(s[1..], k, i);
        assert s[i + 1..i + 1 + |k|] == s[1..][i..i + |k|];
        assert OccursAt(s, k, i + 1);
      }
    }
  }

  /** A text containing a word that starts with a non-whitespace character has a non-whitespace character. */
  lemma ContainsNonSpace(s: string, k: string)
    requires k != [] && !IsSpace(k[0])
    requires Contains(s, k)
    ensures HasNonSpace(s)
  {
    var i :| 0 <= i <= |s| && OccursAt(s, k, i);
    assert s[i] == s[i..i + |k|][0] == k[0];
  }

  /** A text without words lower-cases to a text without words. */
  lemma LowerOfBlank(s: string)
    requires WordCount(s) == 0
    ensures !HasNonSpace(Lower(s))
  {
    WordCountPositive(s);
    if HasNonSpace(Lower(s)) {
      var i :| 0 <= i < |Lower(s)| && !IsSpace(Lower(s)[i]);
      LowerKeepsSpace(s[i]);
    }
  }
}
