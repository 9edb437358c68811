/** Character-level lower-casing and substring search: the two string
    operations the chat responder relies on (`toLowerCase` and `includes`). */
module Strings {

  /** True for the ASCII capitals 'A'..'Z', the only characters this model folds. */
  predicate IsUpper(c: char) {
    'A' <= c <= 'Z'
  }

  /** A string is folded when it holds no ASCII capital. */
  predicate IsFolded(s: string) {
    forall i :: 0 <= i < |s| ==> !IsUpper(s[i])
  }

  /** Lower-cases one character: a capital becomes the small letter 32 code
      points above it, every other character is left alone. */
  function LowerChar(c: char): (r: char)
    ensures !IsUpper(r)
    ensures IsUpper(c) ==> 'a' <= r <= 'z' && r as int - c as int == 'a' as int - 'A' as int
    ensures !IsUpper(c) ==> r == c
  {
    if IsUpper(c) then (c as int + ('a' as int - 'A' as int)) as char else c
  }

  /** Lower-cases a whole string, character by character (the model of `toLowerCase`). */
  function Lower(s: string): (r: string)
    ensures |r| == |s|
    ensures forall i :: 0 <= i < |s| ==> r[i] == LowerChar(s[i])
    ensures IsFolded(r)
  {
    seq(|s|, i requires 0 <= i < |s| => LowerChar(s[i]))
  }

  /** Folding leaves an already folded string unchanged. */
  lemma FoldedIsFixed(s: string)
    requires IsFolded(s)
    ensures Lower(s) == s
  {
    assert forall i :: 0 <= i < |s| ==> Lower(s)[i] == s[i];
  }

  /** Folding twice is folding once. */
  lemma LowerIdempotent(s: string)
    ensures Lower(Lower(s)) == Lower(s)
  {
    FoldedIsFixed(Lower(s));
  }

  /** Folding distributes over concatenation. */
  lemma LowerAppend(a: string, b: string)
    ensures Lower(a + b) == Lower(a) + Lower(b)
  {
    assert forall i :: 0 <= i < |a + b| ==> Lower(a + b)[i] == (Lower(a) + Lower(b))[i];
  }

  /** Reference meaning of "t occurs in s": some position i at which t is a prefix of s[i..]. */
  ghost predicate Contains(s: string, t: string) {
    exists i :: 0 <= i <= |s| - |t| && t <= s[i..]
  }

  /** The left-to-right scan that `includes` performs: try the current
      position, otherwise move one character on; the empty needle is found
      at once. */
  function Includes(s: string, t: string): (r: bool)
    ensures t == [] ==> r
    ensures r ==> |t| <= |s|
    decreases |s|
  {
    if t <= s then true
    else if s == [] then false
    else Includes(s[1..], t)
  }

  /** The scan finds t exactly when t occurs somewhere in s. */
  lemma {:induction false} IncludesIsContains(s: string, t: string)
    ensures Includes(s, t) <==> Contains(s, t)
    decreases |s|
  {
    if t <= s {
      assert s[0..] == s;
    } else if s == [] {
    } else {
      IncludesIsContains(s[1..], t);
      if Contains(s[1..], t) {
        var i :| 0 <= i <= |s[1..]| - |t| && t <= s[1..][i..];
        assert s[1..][i..] == s[i + 1..];
      }
      if Contains(s, t) {
        var i :| 0 <= i <= |s| - |t| && t <= s[i..];
        assert s[0..] == s;
        assert i != 0;
        assert s[1..][i - 1..] == s[i..];
      }
    }
  }

  /** A string occurs in any string that has it as an infix. */
  lemma InfixContains(a: string, t: string, b: string)
    ensures Contains(a + t + b, t)
  {
    assert (a + t + b)[|a|..] == t + b;
  }

  /** A needle holding a character the haystack lacks cannot occur in it. */
  lemma AbsentCharBlocks(s: string, t: string, j: nat)
    requires j < |t| && t[j] !in s
    ensures !Contains(s, t)
  {
    forall i | 0 <= i <= |s| - |t| ensures !(t <= s[i..]) {
      assert s[i + j] in s;
      assert s[i..][j] != t[j];
    }
  }

  /** A needle whose first character does not occur early enough in the
      haystack for the rest of the needle to fit after it cannot occur in it. */
  lemma LateFirstCharBlocks(s: string, t: string)
    requires 0 < |t| <= |s| && t[0] !in s[..|s| - |t| + 1]
    ensures !Contains(s, t)
  {
    forall i | 0 <= i <= |s| - |t| ensures !(t <= s[i..]) {
      assert s[..|s| - |t| + 1][i] == s[i];
    }
  }
}
