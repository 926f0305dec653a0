/** The two string operations the browse page applies to search text:
    lower-casing and `includes`. Lower-casing maps only the ASCII letters
    A-Z; JavaScript's `toLowerCase` also lowers non-ASCII letters, which
    `Lower` leaves unchanged. */
module Text {

  function LowerChar(c: char): char {
    if 'A' <= c <= 'Z' then (c as int + 32) as char else c
  }

  /** ASCII `toLowerCase`: same length, every character lowered. */
  function Lower(s: string): (r: string)
    ensures |r| == |s|
    ensures forall i :: 0 <= i < |s| ==> r[i] == LowerChar(s[i])
  {
    if s == [] then [] else [LowerChar(s[0])] + Lower(s[1..])
  }

  /** Lower-casing an already lower-cased string changes nothing. */
  lemma LowerIdempotent(s: string)
    ensures Lower(Lower(s)) == Lower(s)
  {
    assert forall i :: 0 <= i < |s| ==> LowerChar(LowerChar(s[i])) == LowerChar(s[i]);
  }

  /** `t` occurs in `s` starting at position `i`. */
  ghost predicate OccursAt(t: string, s: string, i: int) {
    0 <= i <= |s| - |t| && s[i..i + |t|] == t
  }

  /** `t` occurs in `s` at some position. */
  ghost predicate IsInfix(t: string, s: string) {
    exists i :: OccursAt(t, s, i)
  }

  /** An occurrence in the tail is an occurrence in the whole, and an
      occurrence not at the front is one in the tail. */
  lemma {:induction false} InfixOfTail(t: string, s: string)
    requires |s| > 0
    ensures IsInfix(t, s) <==> (|t| <= |s| && s[..|t|] == t) || IsInfix(t, s[1..])
  {
    if IsInfix(t, s) && !(|t| <= |s| && s[..|t|] == t) {
      var i :| OccursAt(t, s, i);
      assert i != 0;
      assert s[1..][i - 1..i - 1 + |t|] == t;
      assert OccursAt(t, s[1..], i - 1);
    }
    if IsInfix(t, s[1..]) {
      var i :| OccursAt(t, s[1..], i);
      assert s[i + 1..i + 1 + |t|] == t;
      assert OccursAt(t, s, i + 1);
    }
    if |t| <= |s| && s[..|t|] == t {
      assert OccursAt(t, s, 0);
    }
  }

  /** JavaScript's `s.includes(t)`: true exactly when `t` occurs in `s`
      (the empty string occurs everywhere). */
  function Contains(s: string, t: string): (b: bool)
    ensures b <==> IsInfix(t, s)
  {
    if |t| > |s| then false
    else if s[..|t|] == t then
      assert OccursAt(t, s, 0);
      true
    else
      InfixOfTail(t, s);
      Contains(s[1..], t)
  }
}
