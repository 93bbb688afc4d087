/**
 * The two string operations the product search uses: lower-casing
 * (String.prototype.toLowerCase, restricted to ASCII letters) and substring
 * containment (String.prototype.includes).
 */
module Text {

  /** Lower-case one character; only the ASCII letters A-Z change. */
  function LowerChar(c: char): (d: char)
    ensures 'A' <= c <= 'Z' ==> 'a' <= d <= 'z' && d as int - c as int == 32
    ensures !('A' <= c <= 'Z') ==> d == c
  {
    if 'A' <= c <= 'Z' then (c as int + 32) as char else c
  }

  function Lower(s: string): (r: string)
    ensures |r| == |s|
    ensures forall i :: 0 <= i < |s| ==> r[i] == LowerChar(s[i])
  {
    if s == [] then [] else [LowerChar(s[0])] + Lower(s[1..])
  }

  /** Lower-casing an already lower-cased string changes nothing. */
  lemma LowerIdempotent(s: string)
    ensures Lower(Lower(s)) == Lower(s)
  {
  }

  /** `t` occurs in `s` at position `i`. */
  ghost predicate OccursAt(t: string, s: string, i: int) {
    0 <= i && i + |t| <= |s| && s[i..i + |t|] == t
  }

  /** `t` occurs somewhere in `s`. */
  ghost predicate Occurs(t: string, s: string) {
    exists i :: OccursAt(t, s, i)
  }

  /** Substring search: does `t` occur somewhere in `s`? The empty string occurs everywhere. */
  function Includes(s: string, t: string): (b: bool)
    ensures t == [] ==> b
    ensures |t| > |s| ==> !b
    decreases |s|
  {
    if |t| > |s| then false
    else if s[..|t|] == t then true
    else s != [] && Includes(s[1..], t)
  }

  /** Includes agrees with the definition "some position of `s` starts a copy of `t`". */
  lemma {:induction false} IncludesMeansOccurs(s: string, t: string)
    ensures Includes(s, t) <==> Occurs(t, s)
    decreases |s|
  {
    if |t| > |s| {
      assert forall i :: !OccursAt(t, s, i);
    } else if s[..|t|] == t {
      assert OccursAt(t, s, 0);
    } else {
      IncludesMeansOccurs(s[1..], t);
      forall i | OccursAt(t, s, i) ensures OccursAt(t, s[1..], i - 1) {
        assert i != 0;
        var inTail, inWhole := s[1..][i - 1..i - 1 + |t|], s[i..i + |t|];
        assert forall k :: 0 <= k < |t| ==> inTail[k] == inWhole[k];
        assert inTail == inWhole;
      }
      forall i | OccursAt(t, s[1..], i) ensures OccursAt(t, s, i + 1) {
        var inTail, inWhole := s[1..][i..i + |t|], s[i + 1..i + 1 + |t|];
        assert forall k :: 0 <= k < |t| ==> inTail[k] == inWhole[k];
        assert inTail == inWhole;
      }
    }
  }
}
