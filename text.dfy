/**
 * The two string operations the name search uses: `toLowerCase` (modelled on
 * ASCII letters only) and `String.prototype.includes` (substring test).
 */
module Text {

  /** A letter A-Z becomes a-z; every other character is left alone. */
  function LowerChar(c: char): (d: char)
    ensures 'A' <= c <= 'Z' ==> 'a' <= d <= 'z' && d as int - c as int == 32
    ensures !('A' <= c <= 'Z') ==> d == c
  {
    if 'A' <= c <= 'Z' then (c as int + 32) as char else c
  }

  /** `s.toLowerCase()`: lower-cases `s` character by character. */
  function ToLower(s: string): (r: string)
    ensures |r| == |s|
    ensures forall i :: 0 <= i < |s| ==> r[i] == LowerChar(s[i])
  {
    if s == [] then [] else [LowerChar(s[0])] + ToLower(s[1..])
  }

  /** Lower-casing twice is lower-casing once. */
  lemma {:induction false} ToLowerIdempotent(s: string)
    ensures ToLower(ToLower(s)) == ToLower(s)
  {
    forall i | 0 <= i < |s|
      ensures ToLower(ToLower(s))[i] == ToLower(s)[i]
    {
      assert LowerChar(LowerChar(s[i])) == LowerChar(s[i]);
    }
  }

  /**
   * `s.includes(t)`: whether `t` occurs in `s` as a contiguous piece. A
   * string includes its every prefix, the empty string in particular, and
   * nothing longer than itself.
   */
  function Includes(s: string, t: string): (r: bool)
    ensures t <= s ==> r
    ensures |t| == 0 ==> r
    ensures r ==> |t| <= |s|
  {
    if t <= s then true
    else if s == [] then false
    else Includes(s[1..], t)
  }

  /** `t` occurs in `s` starting at position `i`. */
  predicate OccursAt(s: string, t: string, i: int)
  {
    0 <= i && i + |t| <= |s| && s[i..i + |t|] == t
  }

  /** Includes agrees with the definition of a substring by position. */
  lemma {:induction false} IncludesIffOccurs(s: string, t: string)
    ensures Includes(s, t) <==> exists i :: OccursAt(s, t, i)
  {
    if t <= s {
      assert OccursAt(s, t, 0);
    } else if s == [] {
    } else {
      IncludesIffOccurs(s[1..], t);
      if exists i :: OccursAt(s, t, i) {
        var i :| OccursAt(s, t, i);
        assert i != 0;
        assert OccursAt(s[1..], t, i - 1);
      }
      if Includes(s[1..], t) {
        var j :| OccursAt(s[1..], t, j);
        assert s[1..][j..j + |t|] == s[j + 1..j + 1 + |t|];
        assert OccursAt(s, t, j + 1);
      }
    }
  }
}
