/** Searching in text. */
module Text {

  /** std::find: the first `c`, or the length. */
  function Find(s: string, c: char): (i: nat)
    ensures i <= |s| && c !in s[..i] && (i < |s| ==> s[i] == c)
  {
    if s == "" || s[0] == c then 0
    else
      var i := Find(s[1..], c);
      assert s[..i + 1] == [s[0]] + s[1..][..i];
      i + 1
  }

  /** The first `c` comes after a text without it. */
  lemma {:induction false} FindAfter(s: string, c: char, rest: string)
    requires c !in s
    ensures Find(s + [c] + rest, c) == |s| && Find(s, c) == |s|
  {
    if s == "" {
      assert s + [c] + rest == [c] + rest;
    } else {
      assert (s + [c] + rest)[1..] == s[1..] + [c] + rest;
      FindAfter(s[1..], c, rest);
    }
  }
}
