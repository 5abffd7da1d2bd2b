/** The two byte searches on which line splitting and rotation rest. */
module ByteSearch {

  /** The index of the first c in s, or |s|. */
  function FirstIndex(s: string, c: char): (k: nat)
    ensures k <= |s| && c !in s[..k]
    ensures k < |s| ==> s[k] == c
  {
    if s == "" then 0
    else if s[0] == c then 0
    else
      var k := 1 + FirstIndex(s[1..], c);
      assert s[..k] == [s[0]] + s[1..][..k - 1];
      k
  }

  lemma {:induction false} FirstIndexUnique(s: string, c: char, k: nat)
    requires k <= |s| && c !in s[..k] && (k < |s| ==> s[k] == c)
    ensures FirstIndex(s, c) == k
  {
    if k > 0 {
      assert s[0] == s[..k][0];
      assert s[1..][..k - 1] == s[..k][1..];
      FirstIndexUnique(s[1..], c, k - 1);
    }
  }

  method ByteRchr(s: string, c: char) returns (k: nat)
    ensures k <= |s|
    ensures k < |s| ==> s[k] == c && c !in s[k + 1..]
    ensures k == |s| ==> c !in s
  {
    var t, n := 0, |s|;
    var u := -1;
    while true
      invariant t + n == |s| && n >= 0 && -1 <= u < t
      invariant u >= 0 ==> s[u] == c && c !in s[u + 1..t]
      invariant u < 0 ==> c !in s[..t]
      decreases n
    {
      if n == 0 { break; } if s[t] == c { u := t; } t := t + 1; n := n - 1;
      if n == 0 { break; } if s[t] == c { u := t; } t := t + 1; n := n - 1;
      if n == 0 { break; } if s[t] == c { u := t; } t := t + 1; n := n - 1;
      if n == 0 { break; } if s[t] == c { u := t; } t := t + 1; n := n - 1;
    }
    if u < 0 { u := t; }
    return u;
  }
}
