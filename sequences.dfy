/** Order-preserving subsequences, used to state what listing and removing keep. */
module Sequences {

  /** `sub` is obtained from `s` by deleting elements, the rest keeping their order. */
  ghost predicate IsSubsequence<T>(sub: seq<T>, s: seq<T>)
    decreases |s|
  {
    if sub == [] then true
    else if s == [] then false
    else (sub[0] == s[0] && IsSubsequence(sub[1..], s[1..])) || IsSubsequence(sub, s[1..])
  }

  lemma {:induction false} SubsequenceOfSelf<T>(s: seq<T>)
    ensures IsSubsequence(s, s)
    decreases |s|
  {
    if s != [] {
      SubsequenceOfSelf(s[1..]);
    }
  }

  /** Removing the element at `k` (Array.prototype.splice(k, 1)) keeps the rest in order. */
  lemma {:induction false} RemoveAtIsSubsequence<T>(s: seq<T>, k: int)
    requires 0 <= k < |s|
    ensures IsSubsequence(s[..k] + s[k + 1..], s)
    decreases |s|
  {
    var sub := s[..k] + s[k + 1..];
    if k == 0 {
      assert sub == s[1..];
      SubsequenceOfSelf(s[1..]);
    } else {
      RemoveAtIsSubsequence(s[1..], k - 1);
      assert sub[0] == s[0];
      assert sub[1..] == s[1..][..k - 1] + s[1..][k..];
    }
  }
}
