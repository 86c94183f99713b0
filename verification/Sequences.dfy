/** A sequence with one element more, or one less. */
module Sequences {

  function Inserted<T>(s: seq<T>, k: nat, x: T): (t: seq<T>)
    requires k <= |s|
    ensures |t| == |s| + 1 && t[k] == x
    ensures forall i :: 0 <= i < k ==> t[i] == s[i]
    ensures forall i :: k < i < |t| ==> t[i] == s[i - 1]
  {
    s[..k] + [x] + s[k..]
  }

  lemma InsertedInConcat<T>(a: seq<T>, b: seq<T>, k: nat, x: T)
    ensures k <= |a| ==> Inserted(a, k, x) + b == Inserted(a + b, k, x)
    ensures k <= |b| ==> a + Inserted(b, k, x) == Inserted(a + b, |a| + k, x)
  {
  }

  function Removed<T>(s: seq<T>, k: nat): (t: seq<T>)
    requires k < |s|
  {
    s[..k] + s[k + 1..]
  }
}
