/** Bit strings: exclusive or, Hamming distance and the zero string. */
module Bits {

  /** The value of a bit as a number. */
  function Val(b: bool): (v: nat)
    ensures v <= 1
  {
    if b then 1 else 0
  }

  function Zeros(n: nat): (z: seq<bool>)
    ensures |z| == n && forall i :: 0 <= i < n ==> !z[i]
  {
    seq(n, _ => false)
  }

  function Xor(a: seq<bool>, b: seq<bool>): (r: seq<bool>)
    requires |a| == |b|
    ensures |r| == |a| && forall i :: 0 <= i < |r| ==> r[i] == (a[i] != b[i])
  {
    seq(|a|, i requires 0 <= i < |a| => a[i] != b[i])
  }

  /** How many bits of a are set. */
  function Weight(a: seq<bool>): nat {
    if a == [] then 0 else Weight(a[..|a| - 1]) + Val(a[|a| - 1])
  }

  /** How many positions a and b differ in. */
  function Distance(a: seq<bool>, b: seq<bool>): nat
    requires |a| == |b|
  {
    Weight(Xor(a, b))
  }

  lemma XorSelfInverse(a: seq<bool>, b: seq<bool>)
    requires |a| == |b|
    ensures Xor(Xor(a, b), b) == a
    ensures Xor(a, b) == Xor(b, a)
  {
  }

  lemma {:induction false} WeightMonotone(a: seq<bool>, b: seq<bool>)
    requires |a| == |b| && forall i :: 0 <= i < |a| ==> (a[i] ==> b[i])
    ensures Weight(a) <= Weight(b)
  {
    if a != [] {
      WeightMonotone(a[..|a| - 1], b[..|b| - 1]);
    }
  }

  /** A string whose ones are all at places of S has at most |S| of them. */
  lemma {:induction false} WeightInSet(a: seq<bool>, S: set<nat>)
    requires forall i :: 0 <= i < |a| && a[i] ==> i in S
    ensures Weight(a) <= |S|
  {
    if a != [] {
      var n := |a| - 1;
      WeightInSet(a[..n], S - {n});
      if !a[n] {
        WeightInSet(a[..n], S);
      }
    }
  }
}
