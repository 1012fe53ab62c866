/** The minimum distance of the RADE signalling code and what it lets the decoder repair. */
module RadeDistance {
  import opened Bits
  import opened RadeCode

  // ---- a potential over the 64 register states

  function Pick(a: bool, b: bool, c: bool, v: seq<nat>): nat
    requires |v| == 8
  {
    if a then if b then if c then v[7] else v[6] else if c then v[5] else v[4]
    else if b then if c then v[3] else v[2] else if c then v[1] else v[0]
  }

  /** The fewest coded ones on a path from state 0 away and on to the state whose bits are b1
      (newest) to b6, at most 10. */
  function Potential(b1: bool, b2: bool, b3: bool, b4: bool, b5: bool, b6: bool): nat {
    Pick(b1, b2, b3, [
      Pick(b4, b5, b6, [10, 8, 7, 7, 7, 5, 6, 6]), Pick(b4, b5, b6, [5, 7, 4, 8, 4, 6, 5, 7]),
      Pick(b4, b5, b6, [3, 7, 6, 6, 4, 4, 7, 7]), Pick(b4, b5, b6, [4, 6, 5, 7, 5, 7, 6, 6]),
      Pick(b4, b5, b6, [2, 8, 5, 7, 5, 5, 4, 6]), Pick(b4, b5, b6, [3, 7, 4, 8, 6, 6, 7, 7]),
      Pick(b4, b5, b6, [3, 5, 6, 4, 4, 6, 7, 7]), Pick(b4, b5, b6, [4, 4, 5, 7, 5, 5, 6, 6])])
  }

  /** A step from a state other than 0 raises the potential by at most the ones it codes. */
  lemma PotentialStep(b0: bool, b1: bool, b2: bool, b3: bool, b4: bool, b5: bool, b6: bool)
    ensures Potential(b0, b1, b2, b3, b4, b5) <= 10
    ensures b1 || b2 || b3 || b4 || b5 || b6 ==>
              Potential(b0, b1, b2, b3, b4, b5) <= Potential(b1, b2, b3, b4, b5, b6) +
                Val(Odd5(b0, b1, b2, b3, b6)) + Val(Odd5(b0, b2, b3, b5, b6))
  {
  }

  /** The potential of the state the register is in after n steps of x. */
  function PotentialAt(x: seq<bool>, n: nat): nat {
    Potential(At(x, n - 1), At(x, n - 2), At(x, n - 3), At(x, n - 4), At(x, n - 5), At(x, n - 6))
  }

  lemma WeightStep(x: seq<bool>, n: nat)
    requires 0 < n <= |x| + CONV_K - 1
    ensures Weight(Codeword(x)[..2 * n]) ==
            Weight(Codeword(x)[..2 * n - 2]) + Val(TapA(x, n - 1)) + Val(TapB(x, n - 1))
  {
    hide TapA, TapB;
    var c := Codeword(x);
    assert c[..2 * n][..2 * n - 1] == c[..2 * n - 1];
    assert c[..2 * n - 1][..2 * n - 2] == c[..2 * n - 2];
  }

  /** Once a one has gone in, what was coded weighs at least the potential. */
  lemma {:induction false} WeightBound(x: seq<bool>, n: nat, one: nat)
    requires one < n <= |x| + CONV_K - 1 && At(x, one)
    requires forall i :: i < one ==> !At(x, i)
    ensures PotentialAt(x, n) <= Weight(Codeword(x)[..2 * n])
  {
    hide Codeword, Potential, Weight;
    WeightStep(x, n);
    PotentialStep(At(x, n - 1), At(x, n - 2), At(x, n - 3), At(x, n - 4), At(x, n - 5), At(x, n - 6), At(x, n - 7));
    if one < n - 1 {
      WeightBound(x, n - 1, one);
      PotentialEnds();
    } else {
      PotentialEnds();
    }
  }

  lemma PotentialEnds()
    ensures Potential(true, false, false, false, false, false) == 2
    ensures Potential(false, false, false, false, false, false) == 10
  {
  }

  lemma {:induction false} FirstOne(x: seq<bool>, n: nat) returns (one: nat)
    requires n < |x| && x[n]
    ensures one < |x| && x[one] && forall i :: i < one ==> !At(x, i)
  {
    one := n;
    if exists i :: 0 <= i < n && x[i] {
      var i :| 0 <= i < n && x[i];
      one := FirstOne(x, i);
    }
  }

  /** Any two different messages of one length have code words at least 10 bits apart. */
  lemma {:induction false} MinimumDistance(x: seq<bool>, y: seq<bool>)
    requires |x| == |y| && x != y
    ensures Distance(Codeword(x), Codeword(y)) >= 10
  {
    hide Codeword, Potential;
    var z := Xor(x, y);
    var i :| 0 <= i < |x| && x[i] != y[i];
    var one := FirstOne(z, i);
    var n := |x| + CONV_K - 1;
    WeightBound(z, n, one);
    PotentialEnds();
    CodewordXor(x, y);
    assert Codeword(z)[..2 * n] == Codeword(z);
  }

  // ---- what the decoder repairs

  /** Soft bits of one magnitude, some of them erased (0) and some of the wrong sign. */
  ghost predicate Received(c: seq<bool>, soft: seq<real>, a: real) {
    && |soft| == |c| && a > 0.0
    && forall i :: 0 <= i < |c| ==> soft[i] in {a, 0.0, -a}
  }

  function Erased(soft: seq<real>): (e: seq<bool>)
    ensures |e| == |soft|
  {
    seq(|soft|, i requires 0 <= i < |soft| => soft[i] == 0.0)
  }

  function Flipped(c: seq<bool>, soft: seq<real>): (f: seq<bool>)
    requires |c| == |soft|
    ensures |f| == |soft|
  {
    seq(|soft|, i requires 0 <= i < |soft| => Signed(c[i], soft[i]) < 0.0)
  }

  function Times(a: real, k: int): real {
    a * k as real
  }

  lemma TimesAdd(a: real, k: int, d: int)
    ensures Times(a, k + d) == Times(a, k) + Times(a, d)
  {
  }

  lemma BitGap(c: bool, o: bool, v: real, a: real)
    requires a > 0.0 && v in {a, 0.0, -a}
    ensures Signed(c, v) - Signed(o, v) >=
            Times(2.0 * a, Val(c != o) - Val(v == 0.0) - 2 * Val(Signed(c, v) < 0.0))
  {
  }

  /** How far ahead of any other code word the sent one stays on the first n bits. */
  function Lead(c: seq<bool>, o: seq<bool>, soft: seq<real>, n: nat): int
    requires |c| == |o| == |soft| && n <= |c|
  {
    Weight(Xor(c, o)[..n]) - Weight(Erased(soft)[..n]) - 2 * Weight(Flipped(c, soft)[..n])
  }

  lemma WeightTake(x: seq<bool>, n: nat)
    requires 0 < n <= |x|
    ensures Weight(x[..n]) == Weight(x[..n - 1]) + Val(x[n - 1])
  {
    assert x[..n][..n - 1] == x[..n - 1];
  }

  lemma CorrTake(c: seq<bool>, soft: seq<real>, n: nat)
    requires 0 < n <= |c| <= |soft|
    ensures Corr(c[..n], soft) == Corr(c[..n - 1], soft) + Signed(c[n - 1], soft[n - 1])
  {
    assert c[..n][..n - 1] == c[..n - 1];
  }

  lemma {:induction false} CorrelationGap(c: seq<bool>, o: seq<bool>, soft: seq<real>, a: real, n: nat)
    requires Received(c, soft, a) && |o| == |c| && n <= |c|
    ensures Corr(c[..n], soft) - Corr(o[..n], soft) >= Times(2.0 * a, Lead(c, o, soft, n))
  {
    if n > 0 {
      CorrelationGap(c, o, soft, a, n - 1);
      GapStep(c, o, soft, a, n);
    }
  }

  lemma GapStep(c: seq<bool>, o: seq<bool>, soft: seq<real>, a: real, n: nat)
    requires Received(c, soft, a) && |o| == |c| && 0 < n <= |c|
    requires Corr(c[..n - 1], soft) - Corr(o[..n - 1], soft) >= Times(2.0 * a, Lead(c, o, soft, n - 1))
    ensures Corr(c[..n], soft) - Corr(o[..n], soft) >= Times(2.0 * a, Lead(c, o, soft, n))
  {
    hide Corr, Weight, Signed, Times;
    CorrTake(c, soft, n);
    CorrTake(o, soft, n);
    WeightTake(Xor(c, o), n);
    WeightTake(Erased(soft), n);
    WeightTake(Flipped(c, soft), n);
    assert soft[n - 1] in {a, 0.0, -a};
    BitGap(c[n - 1], o[n - 1], soft[n - 1], a);
    TimesAdd(2.0 * a, Lead(c, o, soft, n - 1), Lead(c, o, soft, n) - Lead(c, o, soft, n - 1));
  }

  lemma LeadWins(c: seq<bool>, o: seq<bool>, soft: seq<real>, a: real)
    requires Received(c, soft, a) && |o| == |c|
    requires Distance(c, o) > Weight(Erased(soft)) + 2 * Weight(Flipped(c, soft))
    ensures Corr(c, soft) > Corr(o, soft)
  {
    hide Corr, Weight;
    CorrelationGap(c, o, soft, a, |c|);
    assert c[..|c|] == c && o[..|c|] == o;
    assert Xor(c, o)[..|c|] == Xor(c, o) && Erased(soft)[..|c|] == Erased(soft)
        && Flipped(c, soft)[..|c|] == Flipped(c, soft);
  }

  /** With e soft bits erased and f of the wrong sign, all of one magnitude, a message is decoded
      exactly whenever 2 f + e < 10: up to 9 erased, or up to 4 flipped. */
  lemma {:induction false} RepairsErrors(msg: seq<bool>, sent: seq<bool>, soft: seq<real>, a: real)
    requires |msg| == |sent| && Received(Codeword(sent), soft, a)
    requires MaximumLikelihood(msg, soft)
    requires 2 * Weight(Flipped(Codeword(sent), soft)) + Weight(Erased(soft)) < 10
    ensures msg == sent
  {
    hide Codeword, Corr, Weight;
    if msg != sent {
      MinimumDistance(sent, msg);
      LeadWins(Codeword(sent), Codeword(msg), soft, a);
    }
  }

  /** Soft bits of any magnitudes, each of the right sign or erased. */
  ghost predicate RightSigns(c: seq<bool>, soft: seq<real>) {
    && |soft| == |c|
    && forall i :: 0 <= i < |c| ==> Signed(c[i], soft[i]) >= 0.0
  }

  lemma {:induction false} CleanGap(c: seq<bool>, o: seq<bool>, soft: seq<real>, n: nat)
    requires RightSigns(c, soft) && |o| == |c| && n <= |c|
    ensures Corr(c[..n], soft) >= Corr(o[..n], soft)
    ensures Weight(Xor(c, o)[..n]) > Weight(Erased(soft)[..n]) ==> Corr(c[..n], soft) > Corr(o[..n], soft)
  {
    hide Corr, Weight;
    if n == 0 {
      assert c[..n] == o[..n] == Xor(c, o)[..n] == Erased(soft)[..n];
    } else {
      CleanGap(c, o, soft, n - 1);
      CorrTake(c, soft, n);
      CorrTake(o, soft, n);
      WeightTake(Xor(c, o), n);
      WeightTake(Erased(soft), n);
    }
  }

  lemma CleanWins(c: seq<bool>, o: seq<bool>, soft: seq<real>)
    requires RightSigns(c, soft) && |o| == |c|
    requires Distance(c, o) > Weight(Erased(soft))
    ensures Corr(c, soft) > Corr(o, soft)
  {
    hide Corr, Weight;
    CleanGap(c, o, soft, |c|);
    assert c[..|c|] == c && o[..|c|] == o && Xor(c, o)[..|c|] == Xor(c, o) && Erased(soft)[..|c|] == Erased(soft);
  }

  /** A message received with no wrong sign and fewer than 10 erasures is decoded exactly. */
  lemma {:induction false} DecodesClean(msg: seq<bool>, sent: seq<bool>, soft: seq<real>)
    requires |msg| == |sent| && RightSigns(Codeword(sent), soft)
    requires MaximumLikelihood(msg, soft)
    requires Weight(Erased(soft)) < 10
    ensures msg == sent
  {
    hide Codeword, Corr, Weight;
    if msg != sent {
      MinimumDistance(sent, msg);
      CleanWins(Codeword(sent), Codeword(msg), soft);
    }
  }
}
