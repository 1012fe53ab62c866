/** The convolutional code of the RADE signalling messages (constraint length 7,
    generators 171 and 133 octal) and its soft Viterbi decoder.
    A message is the string of its bits in the order they are coded: bit i is
    bit 7 - i % 8 of byte i / 8. */
module RadeCode {
  import opened Bits

  const MSG_BITS := 96
  const CONV_K := 7
  const STATES := 64
  const STEPS := MSG_BITS + CONV_K - 1
  const CODED_BITS := 2 * STEPS

  // ---- the code as a convolution

  /** Bit i of x, zero outside it. */
  predicate At(x: seq<bool>, i: int) {
    0 <= i < |x| && x[i]
  }

  predicate Odd5(a: bool, b: bool, c: bool, d: bool, e: bool) {
    (((a != b) != c) != d) != e
  }

  /** Generator 0x79: the newest bit and those 1, 2, 3 and 6 before it. */
  predicate TapA(x: seq<bool>, i: int) {
    Odd5(At(x, i), At(x, i - 1), At(x, i - 2), At(x, i - 3), At(x, i - 6))
  }

  /** Generator 0x5B: the newest bit and those 2, 3, 5 and 6 before it. */
  predicate TapB(x: seq<bool>, i: int) {
    Odd5(At(x, i), At(x, i - 2), At(x, i - 3), At(x, i - 5), At(x, i - 6))
  }

  /** The code word of a message of any length, with its six tail steps. */
  function Codeword(x: seq<bool>): (c: seq<bool>)
    ensures |c| == 2 * (|x| + CONV_K - 1)
  {
    seq(2 * (|x| + CONV_K - 1), n => if n % 2 == 0 then TapA(x, n / 2) else TapB(x, n / 2))
  }

  /** The code word of a single bit is the two generators, 171 and 133 octal, bit by bit in turn. */
  lemma OneBit()
    ensures Codeword([true]) == [true, true, true, false, true, true, true, true, false, false, false, true, true, true]
  {
  }

  /** A message that starts one bit later has a code word that starts two bits later. */
  lemma OneBitLater(x: seq<bool>)
    ensures Codeword([false] + x) == [false, false] + Codeword(x)
  {
    var y := [false] + x;
    forall n | 0 <= n < |Codeword(y)|
      ensures Codeword(y)[n] == ([false, false] + Codeword(x))[n]
    {
      LaterAt(x, n / 2);
    }
  }

  lemma LaterAt(x: seq<bool>, i: int)
    ensures forall k :: At([false] + x, k) == At(x, k - 1)
    ensures TapA([false] + x, i) == TapA(x, i - 1) && TapB([false] + x, i) == TapB(x, i - 1)
  {
  }

  lemma XorAt(x: seq<bool>, y: seq<bool>, i: int)
    requires |x| == |y|
    ensures At(Xor(x, y), i) == (At(x, i) != At(y, i))
  {
  }

  lemma TapsXor(x: seq<bool>, y: seq<bool>, i: int)
    requires |x| == |y|
    ensures TapA(Xor(x, y), i) == (TapA(x, i) != TapA(y, i))
    ensures TapB(Xor(x, y), i) == (TapB(x, i) != TapB(y, i))
  {
    hide At;
    XorAt(x, y, i);
    XorAt(x, y, i - 1);
    XorAt(x, y, i - 2);
    XorAt(x, y, i - 3);
    XorAt(x, y, i - 5);
    XorAt(x, y, i - 6);
  }

  /** The code is linear. */
  lemma {:induction false} CodewordXor(x: seq<bool>, y: seq<bool>)
    requires |x| == |y|
    ensures Codeword(Xor(x, y)) == Xor(Codeword(x), Codeword(y))
  {
    hide TapA, TapB;
    var z := Xor(x, y);
    forall n | 0 <= n < |Codeword(z)|
      ensures Codeword(z)[n] == Xor(Codeword(x), Codeword(y))[n]
    {
      TapsXor(x, y, n / 2);
    }
  }

  // ---- the code as a shift register

  /** The six newest bits of what was fed in, newest at bit 5. */
  function State(x: seq<bool>): (s: nat)
    ensures s < STATES
  {
    var n := |x|;
    Packed(At(x, n - 1), At(x, n - 2), At(x, n - 3), At(x, n - 4), At(x, n - 5), At(x, n - 6))
  }

  function Packed(b1: bool, b2: bool, b3: bool, b4: bool, b5: bool, b6: bool): (s: nat)
    ensures s < STATES
  {
    32 * Val(b1) + 16 * Val(b2) + 8 * Val(b3) + 4 * Val(b4) + 2 * Val(b5) + Val(b6)
  }

  function Next(s: nat, b: bool): nat {
    s / 2 + 32 * Val(b)
  }

  /** parity(reg & 0x79) */
  predicate OutA(reg: nat) {
    (reg / 64 + reg / 32 + reg / 16 + reg / 8 + reg) % 2 == 1
  }

  /** parity(reg & 0x5B) */
  predicate OutB(reg: nat) {
    (reg / 64 + reg / 16 + reg / 8 + reg / 2 + reg) % 2 == 1
  }

  lemma StateStep(x: seq<bool>, b: bool)
    ensures State(x + [b]) == Next(State(x), b)
  {
    var y := x + [b];
    assert forall i :: i < |x| ==> At(y, i) == At(x, i);
  }

  lemma StateTaps(x: seq<bool>, i: nat)
    requires i < |x|
    ensures State(x[..i]) == Packed(At(x, i - 1), At(x, i - 2), At(x, i - 3), At(x, i - 4), At(x, i - 5), At(x, i - 6))
    ensures x[i] == At(x, i)
  {
    hide At, Packed;
    PrefixAt(x, i, i - 1);
    PrefixAt(x, i, i - 2);
    PrefixAt(x, i, i - 3);
    PrefixAt(x, i, i - 4);
    PrefixAt(x, i, i - 5);
    PrefixAt(x, i, i - 6);
    NewestAt(x, i);
  }

  /** The register's outputs are the convolution's. */
  lemma {:induction false} RegisterTaps(x: seq<bool>, i: nat)
    requires i < |x|
    ensures OutA(State(x[..i]) + 64 * Val(x[i])) == TapA(x, i)
    ensures OutB(State(x[..i]) + 64 * Val(x[i])) == TapB(x, i)
  {
    hide At, OutA, OutB, Odd5, Val, State, Packed;
    StateTaps(x, i);
    RegisterOutputs(At(x, i), At(x, i - 1), At(x, i - 2), At(x, i - 3), At(x, i - 4),
                    At(x, i - 5), At(x, i - 6));
  }

  lemma NewestAt(x: seq<bool>, i: nat)
    requires i < |x|
    ensures At(x, i) == x[i]
  {
  }

  lemma PrefixAt(x: seq<bool>, i: nat, k: int)
    requires k < i < |x|
    ensures At(x[..i], k) == At(x, k)
  {
  }

  lemma Parity5(a: bool, b: bool, c: bool, d: bool, e: bool)
    ensures (Val(a) + Val(b) + Val(c) + Val(d) + Val(e)) % 2 == 1 <==> Odd5(a, b, c, d, e)
  {
  }

  lemma RegisterOutputs(b0: bool, b1: bool, b2: bool, b3: bool, b4: bool, b5: bool, b6: bool)
    ensures var reg := Packed(b1, b2, b3, b4, b5, b6) + 64 * Val(b0);
            OutA(reg) == Odd5(b0, b1, b2, b3, b6) && OutB(reg) == Odd5(b0, b2, b3, b5, b6)
  {
    hide Odd5, Val;
    Parity5(b0, b1, b2, b3, b6);
    Parity5(b0, b2, b3, b5, b6);
    var v0, v1, v2, v3, v4, v5, v6 := Val(b0), Val(b1), Val(b2), Val(b3), Val(b4), Val(b5), Val(b6);
    RegisterDigits(v0, v1, v2, v3, v4, v5, v6);
    var reg := 64 * v0 + 32 * v1 + 16 * v2 + 8 * v3 + 4 * v4 + 2 * v5 + v6;
    assert Packed(b1, b2, b3, b4, b5, b6) + 64 * Val(b0) == reg;
    hide Packed;
  }

  lemma RegisterDigits(v0: nat, v1: nat, v2: nat, v3: nat, v4: nat, v5: nat, v6: nat)
    requires v0 < 2 && v1 < 2 && v2 < 2 && v3 < 2 && v4 < 2 && v5 < 2 && v6 < 2
    ensures var reg := 64 * v0 + 32 * v1 + 16 * v2 + 8 * v3 + 4 * v4 + 2 * v5 + v6;
            && (reg / 64 + reg / 32 + reg / 16 + reg / 8 + reg) % 2 == (v0 + v1 + v2 + v3 + v6) % 2
            && (reg / 64 + reg / 16 + reg / 8 + reg / 2 + reg) % 2 == (v0 + v2 + v3 + v5 + v6) % 2
  {
    var reg := 64 * v0 + 32 * v1 + 16 * v2 + 8 * v3 + 4 * v4 + 2 * v5 + v6;
    assert reg / 64 == v0;
    assert reg / 32 == 2 * v0 + v1;
    assert reg / 16 == 4 * v0 + 2 * v1 + v2;
    assert reg / 8 == 8 * v0 + 4 * v1 + 2 * v2 + v3;
    assert reg / 2 == 32 * v0 + 16 * v1 + 8 * v2 + 4 * v3 + 2 * v4 + v5;
    EvenPart(reg / 64 + reg / 32 + reg / 16 + reg / 8 + reg, v0 + v1 + v2 + v3 + v6,
             39 * v0 + 19 * v1 + 9 * v2 + 4 * v3 + 2 * v4 + v5);
    EvenPart(reg / 64 + reg / 16 + reg / 8 + reg / 2 + reg, v0 + v2 + v3 + v5 + v6,
             54 * v0 + 27 * v1 + 13 * v2 + 6 * v3 + 3 * v4 + v5);
  }

  lemma EvenPart(x: int, y: int, k: int)
    requires x == y + 2 * k
    ensures x % 2 == y % 2
  {
  }

  /** The message with the zeros that bring the register back to state 0. */
  function Tailed(x: seq<bool>): (y: seq<bool>)
    ensures |y| == |x| + CONV_K - 1
  {
    x + Zeros(CONV_K - 1)
  }

  lemma TailedAt(x: seq<bool>, k: int)
    ensures At(Tailed(x), k) == At(x, k)
  {
  }

  lemma TailedTaps(x: seq<bool>, i: nat)
    ensures TapA(Tailed(x), i) == TapA(x, i) && TapB(Tailed(x), i) == TapB(x, i)
  {
    hide At, Tailed;
    TailedAt(x, i);
    TailedAt(x, i - 1);
    TailedAt(x, i - 2);
    TailedAt(x, i - 3);
    TailedAt(x, i - 5);
    TailedAt(x, i - 6);
  }

  lemma TailedOutputs(x: seq<bool>, i: nat)
    requires i < |x| + CONV_K - 1
    ensures var y := Tailed(x); var reg := State(y[..i]) + 64 * Val(y[i]);
            OutA(reg) == Codeword(x)[2 * i] && OutB(reg) == Codeword(x)[2 * i + 1]
  {
    hide TapA, TapB, State, OutA, OutB, Tailed;
    RegisterTaps(Tailed(x), i);
    TailedTaps(x, i);
  }

  lemma Shifted(sr: nat, b: bool)
    requires sr < 128
    ensures (sr / 2 + 64 * Val(b)) % 128 == sr / 2 + 64 * Val(b) < 128
    ensures (sr / 2 + 64 * Val(b)) / 2 == Next(sr / 2, b)
  {
  }

  /** The encoder: the register loop computes the convolution. */
  method ConvEncode(msg: seq<bool>) returns (coded: seq<bool>)
    requires |msg| == MSG_BITS
    ensures coded == Codeword(msg)
  {
    hide OutA, OutB, State, Codeword, Tailed, Next;
    ghost var y, w := Tailed(msg), Codeword(msg);
    StartState([]);
    assert y[..0] == [];
    var sr := 0;
    coded := [];
    for i := 0 to STEPS
      invariant |coded| == 2 * i && coded == w[..2 * i]
      invariant sr < 128 && sr / 2 == State(y[..i])
    {
      var bit := i < MSG_BITS && msg[i];
      TailedAt(msg, i);
      assert y[i] == bit;
      Shifted(sr, bit);
      sr := (sr / 2 + 64 * Val(bit)) % 128;
      TailedOutputs(msg, i);
      StateStep(y[..i], bit);
      assert y[..i + 1] == y[..i] + [bit];
      assert w[..2 * i + 2] == w[..2 * i] + [w[2 * i], w[2 * i + 1]];
      coded := coded + [OutA(sr), OutB(sr)];
    }
    assert w[..2 * STEPS] == w;
  }

  // ---- soft decisions

  /** A soft bit seen against a coded bit: positive values stand for 0. */
  function Signed(b: bool, v: real): real {
    if b then -v else v
  }

  /** The correlation of a code word with soft bits. */
  function Corr(c: seq<bool>, soft: seq<real>): real
    requires |c| <= |soft|
  {
    if c == [] then 0.0
    else var n := |c| - 1; Corr(c[..n], soft) + Signed(c[n], soft[n])
  }

  ghost predicate MaximumLikelihood(msg: seq<bool>, soft: seq<real>)
    requires |soft| == 2 * (|msg| + CONV_K - 1)
  {
    forall other: seq<bool> :: |other| == |msg| ==> Corr(Codeword(other), soft) <= Corr(Codeword(msg), soft)
  }

  function Branch(s: nat, b: bool, sa: real, sb: real): real {
    Signed(OutA(s + 64 * Val(b)), sa) + Signed(OutB(s + 64 * Val(b)), sb)
  }

  /** The sum of the branch metrics along the path of inputs x. */
  function PathMetric(x: seq<bool>, soft: seq<real>): real
    requires 2 * |x| <= |soft|
  {
    if x == [] then 0.0
    else var n := |x| - 1;
         PathMetric(x[..n], soft) + Branch(State(x[..n]), x[n], soft[2 * n], soft[2 * n + 1])
  }

  lemma {:induction false} PathMetricStep(x: seq<bool>, b: bool, soft: seq<real>)
    requires 2 * |x| + 2 <= |soft|
    ensures PathMetric(x + [b], soft) ==
            PathMetric(x, soft) + Branch(State(x), b, soft[2 * |x|], soft[2 * |x| + 1])
  {
    hide Branch, State;
    var y := x + [b];
    assert y != [] && y[..|y| - 1] == x && y[|y| - 1] == b;
  }

  lemma {:induction false} MetricIsCorrelation(x: seq<bool>, soft: seq<real>, i: nat)
    requires i <= |x| + CONV_K - 1 && |soft| == 2 * (|x| + CONV_K - 1)
    ensures PathMetric(Tailed(x)[..i], soft) == Corr(Codeword(x)[..2 * i], soft)
  {
    hide OutA, OutB, State, Codeword, Tailed;
    if i > 0 {
      var y, c := Tailed(x), Codeword(x);
      MetricIsCorrelation(x, soft, i - 1);
      TailedOutputs(x, i - 1);
      assert y[..i][..i - 1] == y[..i - 1];
      assert c[..2 * i][..2 * i - 1] == c[..2 * i - 1];
      assert c[..2 * i - 1][..2 * i - 2] == c[..2 * (i - 1)];
    }
  }

  // ---- the Viterbi decoder

  /** A path metric; NegInf stands for the source's -1e30: no path ends there. */
  datatype Metric = NegInf | Fin(v: real)

  function Plus(m: Metric, d: real): Metric {
    if m.Fin? then Fin(m.v + d) else NegInf
  }

  predicate Above(a: Metric, b: Metric) {
    a.Fin? && (b.Fin? ==> a.v > b.v)
  }

  /** State ns is reached from Pred(ns, false) and Pred(ns, true). */
  function Pred(ns: nat, odd: bool): nat {
    (2 * ns) % STATES + Val(odd)
  }

  function Arrive(m: seq<Metric>, ns: nat, odd: bool, sa: real, sb: real): Metric
    requires |m| == STATES && ns < STATES
  {
    Plus(m[Pred(ns, odd)], Branch(Pred(ns, odd), ns >= 32, sa, sb))
  }

  predicate Choice(m: seq<Metric>, ns: nat, sa: real, sb: real)
    requires |m| == STATES && ns < STATES
  {
    Above(Arrive(m, ns, true, sa, sb), Arrive(m, ns, false, sa, sb))
  }

  ghost predicate Survivors(from: seq<seq<bool>>) {
    forall k :: 0 <= k < |from| ==> |from[k]| == STATES
  }

  /** The inputs along the surviving path into state st. */
  ghost function Trace(from: seq<seq<bool>>, st: nat): (x: seq<bool>)
    requires Survivors(from) && st < STATES
    ensures |x| == |from|
  {
    if from == [] then []
    else var n := |from| - 1; Trace(from[..n], Pred(st, from[n][st])) + [st >= 32]
  }

  /** The tail steps admit only zeros. */
  ghost predicate Admissible(x: seq<bool>) {
    forall k :: MSG_BITS <= k < |x| ==> !x[k]
  }

  /** v is the metric of the surviving path into st. */
  ghost predicate Survives(from: seq<seq<bool>>, soft: seq<real>, st: nat, v: Metric)
    requires Survivors(from) && st < STATES && 2 * |from| <= |soft|
  {
    v.Fin? ==>
      var t := Trace(from, st);
      Admissible(t) && State(t) == st && PathMetric(t, soft) == v.v
  }

  /** No path of n steps into st has a metric greater than v. */
  ghost predicate Dominates(n: nat, soft: seq<real>, st: nat, v: Metric)
    requires 2 * n <= |soft|
  {
    forall x: seq<bool> :: |x| == n && Admissible(x) && State(x) == st ==>
      v.Fin? && PathMetric(x, soft) <= v.v
  }

  ghost predicate Best(from: seq<seq<bool>>, soft: seq<real>, st: nat, v: Metric)
    requires Survivors(from) && st < STATES && 2 * |from| <= |soft|
  {
    Survives(from, soft, st, v) && Dominates(|from|, soft, st, v)
  }

  lemma {:induction false} SurvivorStep(from: seq<seq<bool>>, f: seq<bool>, soft: seq<real>, ns: nat, v: Metric)
    requires Survivors(from) && |f| == STATES && ns < STATES && 2 * |from| + 2 <= |soft|
    requires Survives(from, soft, Pred(ns, f[ns]), v)
    requires |from| < MSG_BITS || ns < 32
    ensures Survives(from + [f], soft, ns,
                     Plus(v, Branch(Pred(ns, f[ns]), ns >= 32, soft[2 * |from|], soft[2 * |from| + 1])))
  {
    hide Branch, State, PathMetric;
    var t := Trace(from, Pred(ns, f[ns]));
    assert (from + [f])[..|from|] == from;
    StateStep(t, ns >= 32);
    PathMetricStep(t, ns >= 32, soft);
  }

  lemma {:induction false} DominanceStep(n: nat, soft: seq<real>, m: seq<Metric>, ns: nat, odd: bool)
    requires |m| == STATES && ns < STATES && 2 * n + 2 <= |soft|
    requires forall st :: 0 <= st < STATES ==> Dominates(n, soft, st, m[st])
    requires odd == Choice(m, ns, soft[2 * n], soft[2 * n + 1])
    ensures Dominates(n + 1, soft, ns, Arrive(m, ns, odd, soft[2 * n], soft[2 * n + 1]))
  {
    hide Branch, State, PathMetric;
    var v := Arrive(m, ns, odd, soft[2 * n], soft[2 * n + 1]);
    forall x: seq<bool> | |x| == n + 1 && Admissible(x) && State(x) == ns
      ensures v.Fin? && PathMetric(x, soft) <= v.v
    {
      var y, b := x[..n], x[n];
      assert x == y + [b];
      StateStep(y, b);
      PathMetricStep(y, b, soft);
      var s := State(y);
      assert Dominates(n, soft, s, m[s]);
      assert s == Pred(ns, s % 2 == 1) && b == (ns >= 32);
    }
  }

  lemma NoSurvivor(from: seq<seq<bool>>, soft: seq<real>, ns: nat)
    requires Survivors(from) && ns < STATES && 2 * |from| <= |soft|
    ensures Survives(from, soft, ns, NegInf)
  {
  }

  /** The tail steps reach no state whose newest bit is set. */
  lemma TailStates(n: nat, soft: seq<real>, ns: nat)
    requires 32 <= ns && MSG_BITS <= n && 2 * n + 2 <= |soft|
    ensures Dominates(n + 1, soft, ns, NegInf)
  {
    forall x: seq<bool> | |x| == n + 1 && Admissible(x)
      ensures State(x) != ns
    {
      assert !At(x, |x| - 1);
    }
  }

  lemma StartState(soft: seq<real>)
    ensures State([]) == 0 && Best([], soft, 0, Fin(0.0))
    ensures forall st :: 0 < st < STATES ==> Best([], soft, st, NegInf)
  {
    forall x: seq<bool> | |x| == 0 ensures x == [] {}
  }

  /** One step: add, compare, select for every state. */
  method AddCompareSelect(m: array<Metric>, nm: array<Metric>, soft: seq<real>, i: nat,
                          ghost from: seq<seq<bool>>)
    returns (f: seq<bool>)
    requires m.Length == STATES && nm.Length == STATES && m != nm
    requires Survivors(from) && i == |from| && 2 * i + 2 <= |soft|
    requires forall st :: 0 <= st < STATES ==> Best(from, soft, st, m[st])
    modifies nm
    ensures |f| == STATES
    ensures forall st :: 0 <= st < STATES ==> Best(from + [f], soft, st, nm[st])
  {
    hide Branch, Best;
    var sa, sb := soft[2 * i], soft[2 * i + 1];
    f := [];
    var top := if i < MSG_BITS then STATES else STATES / 2;
    for ns := 0 to top
      invariant |f| == ns
      invariant forall k :: 0 <= k < ns ==> f[k] == Choice(m[..], k, sa, sb)
      invariant forall k :: 0 <= k < ns ==> nm[k] == Arrive(m[..], k, f[k], sa, sb)
    {
      var bit := ns >= 32;
      var p0 := (2 * ns) % STATES;
      var p1 := p0 + 1;
      var v0 := Plus(m[p0], Branch(p0, bit, sa, sb));
      var v1 := Plus(m[p1], Branch(p1, bit, sa, sb));
      if Above(v1, v0) {
        nm[ns] := v1;
        f := f + [true];
      } else {
        nm[ns] := v0;
        f := f + [false];
      }
    }
    for ns := top to STATES
      invariant |f| == ns
      invariant forall k :: 0 <= k < top ==> f[k] == Choice(m[..], k, sa, sb)
      invariant forall k :: 0 <= k < top ==> nm[k] == Arrive(m[..], k, f[k], sa, sb)
      invariant forall k :: top <= k < ns ==> nm[k] == NegInf
    {
      nm[ns] := NegInf;
      f := f + [false];
    }
    assert forall st :: 0 <= st < STATES ==> Best(from, soft, st, m[..][st]);
    forall ns | 0 <= ns < STATES
      ensures Best(from + [f], soft, ns, nm[ns])
    {
      BestStep(from, f, soft, m[..], ns, nm[ns]);
    }
  }

  lemma BestStep(from: seq<seq<bool>>, f: seq<bool>, soft: seq<real>, m: seq<Metric>, ns: nat, v: Metric)
    requires Survivors(from) && |f| == |m| == STATES && ns < STATES && 2 * |from| + 2 <= |soft|
    requires forall st :: 0 <= st < STATES ==> Best(from, soft, st, m[st])
    requires if |from| < MSG_BITS || ns < 32 then
               var sa, sb := soft[2 * |from|], soft[2 * |from| + 1];
               f[ns] == Choice(m, ns, sa, sb) && v == Arrive(m, ns, f[ns], sa, sb)
             else
               v == NegInf
    ensures Best(from + [f], soft, ns, v)
  {
    hide Branch, State, PathMetric, Survives, Dominates, Trace, Choice;
    if |from| < MSG_BITS || ns < 32 {
      var p := Pred(ns, f[ns]);
      assert Best(from, soft, p, m[p]);
      SurvivorStep(from, f, soft, ns, m[p]);
      DominanceStep(|from|, soft, m, ns, f[ns]);
    } else {
      NoSurvivor(from + [f], soft, ns);
      TailStates(|from|, soft, ns);
    }
  }

  /** The decoder returns a message of maximum likelihood, whatever was received. */
  method Viterbi(soft: seq<real>) returns (msg: seq<bool>)
    requires |soft| == CODED_BITS
    ensures |msg| == MSG_BITS
    ensures MaximumLikelihood(msg, soft)
  {
    hide Best, MaximumLikelihood;
    var m := new Metric[STATES](st => if st == 0 then Fin(0.0) else NegInf);
    var nm := new Metric[STATES](_ => NegInf);
    var from: seq<seq<bool>> := [];
    StartState(soft);
    for i := 0 to STEPS
      invariant |from| == i && Survivors(from)
      invariant forall st :: 0 <= st < STATES ==> Best(from, soft, st, m[st])
    {
      var f := AddCompareSelect(m, nm, soft, i, from);
      from := from + [f];
      forall st | 0 <= st < STATES {
        m[st] := nm[st];
      }
    }
    msg := TraceBack(from);
    TraceIsBest(from, soft, m[0], msg);
  }

  lemma TraceStep(from: seq<seq<bool>>, i: nat, st: nat)
    requires Survivors(from) && i < |from| && st < STATES
    ensures Trace(from[..i + 1], st) == Trace(from[..i], Pred(st, from[i][st])) + [st >= 32]
  {
    assert from[..i + 1][..i] == from[..i];
  }

  /** The bits along the surviving path into state 0, the tail's left out. */
  method TraceBack(from: seq<seq<bool>>) returns (msg: seq<bool>)
    requires |from| == STEPS && Survivors(from)
    ensures msg == Trace(from, 0)[..MSG_BITS]
  {
    hide Trace;
    ghost var t := Trace(from, 0);
    msg := [];
    var st: nat := 0;
    assert from[..STEPS] == from;
    for i := STEPS downto 0
      invariant st < STATES && t[..i] == Trace(from[..i], st)
      invariant msg == if i <= MSG_BITS then t[i..MSG_BITS] else []
    {
      TraceStep(from, i, st);
      assert t[..i + 1][..i] == t[..i];
      assert t[i] == t[..i + 1][i] == (st >= 32);
      if i < MSG_BITS {
        msg := [st >= 32] + msg;
      }
      st := Pred(st, from[i][st]);
    }
  }

  lemma TraceIsBest(from: seq<seq<bool>>, soft: seq<real>, v: Metric, msg: seq<bool>)
    requires |soft| == CODED_BITS && |from| == STEPS && Survivors(from)
    requires Best(from, soft, 0, v) && msg == Trace(from, 0)[..MSG_BITS]
    ensures MaximumLikelihood(msg, soft)
  {
    hide PathMetric, Codeword;
    forall other: seq<bool> | |other| == MSG_BITS
      ensures v.Fin? && Corr(Codeword(other), soft) <= v.v
    {
      assert State(Tailed(other)) == 0;
      AsCorrelation(other, soft);
    }
    assert |Zeros(MSG_BITS)| == MSG_BITS;
    assert Trace(from, 0) == Tailed(msg);
    AsCorrelation(msg, soft);
  }

  lemma AsCorrelation(x: seq<bool>, soft: seq<real>)
    requires |soft| == 2 * (|x| + CONV_K - 1)
    ensures PathMetric(Tailed(x), soft) == Corr(Codeword(x), soft)
  {
    MetricIsCorrelation(x, soft, |Tailed(x)|);
    assert Tailed(x)[..|Tailed(x)|] == Tailed(x);
    assert Codeword(x)[..|Codeword(x)|] == Codeword(x);
  }
}
