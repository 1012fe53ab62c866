/** The D-STAR radio header: its convolutional code, interleaver and scrambler, and the hard and
    soft Viterbi decoders that undo them. A header is the string of its 328 bits, the least
    significant bit of each byte first. */
module DstarFec {
  import opened Bits

  const HEADER_BITS := 328          // 41 bytes
  const STEPS := 330                // with the two zeros that end the code
  const CODED := 660
  const SECTION := 664              // the 83 bytes sent; the first 4 bits end the frame sync

  // ---- the interleaver: the closed form of the source's tables

  /** The coded bit that received bit q is. */
  function Deint(q: nat): (i: nat)
    requires q < CODED
    ensures i < CODED
  {
    if q < 336 then q % 28 * 24 + q / 28 else (q - 336) % 27 * 24 + 12 + (q - 336) / 27
  }

  /** Where coded bit i is received. */
  function Inter(i: nat): (q: nat)
    requires i < CODED
    ensures q < CODED
  {
    if i % 24 < 12 then i % 24 * 28 + i / 24 else 336 + (i % 24 - 12) * 27 + i / 24
  }

  lemma InterDeint(q: nat)
    requires q < CODED
    ensures Inter(Deint(q)) == q
  {
    if q < 336 {
      Digits24(q % 28, q / 28);
    } else {
      Digits24((q - 336) % 27, 12 + (q - 336) / 27);
    }
  }

  lemma DeintInter(i: nat)
    requires i < CODED
    ensures Deint(Inter(i)) == i
  {
    var a, b := i / 24, i % 24;
    if b < 12 {
      assert (b * 28 + a) / 28 == b && (b * 28 + a) % 28 == a;
    } else {
      assert ((b - 12) * 27 + a) / 27 == b - 12 && ((b - 12) * 27 + a) % 27 == a;
    }
  }

  lemma Digits24(a: nat, b: nat)
    requires b < 24
    ensures (a * 24 + b) / 24 == a && (a * 24 + b) % 24 == b
  {
  }

  /** The scrambler: x^7 + x^4 + 1. */
  predicate Scr(i: nat) {
    if i < 7 then i >= 4 else Scr(i - 7) != Scr(i - 4)
  }

  // ---- the code

  /** The state after an input: the input and the one before it. */
  function Next(s: nat, d: bool): nat {
    Val(d) + 2 * (s % 2)
  }

  predicate Out1(s: nat, d: bool) {
    (Val(d) + s % 2 + s / 2) % 2 == 1
  }

  predicate Out0(s: nat, d: bool) {
    (Val(d) + s / 2) % 2 == 1
  }

  /** The state after the inputs x from state s. */
  function State(s: nat, x: seq<bool>): nat {
    if x == [] then s else Next(State(s, x[..|x| - 1]), x[|x| - 1])
  }

  /** The coded bits of the inputs x from state s. */
  function Coded(s: nat, x: seq<bool>): (c: seq<bool>)
    ensures |c| == 2 * |x|
  {
    if x == [] then []
    else
      var p := State(s, x[..|x| - 1]);
      Coded(s, x[..|x| - 1]) + [Out1(p, x[|x| - 1]), Out0(p, x[|x| - 1])]
  }

  /** The inputs that send a header: its bits, then zeros. */
  function Inputs(h: seq<bool>): (x: seq<bool>)
    requires |h| == HEADER_BITS
    ensures |x| == STEPS
  {
    h + [false, false]
  }

  /** The bits on the air for a header. */
  function HeaderSection(h: seq<bool>): (b: seq<bool>)
    requires |h| == HEADER_BITS
    ensures |b| == SECTION
  {
    seq(SECTION, p requires 0 <= p < SECTION => p >= 4 && (Coded(0, Inputs(h))[Deint(p - 4)] != Scr(p - 4)))
  }

  // ---- paths through the trellis

  /** What a step costs for each of the eight transitions: 2 s + d for input d in state s. */
  type Costs = m: seq<int> | |m| == 8 witness [0, 0, 0, 0, 0, 0, 0, 0]

  /** The state after an input in a state below 4 is below 4, and so is the transition's number. */
  lemma {:induction false} StateRange(s: nat, x: seq<bool>)
    requires s < 4
    ensures State(s, x) < 4
  {
    if x != [] {
      StateRange(s, x[..|x| - 1]);
    }
  }

  function Transition(s: nat, d: bool): (t: nat)
    ensures s < 4 ==> t < 8
  {
    2 * s + Val(d)
  }

  /** The cost of the path from state s with inputs x. */
  function Cost(s: nat, x: seq<bool>, m: seq<Costs>): int
    requires s < 4 && |x| <= |m|
  {
    if x == [] then 0
    else
      StateRange(s, x[..|x| - 1]);
      Cost(s, x[..|x| - 1], m) + m[|x| - 1][Transition(State(s, x[..|x| - 1]), x[|x| - 1])]
  }

  lemma {:induction false} PathStep(s: nat, x: seq<bool>, d: bool, m: seq<Costs>)
    requires s < 4 && |x| < |m|
    ensures State(s, x) < 4 && State(s, x + [d]) == Next(State(s, x), d)
    ensures Cost(s, x + [d], m) == Cost(s, x, m) + m[|x|][Transition(State(s, x), d)]
  {
    var y := x + [d];
    assert y[..|y| - 1] == x && y[|y| - 1] == d;
    StateRange(s, x);
  }

  /** State ns is reached from Pred(ns, false) and Pred(ns, true), by input ns % 2. */
  function Pred(ns: nat, second: bool): nat {
    ns / 2 + 2 * Val(second)
  }

  ghost predicate Survivors(from: seq<seq<bool>>) {
    forall k :: 0 <= k < |from| ==> |from[k]| == 4
  }

  /** The inputs along the surviving path into state st. */
  ghost function Trace(from: seq<seq<bool>>, st: nat): (x: seq<bool>)
    requires Survivors(from) && st < 4
    ensures |x| == |from|
  {
    if from == [] then []
    else var n := |from| - 1; Trace(from[..n], Pred(st, from[n][st])) + [st % 2 == 1]
  }

  /** The state that path starts in: the decoder does not fix it. */
  ghost function Start(from: seq<seq<bool>>, st: nat): (s: nat)
    requires Survivors(from) && st < 4
    ensures s < 4
  {
    if from == [] then st
    else var n := |from| - 1; Start(from[..n], Pred(st, from[n][st]))
  }

  lemma TraceStep(from: seq<seq<bool>>, i: nat, st: nat)
    requires Survivors(from) && i < |from| && st < 4
    ensures Trace(from[..i + 1], st) == Trace(from[..i], Pred(st, from[i][st])) + [st % 2 == 1]
    ensures Start(from[..i + 1], st) == Start(from[..i], Pred(st, from[i][st]))
  {
    assert from[..i + 1][..i] == from[..i];
  }

  /** v is the cost of the surviving path into st. */
  ghost predicate Survives(from: seq<seq<bool>>, m: seq<Costs>, st: nat, v: int)
    requires Survivors(from) && st < 4 && |from| <= |m|
  {
    var s, x := Start(from, st), Trace(from, st);
    State(s, x) == st && Cost(s, x, m) == v
  }

  /** No path of n steps into st, from any state, costs less than v. */
  ghost predicate Cheapest(n: nat, m: seq<Costs>, st: nat, v: int)
    requires n <= |m|
  {
    forall s: nat, x: seq<bool> :: s < 4 && |x| == n && State(s, x) == st ==> v <= Cost(s, x, m)
  }

  ghost predicate Best(from: seq<seq<bool>>, m: seq<Costs>, st: nat, v: int)
    requires Survivors(from) && st < 4 && |from| <= |m|
  {
    Survives(from, m, st, v) && Cheapest(|from|, m, st, v)
  }

  function Arrive(pm: seq<int>, c: Costs, ns: nat, second: bool): int
    requires |pm| == 4 && ns < 4
  {
    pm[Pred(ns, second)] + c[Transition(Pred(ns, second), ns % 2 == 1)]
  }

  lemma {:induction false} SurvivorStep(from: seq<seq<bool>>, f: seq<bool>, m: seq<Costs>, ns: nat, v: int)
    requires Survivors(from) && |f| == 4 && ns < 4 && |from| < |m|
    requires Survives(from, m, Pred(ns, f[ns]), v)
    ensures Survives(from + [f], m, ns, v + m[|from|][Transition(Pred(ns, f[ns]), ns % 2 == 1)])
  {
    hide State, Cost;
    var p := Pred(ns, f[ns]);
    var s, x := Start(from, p), Trace(from, p);
    assert (from + [f])[..|from|] == from;
    PathStep(s, x, ns % 2 == 1, m);
  }

  lemma {:induction false} CheapestStep(n: nat, m: seq<Costs>, pm: seq<int>, ns: nat, second: bool)
    requires |pm| == 4 && ns < 4 && n < |m|
    requires forall st :: 0 <= st < 4 ==> Cheapest(n, m, st, pm[st])
    requires second == !(Arrive(pm, m[n], ns, false) < Arrive(pm, m[n], ns, true))
    ensures Cheapest(n + 1, m, ns, Arrive(pm, m[n], ns, second))
  {
    hide State, Cost, Next, Transition, Pred;
    var v := Arrive(pm, m[n], ns, second);
    forall s: nat, x: seq<bool> | s < 4 && |x| == n + 1 && State(s, x) == ns
      ensures v <= Cost(s, x, m)
    {
      var y, d := x[..n], x[n];
      assert x == y + [d];
      PathStep(s, y, d, m);
      var st := State(s, y);
      assert Cheapest(n, m, st, pm[st]);
      assert pm[st] <= Cost(s, y, m);
      PredOf(st, d);
    }
  }

  lemma PredOf(st: nat, d: bool)
    requires st < 4
    ensures Next(st, d) < 4 && st == Pred(Next(st, d), st >= 2) && d == (Next(st, d) % 2 == 1)
  {
  }

  /** Add, compare, select on the four path metrics. */
  method AddCompareSelect(pm: array<int>, c: Costs, ghost from: seq<seq<bool>>, ghost m: seq<Costs>)
    returns (f: seq<bool>)
    requires pm.Length == 4 && Survivors(from) && |from| < |m| && m[|from|] == c
    requires forall st :: 0 <= st < 4 ==> Best(from, m, st, pm[st])
    modifies pm
    ensures |f| == 4
    ensures forall st :: 0 <= st < 4 ==> Best(from + [f], m, st, pm[st])
  {
    hide Survives, Cheapest, Trace, Start, Transition;
    var temp := new int[4];
    ghost var old_pm := pm[..];
    f := [];
    for ns := 0 to 4
      invariant |f| == ns && pm[..] == old_pm
      invariant forall k :: 0 <= k < ns ==> f[k] == !(Arrive(old_pm, c, k, false) < Arrive(old_pm, c, k, true))
      invariant forall k :: 0 <= k < ns ==> temp[k] == Arrive(old_pm, c, k, f[k])
    {
      var m1 := c[Transition(ns / 2, ns % 2 == 1)] + pm[ns / 2];
      var m2 := c[Transition(ns / 2 + 2, ns % 2 == 1)] + pm[ns / 2 + 2];
      temp[ns] := if m1 < m2 then m1 else m2;
      f := f + [!(m1 < m2)];
    }
    forall ns | 0 <= ns < 4
      ensures Best(from + [f], m, ns, temp[ns])
    {
      var p := Pred(ns, f[ns]);
      assert Best(from, m, p, old_pm[p]);
      SurvivorStep(from, f, m, ns, old_pm[p]);
      assert forall st :: 0 <= st < 4 ==> Best(from, m, st, old_pm[st]);
      CheapestStep(|from|, m, old_pm, ns, f[ns]);
    }
    forall i | 0 <= i < 4 {
      pm[i] := temp[i];
    }
  }

  /** The inputs of a cheapest path into state 0. The trace-back writes them newest first. */
  method Viterbi(m: seq<Costs>) returns (fec: seq<bool>)
    requires |m| == STEPS
    ensures |fec| == STEPS
    ensures CheapestInputs(Reversed(fec), m)
  {
    hide Survives, Cheapest, Trace, Start, Best, CheapestInputs;
    var pm := new int[4](_ => 0);
    var from: seq<seq<bool>> := [];
    StartBest(m);
    for i := 0 to STEPS
      invariant |from| == i && Survivors(from)
      invariant forall st :: 0 <= st < 4 ==> Best(from, m, st, pm[st])
    {
      var f := AddCompareSelect(pm, m[i], from, m);
      from := from + [f];
    }
    ghost var least := pm[0];
    assert Best(from, m, 0, least);
    fec := [];
    ghost var t := Trace(from, 0);
    var j: nat := 0;
    assert from[..STEPS] == from;
    for i := STEPS downto 0
      invariant j < 4 && |fec| == STEPS - i
      invariant t[..i] == Trace(from[..i], j) && Start(from, 0) == Start(from[..i], j)
      invariant Reversed(fec) == t[i..]
    {
      TraceStep(from, i, j);
      assert t[..i + 1][..i] == t[..i] && t[i] == t[..i + 1][i] == (j % 2 == 1);
      ReversedSnoc(fec, j % 2 == 1);
      fec := fec + [j % 2 == 1];
      j := Pred(j, from[i][j]);
    }
    assert t[0..] == t;
    TraceCheapest(from, m, least);
  }

  function Reversed(x: seq<bool>): (r: seq<bool>)
    ensures |r| == |x|
  {
    seq(|x|, i requires 0 <= i < |x| => x[|x| - 1 - i])
  }

  lemma ReversedSnoc(x: seq<bool>, b: bool)
    ensures Reversed(x + [b]) == [b] + Reversed(x)
  {
  }

  /** x ends in state 0, from some state, at the least cost of all paths that do. */
  ghost predicate CheapestInputs(x: seq<bool>, m: seq<Costs>)
    requires |x| == |m|
  {
    exists s: nat :: s < 4 && State(s, x) == 0 && Cheapest(|x|, m, 0, Cost(s, x, m))
  }

  lemma StartBest(m: seq<Costs>)
    ensures forall st :: 0 <= st < 4 ==> Best([], m, st, 0)
  {
  }

  lemma TraceCheapest(from: seq<seq<bool>>, m: seq<Costs>, v: int)
    requires Survivors(from) && |from| == |m| && Best(from, m, 0, v)
    ensures CheapestInputs(Trace(from, 0), m)
  {
    hide Cheapest;
    var s := Start(from, 0);
    assert State(s, Trace(from, 0)) == 0;
  }

  // ---- the decoder ends in zeros, and undoes the code

  /** Whatever was received, the last two decoded bits are 0: the path ends in state 0. */
  lemma DecodedTail(x: seq<bool>, m: seq<Costs>)
    requires |x| == |m| == STEPS && CheapestInputs(x, m)
    ensures !x[STEPS - 1] && !x[STEPS - 2]
  {
    hide Cheapest;
    var s: nat :| s < 4 && State(s, x) == 0;
    var y := x[..STEPS - 1];
    assert State(s, x) == Next(State(s, y), x[STEPS - 1]);
    assert y[..STEPS - 2] == x[..STEPS - 2] && y[STEPS - 2] == x[STEPS - 2];
    assert State(s, y) == Next(State(s, y[..STEPS - 2]), y[STEPS - 2]);
  }

  /** The costs of every step are least on exactly the transitions that code the bits c. */
  ghost predicate Favours(m: seq<Costs>, c: seq<bool>, base: int)
    requires |c| == 2 * |m|
  {
    forall i, s: nat, d: bool :: 0 <= i < |m| && s < 4 ==>
      m[i][Transition(s, d)] >= base &&
      (m[i][Transition(s, d)] == base <==> Out1(s, d) == c[2 * i] && Out0(s, d) == c[2 * i + 1])
  }

  function Total(base: int, n: nat): int {
    if n == 0 then 0 else Total(base, n - 1) + base
  }

  lemma TotalStep(base: int, n: nat)
    ensures Total(base, n + 1) == Total(base, n) + base
  {
  }

  /** The path that codes c costs the least there is, and a path that costs as little codes c. */
  lemma {:induction false} FavouredCost(s: nat, x: seq<bool>, m: seq<Costs>, c: seq<bool>, base: int)
    requires s < 4 && |x| <= |m| && |c| == 2 * |m| && Favours(m, c, base)
    ensures Cost(s, x, m) >= Total(base, |x|)
    ensures Cost(s, x, m) == Total(base, |x|) <==> Coded(s, x) == c[..2 * |x|]
  {
    if x != [] {
      hide Cost, Coded, State, Favours, Out1, Out0;
      var n := |x| - 1;
      var y, d := x[..n], x[n];
      assert x == y + [d];
      FavouredCost(s, y, m, c, base);
      PathStep(s, y, d, m);
      CodedStep(s, y, d);
      var p := State(s, y);
      FavouredStep(m, c, base, n, p, d);
      hide Total;
      TotalStep(base, n);
      assert c[..2 * n + 2] == c[..2 * n] + [c[2 * n], c[2 * n + 1]];
      SplitEqual(Coded(s, y), [Out1(p, d), Out0(p, d)], c[..2 * n], [c[2 * n], c[2 * n + 1]]);
    }
  }

  lemma {:induction false} CodedStep(s: nat, x: seq<bool>, d: bool)
    ensures Coded(s, x + [d]) == Coded(s, x) + [Out1(State(s, x), d), Out0(State(s, x), d)]
  {
    var y := x + [d];
    assert y[..|y| - 1] == x && y[|y| - 1] == d;
  }

  lemma FavouredStep(m: seq<Costs>, c: seq<bool>, base: int, i: nat, s: nat, d: bool)
    requires |c| == 2 * |m| && Favours(m, c, base) && i < |m| && s < 4
    ensures m[i][Transition(s, d)] >= base
    ensures m[i][Transition(s, d)] == base <==> [Out1(s, d), Out0(s, d)] == [c[2 * i], c[2 * i + 1]]
  {
    assert [Out1(s, d), Out0(s, d)] == [c[2 * i], c[2 * i + 1]] <==> Out1(s, d) == c[2 * i] && Out0(s, d) == c[2 * i + 1] by {
      PairEqual(Out1(s, d), Out0(s, d), c[2 * i], c[2 * i + 1]);
    }
  }

  lemma PairEqual(a: bool, b: bool, c: bool, d: bool)
    ensures [a, b] == [c, d] <==> a == c && b == d
  {
    if [a, b] == [c, d] {
      assert [a, b][0] == [c, d][0] && [a, b][1] == [c, d][1];
    }
  }

  lemma SplitEqual(a: seq<bool>, b: seq<bool>, c: seq<bool>, d: seq<bool>)
    requires |a| == |c|
    ensures a + b == c + d <==> a == c && b == d
  {
    if a + b == c + d {
      assert a == (a + b)[..|a|] == (c + d)[..|a|] == c;
      assert b == (a + b)[|a|..] == (c + d)[|a|..] == d;
    }
  }

  /** Two transitions into one state that code alike come from one state. */
  lemma Backward(s: nat, t: nat, d: bool, e: bool)
    requires s < 4 && t < 4 && Next(s, d) == Next(t, e) && Out1(s, d) == Out1(t, e) && Out0(s, d) == Out0(t, e)
    ensures s == t && d == e
  {
  }

  /** Two paths that end in one state and code alike are one path, wherever they start. */
  lemma {:induction false} SamePath(s: nat, x: seq<bool>, t: nat, y: seq<bool>)
    requires s < 4 && t < 4 && |x| == |y| && State(s, x) == State(t, y) && Coded(s, x) == Coded(t, y)
    ensures x == y && s == t
  {
    if x != [] {
      hide Coded, State, Out1, Out0, Next;
      var n := |x| - 1;
      var x', y', d, e := x[..n], y[..n], x[n], y[n];
      assert x == x' + [d] && y == y' + [e];
      StateStep(s, x', d);
      StateStep(t, y', e);
      CodedStep(s, x', d);
      CodedStep(t, y', e);
      var p, q := State(s, x'), State(t, y');
      SplitEqual(Coded(s, x'), [Out1(p, d), Out0(p, d)], Coded(t, y'), [Out1(q, e), Out0(q, e)]);
      PairEqual(Out1(p, d), Out0(p, d), Out1(q, e), Out0(q, e));
      Backward(p, q, d, e);
      SamePath(s, x', t, y');
    }
  }

  lemma {:induction false} StateStep(s: nat, x: seq<bool>, d: bool)
    requires s < 4
    ensures State(s, x) < 4 && State(s, x + [d]) == Next(State(s, x), d)
  {
    var y := x + [d];
    assert y[..|y| - 1] == x && y[|y| - 1] == d;
    StateRange(s, x);
  }

  lemma InputsEnd(h: seq<bool>)
    requires |h| == HEADER_BITS
    ensures State(0, Inputs(h)) == 0
  {
    var x := Inputs(h);
    var y := x[..STEPS - 1];
    assert y[..STEPS - 2] == x[..STEPS - 2];
    assert State(0, y) == Next(State(0, y[..STEPS - 2]), y[STEPS - 2]);
    assert State(0, x) == Next(State(0, y), x[STEPS - 1]);
  }

  /** Costs that favour the code of a header decode to it. */
  lemma Decoded(x: seq<bool>, m: seq<Costs>, h: seq<bool>, base: int)
    requires |x| == |m| == STEPS && |h| == HEADER_BITS
    requires CheapestInputs(x, m) && Favours(m, Coded(0, Inputs(h)), base)
    ensures x == Inputs(h)
  {
    hide Coded, State, Cost, Favours, Inputs;
    var y := Inputs(h);
    var c := Coded(0, y);
    var s: nat :| s < 4 && State(s, x) == 0 && Cheapest(|x|, m, 0, Cost(s, x, m));
    assert c[..2 * STEPS] == c;
    FavouredCost(0, y, m, c, base);
    FavouredCost(s, x, m, c, base);
    InputsEnd(h);
    SamePath(s, x, 0, y);
  }

  lemma {:induction false} CodedPrefix(s: nat, x: seq<bool>, n: nat)
    requires n <= |x|
    ensures Coded(s, x)[..2 * n] == Coded(s, x[..n])
  {
    if n < |x| {
      hide Out1, Out0, State;
      CodedPrefix(s, x[..|x| - 1], n);
      assert x[..|x| - 1][..n] == x[..n];
    } else {
      assert x[..n] == x && Coded(s, x)[..2 * n] == Coded(s, x);
    }
  }
}
