/** The RADE receiver: soft bits from a ring of differential products, the search for a message,
    the lock that says which received symbol is which frame, and what may be played. */
module RadeReceiver {
  import opened Bits
  import opened VoiceCrypto
  import opened RadeCode
  import opened RadeDistance
  import opened RadeMessage
  import opened RadeScramble
  import opened RadeTransmitter

  const RING := 256
  const GAP_RESET := 100
  const RX_DECIDE := 10
  const RX_FLIP_SYMS := 50
  const TRACK_SPAN := 4
  const TRACK_LOST := 3
  const TRACK_GOOD := 0.25
  const TRACK_GONE := 0.10

  /** A received symbol's products with the one before, per carrier, and its number + 1 (0: none). */
  datatype Cell = Cell(tag: nat, d0: Complex, d1: Complex)

  datatype Status = Clear | Decrypting | Acquiring | NoKey | BadKey

  /** 32-bit subtraction. */
  function Sub32(a: nat, b: nat): (d: nat)
    requires a < WORD && b < WORD
    ensures d < WORD
  {
    (a + WORD - b) % WORD
  }

  /** A 32-bit word as a signed number, halved towards zero. */
  function Half32(d: nat): int
    requires d < WORD
  {
    if d < WORD / 2 then d / 2 else -((WORD - d) / 2)
  }

  // ---- soft bits

  /** The symbol, of the MSG_SYMS that end at end, that carries coded bit i. */
  function SymbolOf(end: nat, i: nat): (at: nat)
    ensures at < WORD
  {
    (end + WORD - (MSG_SYMS - 1) + Ilv(i) / 4) % WORD
  }

  predicate InRing(ring: seq<Cell>, at: nat)
    requires |ring| == RING
  {
    ring[at % RING].tag == (at + 1) % WORD
  }

  /** The component of a cell that carries coded bit i. */
  function Part(c: Cell, i: nat): real {
    var d := if Ilv(i) / 2 % NAUX == 0 then c.d0 else c.d1;
    if Ilv(i) % 2 == 0 then d.re else d.im
  }

  function SoftBit(ring: seq<Cell>, scale: real, end: nat, i: nat): real
    requires |ring| == RING
  {
    var at := SymbolOf(end, i);
    if InRing(ring, at) then Part(ring[at % RING], i) * scale else 0.0
  }

  function SoftBits(ring: seq<Cell>, scale: real, end: nat): Soft
    requires |ring| == RING
  {
    seq(CODED_BITS, i requires 0 <= i < CODED_BITS => SoftBit(ring, scale, end, i))
  }

  function Present(ring: seq<Cell>, end: nat): (p: seq<bool>)
    requires |ring| == RING
    ensures |p| == CODED_BITS
  {
    seq(CODED_BITS, i requires 0 <= i < CODED_BITS => InRing(ring, SymbolOf(end, i)))
  }

  /** The soft bits of the message ending at end, and how many of them were received. */
  method RxSoft(ring: seq<Cell>, dPow: real, end: nat) returns (soft: Soft, have: nat)
    requires |ring| == RING
    ensures soft == SoftBits(ring, SoftScale(dPow), end)
    ensures have == Weight(Present(ring, end))
  {
    hide SoftBit, InRing, SymbolOf, Part;
    var scale := SoftScale(dPow);
    var s: seq<real> := [];
    have := 0;
    for i := 0 to CODED_BITS
      invariant |s| == i && forall k :: 0 <= k < i ==> s[k] == SoftBit(ring, scale, end, k)
      invariant have == Weight(Present(ring, end)[..i])
    {
      WeightTake(Present(ring, end), i + 1);
      s := s + [SoftBit(ring, scale, end, i)];
      have := have + Val(InRing(ring, SymbolOf(end, i)));
    }
    assert Present(ring, end)[..CODED_BITS] == Present(ring, end);
    soft := s;
  }

  function SoftScale(dPow: real): (s: real)
    ensures s > 0.0
  {
    if dPow > 0.0 then 1.0 / dPow else 1.0
  }

  /** A soft bit, times the mean amplitude, is the product's part. */
  lemma ScaleIs(dPow: real)
    requires dPow > 0.0
    ensures SoftScale(dPow) * dPow == 1.0
  {
  }

  // ---- a transmission heard without noise

  /** A transmission under one nonce: its check, and the receiver's number of its first symbol. */
  datatype Over = Over(r: Nonce, chk: Check, base: nat)

  function SymAt(o: Over, n: nat): nat {
    (o.base + n) % WORD
  }

  /** The cell of symbol n has the signs of the bits sent in it. The first symbol of all has none
      before it and may come out as 0. */
  ghost predicate CleanCell(o: Over, n: nat, c: Cell) {
    forall i :: 0 <= i < CODED_BITS && Ilv(i) / 4 == n % MSG_SYMS ==>
      var v := Signed(Codeword(Message(o.r, n / MSG_SYMS, o.chk))[i], Part(c, i));
      v >= 0.0 && (n > 0 ==> v > 0.0)
  }

  ghost predicate Heard(ring: seq<Cell>, o: Over, n: nat)
    requires |ring| == RING
  {
    InRing(ring, SymAt(o, n)) && CleanCell(o, n, ring[SymAt(o, n) % RING])
  }

  /** Every symbol from first on to n that still fits in the ring was heard. */
  ghost predicate HeardFrom(ring: seq<Cell>, o: Over, first: nat, n: int)
    requires |ring| == RING
  {
    forall m: nat :: first <= m <= n && n - m < RING ==> Heard(ring, o, m)
  }

  ghost predicate MessageHeard(ring: seq<Cell>, o: Over, j: nat)
    requires |ring| == RING
  {
    forall n: nat :: j * MSG_SYMS <= n < (j + 1) * MSG_SYMS ==> Heard(ring, o, n)
  }

  lemma SymbolOfMessage(o: Over, j: nat, i: nat)
    requires i < CODED_BITS
    ensures SymbolOf(SymAt(o, j * MSG_SYMS + MSG_SYMS - 1), i) == SymAt(o, j * MSG_SYMS + Ilv(i) / 4)
  {
    hide Ilv;
    EndToSymbol(o.base + j * MSG_SYMS, Ilv(i) / 4);
  }

  lemma EndToSymbol(b: nat, q: nat)
    ensures ((b + MSG_SYMS - 1) % WORD + WORD - (MSG_SYMS - 1) + q) % WORD == (b + q) % WORD
  {
    var x := b + MSG_SYMS - 1;
    var k := x / WORD;
    assert x % WORD == x - k * WORD;
    Wrapped(b + q, 1 - k);
  }

  lemma Wrapped(x: int, k: int)
    ensures (x + k * WORD) % WORD == x % WORD
  {
  }

  lemma MessageSymbol(j: nat, q: nat)
    requires q < MSG_SYMS
    ensures (j * MSG_SYMS + q) / MSG_SYMS == j && (j * MSG_SYMS + q) % MSG_SYMS == q
    ensures j * MSG_SYMS <= j * MSG_SYMS + q < (j + 1) * MSG_SYMS
  {
  }

  lemma IlvSymbol(i: nat)
    requires i < CODED_BITS
    ensures Ilv(i) / 4 < MSG_SYMS && (Ilv(i) / 4 == 0 ==> Ilv(i) < 4)
  {
  }

  lemma HeardAt(ring: seq<Cell>, o: Over, j: nat, n: nat)
    requires |ring| == RING && MessageHeard(ring, o, j) && j * MSG_SYMS <= n < (j + 1) * MSG_SYMS
    ensures Heard(ring, o, n)
  {
    hide Heard;
  }

  /** Coded bit i of a message heard, as the receiver reads it. */
  lemma {:induction false} HeardBit(ring: seq<Cell>, scale: real, o: Over, j: nat, i: nat)
    requires |ring| == RING && scale > 0.0 && MessageHeard(ring, o, j) && i < CODED_BITS
    ensures var end := SymAt(o, j * MSG_SYMS + MSG_SYMS - 1);
            var v := Signed(Codeword(Message(o.r, j, o.chk))[i], SoftBit(ring, scale, end, i));
            && InRing(ring, SymbolOf(end, i))
            && v >= 0.0 && (v == 0.0 ==> j == 0 && Ilv(i) < 4)
  {
    hide Ilv, Codeword, Message, SymAt, SymbolOf, CleanCell, Part, Signed, InRing, MessageHeard;
    IlvSymbol(i);
    SymbolOfMessage(o, j, i);
    var q := Ilv(i) / 4;
    MessageSymbol(j, q);
    var n := j * MSG_SYMS + q;
    HeardAt(ring, o, j, n);
    var at := SymAt(o, n);
    var x := Part(ring[at % RING], i);
    var c := Codeword(Message(o.r, j, o.chk))[i];
    CleanBit(o, n, ring[at % RING], i);
    assert Signed(c, x) >= 0.0 && (n > 0 ==> Signed(c, x) > 0.0);
    ScaledSign(c, x, scale);
    assert SoftBit(ring, scale, SymAt(o, j * MSG_SYMS + MSG_SYMS - 1), i) == x * scale;
    assert n == 0 ==> j == 0 && q == 0;
  }

  lemma CleanBit(o: Over, n: nat, c: Cell, i: nat)
    requires CleanCell(o, n, c) && i < CODED_BITS && Ilv(i) / 4 == n % MSG_SYMS
    ensures var v := Signed(Codeword(Message(o.r, n / MSG_SYMS, o.chk))[i], Part(c, i));
            v >= 0.0 && (n > 0 ==> v > 0.0)
  {
  }

  lemma ScaledSign(b: bool, x: real, scale: real)
    requires scale > 0.0
    ensures Signed(b, x) > 0.0 ==> Signed(b, x * scale) > 0.0
    ensures Signed(b, x) >= 0.0 ==> Signed(b, x * scale) >= 0.0
  {
    if x > 0.0 {
      assert x * scale > 0.0;
    } else if x < 0.0 {
      assert -x * scale > 0.0;
    }
  }

  /** The four coded bits of a message's first symbol. */
  lemma FirstSymbolBits(i: nat)
    requires i < CODED_BITS && Ilv(i) < 4
    ensures i in {0, 127, 154, 181}
  {
    assert Ilv(0) == 0 && Ilv(181) == 1 && Ilv(154) == 2 && Ilv(127) == 3;
    hide Ilv;
    IlvInjective(i, if Ilv(i) == 0 then 0 else if Ilv(i) == 1 then 181 else if Ilv(i) == 2 then 154 else 127);
  }

  /** A message heard decodes exactly, its first symbol lost or not. */
  lemma HeardDecodes(ring: seq<Cell>, scale: real, o: Over, j: nat)
    requires |ring| == RING && scale > 0.0 && MessageHeard(ring, o, j)
    ensures var end := SymAt(o, j * MSG_SYMS + MSG_SYMS - 1);
            var soft := SoftBits(ring, scale, end);
            && RightSigns(Codeword(Message(o.r, j, o.chk)), soft)
            && Weight(Erased(soft)) <= 4
            && Weight(Present(ring, end)) == CODED_BITS
  {
    hide SymAt, Message, Codeword, SoftBit, Ilv, MessageHeard, SymbolOf, InRing, Weight;
    var end := SymAt(o, j * MSG_SYMS + MSG_SYMS - 1);
    var soft := SoftBits(ring, scale, end);
    forall i | 0 <= i < CODED_BITS
      ensures Signed(Codeword(Message(o.r, j, o.chk))[i], soft[i]) >= 0.0
      ensures Erased(soft)[i] ==> i in {0, 127, 154, 181}
      ensures Present(ring, end)[i]
    {
      HeardBit(ring, scale, o, j, i);
      if soft[i] == 0.0 {
        FirstSymbolBits(i);
      }
    }
    WeightInSet(Erased(soft), {0, 127, 154, 181});
    AllOnes(Present(ring, end));
  }

  lemma {:induction false} AllOnes(x: seq<bool>)
    requires forall i :: 0 <= i < |x| ==> x[i]
    ensures Weight(x) == |x|
  {
    if x != [] {
      AllOnes(x[..|x| - 1]);
    }
  }

  /** A new symbol heard, into the ring. */
  lemma HearNext(ring: seq<Cell>, o: Over, first: nat, n: nat, c: Cell)
    requires |ring| == RING && HeardFrom(ring, o, first, n - 1)
    requires c.tag == (SymAt(o, n) + 1) % WORD && CleanCell(o, n, c)
    ensures HeardFrom(ring[SymAt(o, n) % RING := c], o, first, n)
  {
    hide CleanCell;
    var after := ring[SymAt(o, n) % RING := c];
    forall m: nat | first <= m <= n && n - m < RING
      ensures Heard(after, o, m)
    {
      if m < n {
        assert Heard(ring, o, m);
        RingApart(o.base, m, n);
      }
    }
  }

  /** Symbols less than the ring's length apart have different cells: the ring divides the word. */
  lemma RingApart(base: nat, m: nat, n: nat)
    requires m < n && n - m < RING
    ensures (base + m) % WORD % RING != (base + n) % WORD % RING
  {
    WordRing(base + m);
    WordRing(base + n);
  }

  lemma WordRing(x: nat)
    ensures x % WORD % RING == x % RING
  {
    var k := x / WORD;
    assert x % WORD == x - k * 16777216 * RING;
    RingWrapped(x, -k * 16777216);
  }

  lemma RingWrapped(x: int, k: int)
    ensures (x + k * RING) % RING == x % RING
  {
  }

  // ---- the correlation of a known message with what arrived

  function Abs(x: real): (a: real)
    ensures a >= 0.0
  {
    if x < 0.0 then -x else x
  }

  function SumAbs(soft: seq<real>): (t: real)
    ensures t >= 0.0
  {
    if soft == [] then 0.0 else SumAbs(soft[..|soft| - 1]) + Abs(soft[|soft| - 1])
  }

  /** The correlation as a share of what arrived: 1 is every sign right. */
  function Share(c: seq<bool>, soft: seq<real>): real
    requires |c| == |soft|
  {
    if SumAbs(soft) > 0.0 then Corr(c, soft) / SumAbs(soft) else 0.0
  }

  lemma {:induction false} CorrBound(c: seq<bool>, soft: seq<real>, n: nat)
    requires |c| == |soft| && n <= |c|
    ensures -SumAbs(soft[..n]) <= Corr(c[..n], soft) <= SumAbs(soft[..n])
    ensures RightSigns(c, soft) ==> Corr(c[..n], soft) == SumAbs(soft[..n])
  {
    if n > 0 {
      CorrBound(c, soft, n - 1);
      CorrTake(c, soft, n);
      assert soft[..n][..n - 1] == soft[..n - 1];
    }
  }

  lemma {:induction false} SumAbsPositive(soft: seq<real>, i: nat)
    requires i < |soft| && soft[i] != 0.0
    ensures SumAbs(soft) > 0.0
  {
    if i < |soft| - 1 {
      SumAbsPositive(soft[..|soft| - 1], i);
    }
  }

  lemma ShareBound(c: seq<bool>, soft: seq<real>)
    requires |c| == |soft|
    ensures -1.0 <= Share(c, soft) <= 1.0
    ensures RightSigns(c, soft) && SumAbs(soft) > 0.0 ==> Share(c, soft) == 1.0
  {
    CorrBound(c, soft, |c|);
    assert c[..|c|] == c && soft[..|c|] == soft;
    if SumAbs(soft) > 0.0 {
      QuotientBound(Corr(c, soft), SumAbs(soft));
    }
  }

  lemma QuotientBound(x: real, y: real)
    requires y > 0.0 && -y <= x <= y
    ensures -1.0 <= x / y <= 1.0
    ensures x == y ==> x / y == 1.0
  {
    var q := x / y;
    assert q * y == x;
  }

  /** A message heard correlates fully with what arrived where it ends. */
  lemma HeardShare(ring: seq<Cell>, scale: real, o: Over, j: nat)
    requires |ring| == RING && scale > 0.0 && MessageHeard(ring, o, j)
    ensures var soft := SoftBits(ring, scale, SymAt(o, j * MSG_SYMS + MSG_SYMS - 1));
            Share(Codeword(Message(o.r, j, o.chk)), soft) == 1.0
  {
    var end := SymAt(o, j * MSG_SYMS + MSG_SYMS - 1);
    assert Ilv(1) == 77;
    hide SymAt, Message, Codeword, SoftBit, Ilv, MessageHeard, SymbolOf, InRing, Weight, SumAbs, Share;
    var soft := SoftBits(ring, scale, end);
    HeardBit(ring, scale, o, j, 1);
    SumAbsPositive(soft, 1);
    HeardDecodes(ring, scale, o, j);
    ShareBound(Codeword(Message(o.r, j, o.chk)), soft);
  }

  lemma SubSym(o: Over, n: nat, m: nat)
    requires m <= n && n - m < WORD
    ensures Sub32(SymAt(o, n), SymAt(o, m)) == n - m
  {
  }
}
