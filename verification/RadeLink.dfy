/** Transmitter, channel and receiver together, without noise: what the transmitter sends is what
    the receiver needs, and once locked the receiver gives back every frame. */
module RadeLink {
  import opened VoiceCrypto
  import opened RadeCode
  import opened RadeMessage
  import opened RadeScramble
  import opened RadeTransmitter
  import opened RadeReceiver
  import opened RadeLock

  // ---- one phase step over the channel

  lemma ProductThrough(h: Complex, u: Complex, v: Complex)
    ensures Product(Mul(h, u), Mul(h, v)) == Scale(Product(u, v), Norm(h))
  {
    hide Mul;
    ProductAsMul(u, v);
    ProductAsMul(Mul(h, u), Mul(h, v));
    assert Conj(Mul(h, v)) == Mul(Conj(h), Conj(v)) by { ConjMul(h, v); }
    MulAssociates(h, u, Mul(Conj(h), Conj(v)));
    MulSwap(u, Conj(h), Conj(v));
    MulAssociates(h, Conj(h), Mul(u, Conj(v)));
    MulCommutes(h, Conj(h));
    ConjNorm(h);
    RealMul(Norm(h), Mul(u, Conj(v)));
  }

  lemma ProductAsMul(x: Complex, y: Complex)
    ensures Product(x, y) == Mul(x, Conj(y))
  {
  }

  lemma ConjMul(x: Complex, y: Complex)
    ensures Conj(Mul(x, y)) == Mul(Conj(x), Conj(y))
  {
  }

  lemma RealMul(a: real, x: Complex)
    ensures Mul(C(a, 0.0), x) == Scale(x, a)
  {
  }

  lemma ProductScaled(u: Complex, v: Complex, a: real, b: real)
    ensures Product(Scale(u, a), Scale(v, b)) == Scale(Product(u, v), a * b)
  {
    FourFactors(u.re, a, v.re, b);
    FourFactors(u.im, a, v.im, b);
    FourFactors(u.im, a, v.re, b);
    FourFactors(u.re, a, v.im, b);
  }

  lemma FourFactors(x: real, a: real, y: real, b: real)
    ensures (x * a) * (y * b) == (x * y) * (a * b)
  {
  }

  lemma ProductTurned(p: Complex, q: Complex)
    requires Norm(p) == 1.0
    ensures Product(Mul(p, q), p) == q
  {
    hide Mul;
    ProductAsMul(Mul(p, q), p);
    MulCommutes(p, q);
    MulAssociates(q, p, Conj(p));
    MulCommutes(p, Conj(p));
    ConjNorm(p);
    MulCommutes(q, C(1.0, 0.0));
    RealMul(1.0, q);
  }

  /** A symbol as it is received: the transmitter's phasor at its level, times the channel. */
  function Arrives(h: Complex, p: Complex, amp: real, gain: real): Complex {
    Mul(h, Scale(Scale(p, amp), gain))
  }

  lemma PositiveProduct(a: real, b: real)
    requires a > 0.0 && b > 0.0
    ensures a * b > 0.0
  {
  }

  lemma LevelProduct(h: Complex, p: Complex, q: Complex, w1: real, w0: real) returns (w: real)
    requires Norm(p) == 1.0 && Norm(h) > 0.0 && w1 > 0.0 && w0 > 0.0
    ensures w > 0.0 && Product(Mul(h, Scale(Mul(p, q), w1)), Mul(h, Scale(p, w0))) == Scale(q, w)
  {
    hide Product, Mul, Scale, Norm;
    PositiveProduct(w1, w0);
    var m := w1 * w0;
    PositiveProduct(m, Norm(h));
    w := m * Norm(h);
    calc {
      Product(Mul(h, Scale(Mul(p, q), w1)), Mul(h, Scale(p, w0)));
    == { ProductThrough(h, Scale(Mul(p, q), w1), Scale(p, w0)); }
      Scale(Product(Scale(Mul(p, q), w1), Scale(p, w0)), Norm(h));
    == { ProductScaled(Mul(p, q), p, w1, w0); }
      Scale(Scale(Product(Mul(p, q), p), m), Norm(h));
    == { ProductTurned(p, q); }
      Scale(Scale(q, m), Norm(h));
    == { ScaleScale(q, m, Norm(h), w); }
      Scale(q, w);
    }
  }

  /** The product of two consecutive symbols is the phase step, at some positive level. */
  lemma StepProduct(h: Complex, p: Complex, q: Complex, a1: real, a0: real, gain: real) returns (w: real)
    requires Norm(p) == 1.0 && Norm(h) > 0.0 && a1 > 0.0 && a0 > 0.0 && gain > 0.0
    ensures w > 0.0 && Product(Arrives(h, Mul(p, q), a1, gain), Arrives(h, p, a0, gain)) == Scale(q, w)
  {
    hide Product, Mul, Scale, Norm;
    PositiveProduct(a1, gain);
    PositiveProduct(a0, gain);
    ScaleScale(Mul(p, q), a1, gain, a1 * gain);
    ScaleScale(p, a0, gain, a0 * gain);
    w := LevelProduct(h, p, q, a1 * gain, a0 * gain);
  }

  lemma ScaleScale(x: Complex, a: real, b: real, c: real)
    requires c == a * b
    ensures Scale(Scale(x, a), b) == Scale(x, c)
  {
  }

  /** The two bits of the step, as signs of the product. */
  lemma StepReceived(h: Complex, p: Complex, b0: bool, b1: bool, s: real, a1: real, a0: real, gain: real)
    requires Norm(p) == 1.0 && Norm(h) > 0.0 && s > 0.0 && a1 > 0.0 && a0 > 0.0 && gain > 0.0
    ensures var d := Product(Arrives(h, Turn(p, b0, b1, s), a1, gain), Arrives(h, p, a0, gain));
            Signed(b0, d.re) > 0.0 && Signed(b1, d.im) > 0.0
  {
    hide Product, Mul, Norm, Arrives;
    var w := StepProduct(h, p, Quadrant(b0, b1, s), a1, a0, gain);
    PositiveProduct(s, w);
    SignedTimes(b0, s, w);
    SignedTimes(b1, s, w);
  }

  lemma SignedTimes(b: bool, s: real, w: real)
    ensures Signed(b, Signed(b, s) * w) == s * w
  {
    assert -s * w == -(s * w);
  }

  /** Products with the signs of a symbol's slots make its cell clean. */
  lemma CellClean(o: Over, n: nat, slots: seq<bool>, c: Cell)
    requires SlotsHold(slots, Codeword(Message(o.r, n / MSG_SYMS, o.chk)))
    requires Signed(slots[SlotOf(n % MSG_SYMS, 0)], c.d0.re) > 0.0 && Signed(slots[SlotOf(n % MSG_SYMS, 0) + 1], c.d0.im) > 0.0
    requires Signed(slots[SlotOf(n % MSG_SYMS, 1)], c.d1.re) > 0.0 && Signed(slots[SlotOf(n % MSG_SYMS, 1) + 1], c.d1.im) > 0.0
    ensures CleanCell(o, n, c)
  {
    hide Codeword, Message, SlotsHold, Ilv, Part, Signed;
    forall i | 0 <= i < CODED_BITS && Ilv(i) / 4 == n % MSG_SYMS
      ensures Signed(Codeword(Message(o.r, n / MSG_SYMS, o.chk))[i], Part(c, i)) > 0.0
    {
      BitClean(Codeword(Message(o.r, n / MSG_SYMS, o.chk)), n % MSG_SYMS, slots, c, i);
    }
  }

  /** A slot's symbol, carrier and bit. */
  lemma SlotParts(p: nat)
    ensures p == SlotOf(p / 4, p / 2 % NAUX) + p % 2
  {
  }

  lemma BitClean(coded: Coded, q: nat, slots: seq<bool>, c: Cell, i: nat)
    requires SlotsHold(slots, coded) && q < MSG_SYMS && i < CODED_BITS && Ilv(i) / 4 == q
    requires Signed(slots[SlotOf(q, 0)], c.d0.re) > 0.0 && Signed(slots[SlotOf(q, 0) + 1], c.d0.im) > 0.0
    requires Signed(slots[SlotOf(q, 1)], c.d1.re) > 0.0 && Signed(slots[SlotOf(q, 1) + 1], c.d1.im) > 0.0
    ensures Signed(coded[i], Part(c, i)) > 0.0
  {
    assert slots[Ilv(i)] == coded[i];
    hide Ilv, SlotsHold;
    SlotParts(Ilv(i));
    hide SlotOf, Signed;
    assert Ilv(i) / 2 % NAUX == 0 || Ilv(i) / 2 % NAUX == 1;
  }

  lemma RootPositive(s: real)
    requires s >= 0.0 && s * s == 0.5
    ensures s > 0.0
  {
    ZeroSquare(s);
  }

  lemma ZeroSquare(s: real)
    ensures s == 0.0 ==> s * s == 0.0
  {
  }

  /** Where frame k's two symbols are in its message. */
  lemma SymbolPlace(k: nat)
    ensures 2 * k / MSG_SYMS == k / MSG_FRAMES && 2 * k % MSG_SYMS == k % MSG_FRAMES * NS
    ensures (2 * k + 1) / MSG_SYMS == k / MSG_FRAMES && (2 * k + 1) % MSG_SYMS == k % MSG_FRAMES * NS + 1
  {
    var j, f := k / MSG_FRAMES, k % MSG_FRAMES;
    assert 2 * k == j * MSG_SYMS + 2 * f;
  }

  /** The phasor of carrier c turned by the bits of symbol q. */
  function Turned(p: Complex, slots: seq<bool>, q: nat, c: nat, s: real): Complex
    requires |slots| == MSG_SLOTS && q < MSG_SYMS && c < NAUX
  {
    Turn(p, slots[SlotOf(q, c)], slots[SlotOf(q, c) + 1], s)
  }

  lemma PhasorSteps(p: Complex, slots: seq<bool>, q: nat, c: nat, s: real)
    requires |slots| == MSG_SLOTS && q + NS <= MSG_SYMS && c < NAUX
    ensures Phasor(p, slots, q, 1, c, s) == Turned(p, slots, q, c, s)
    ensures Phasor(p, slots, q, 2, c, s) == Turned(Turned(p, slots, q, c, s), slots, q + 1, c, s)
  {
    hide Turn, SlotOf;
    assert Phasor(p, slots, q, 0, c, s) == p;
    assert Phasor(p, slots, q, 1, c, s) == Turned(p, slots, q, c, s);
  }

  /** What a frame's auxiliary symbols are, phasor by phasor. */
  lemma SentSymbols(b: TxState, a: TxState, aux: seq<Complex>, q: nat, s: real)
    requires |aux| == AUX && |b.ref| == NAUX && |a.slots| == MSG_SLOTS && q + NS <= MSG_SYMS
    requires Signals(aux, b.ref, a.ref, a.slots, a.amp, a.gain, q, s)
    ensures var p0, p1 := Turned(b.ref[0], a.slots, q, 0, s), Turned(b.ref[1], a.slots, q, 1, s);
            && aux[0] == Scale(Scale(p0, a.amp), a.gain) && aux[1] == Scale(Scale(p1, a.amp), a.gain)
            && aux[2] == Scale(Scale(Turned(p0, a.slots, q + 1, 0, s), a.amp), a.gain)
            && aux[3] == Scale(Scale(Turned(p1, a.slots, q + 1, 1, s), a.amp), a.gain)
  {
    hide Turned, Scale, Phasor;
    PhasorSteps(b.ref[0], a.slots, q, 0, s);
    PhasorSteps(b.ref[1], a.slots, q, 1, s);
  }

  /** Both carriers of one symbol, received clean. */
  lemma SymbolClean(o: Over, n: nat, slots: seq<bool>, r0: Complex, r1: Complex, s: real, a1: real, a0: real,
                    gain: real, h0: Complex, h1: Complex, t: nat)
    requires SlotsHold(slots, Codeword(Message(o.r, n / MSG_SYMS, o.chk)))
    requires Norm(r0) == 1.0 && Norm(r1) == 1.0 && Norm(h0) > 0.0 && Norm(h1) > 0.0
    requires s > 0.0 && a1 > 0.0 && a0 > 0.0 && gain > 0.0
    ensures var q := n % MSG_SYMS;
            CleanCell(o, n, Cell(t, Product(Arrives(h0, Turned(r0, slots, q, 0, s), a1, gain), Arrives(h0, r0, a0, gain)),
                                    Product(Arrives(h1, Turned(r1, slots, q, 1, s), a1, gain), Arrives(h1, r1, a0, gain))))
  {
    var q := n % MSG_SYMS;
    StepReceived(h0, r0, slots[SlotOf(q, 0)], slots[SlotOf(q, 0) + 1], s, a1, a0, gain);
    StepReceived(h1, r1, slots[SlotOf(q, 1)], slots[SlotOf(q, 1) + 1], s, a1, a0, gain);
    hide Codeword, Message, SlotsHold, Product, Arrives, Turn, Norm, Signed, CleanCell;
    CellClean(o, n, slots, Cell(t, Product(Arrives(h0, Turned(r0, slots, q, 0, s), a1, gain), Arrives(h0, r0, a0, gain)),
                                   Product(Arrives(h1, Turned(r1, slots, q, 1, s), a1, gain), Arrives(h1, r1, a0, gain))));
  }

  /** The frame that took the transmitter from state b to state a, over channel gains h0 and h1 of
      the auxiliary carriers: its second symbol arrives clean, and its first if one came before it. */
  lemma FrameClean(b: TxState, a: TxState, aux: seq<Complex>, s: real, h0: Complex, h1: Complex, o: Over, t: nat)
    requires a.k > 0 && |a.slots| == MSG_SLOTS && |b.ref| == NAUX && |aux| == AUX && a.gain == b.gain
    requires SlotsHold(a.slots, Codeword(Message(a.r, (a.k - 1) / MSG_FRAMES, a.chk)))
    requires Signals(aux, b.ref, a.ref, a.slots, a.amp, a.gain, (a.k - 1) % MSG_FRAMES * NS, s)
    requires a.r == o.r && a.chk == o.chk && s >= 0.0 && s * s == 0.5
    requires Norm(b.ref[0]) == 1.0 && Norm(b.ref[1]) == 1.0
    requires Norm(h0) > 0.0 && Norm(h1) > 0.0 && a.amp > 0.0 && a.gain > 0.0
    ensures var n := 2 * (a.k - 1);
            && (b.amp > 0.0 ==>
                  CleanCell(o, n, Cell(t, Product(Mul(h0, aux[0]), Arrives(h0, b.ref[0], b.amp, b.gain)),
                                          Product(Mul(h1, aux[1]), Arrives(h1, b.ref[1], b.amp, b.gain)))))
            && CleanCell(o, n + 1, Cell(t, Product(Mul(h0, aux[2]), Mul(h0, aux[0])),
                                           Product(Mul(h1, aux[3]), Mul(h1, aux[1]))))
  {
    hide Codeword, Message, SlotsHold, Product, Turned, Norm, CleanCell, Signals, Mul, Scale;
    var k := a.k - 1;
    var q := k % MSG_FRAMES * NS;
    RootPositive(s);
    SymbolPlace(k);
    SentSymbols(b, a, aux, q, s);
    TurnedUnit(b.ref[0], a.slots, q, 0, s);
    TurnedUnit(b.ref[1], a.slots, q, 1, s);
    if b.amp > 0.0 {
      SymbolClean(o, 2 * k, a.slots, b.ref[0], b.ref[1], s, a.amp, b.amp, a.gain, h0, h1, t);
    }
    SymbolClean(o, 2 * k + 1, a.slots, Turned(b.ref[0], a.slots, q, 0, s), Turned(b.ref[1], a.slots, q, 1, s),
                s, a.amp, a.amp, a.gain, h0, h1, t);
  }

  lemma TurnedUnit(p: Complex, slots: seq<bool>, q: nat, c: nat, s: real)
    requires |slots| == MSG_SLOTS && q < MSG_SYMS && c < NAUX && Norm(p) == 1.0 && s * s == 0.5
    ensures Norm(Turned(p, slots, q, c, s)) == 1.0
  {
    TurnUnit(p, slots[SlotOf(q, c)], slots[SlotOf(q, c) + 1], s);
  }

  // ---- the data carriers

  /** The latent as it is received: each carrier's symbols times its gain. */
  ghost predicate ThroughChannel(rx: seq<Complex>, tx: seq<Complex>, h: seq<Complex>) {
    && |rx| == |tx| == LATENT && |h| == NC
    && forall c :: 0 <= c < NC ==> Symbols(rx, c) == Through(h[c], Symbols(tx, c))
  }

  /** Unmixing what was mixed and received gives the latent back, times the carriers' gains. */
  lemma UnmixedReceived(out: seq<Complex>, rx: seq<Complex>, tx: seq<Complex>, latent: seq<Complex>,
                        ks: seq<bool>, an: Analog, h: seq<Complex>)
    requires |ks| == BLOCKS_PER_FRAME * BLOCK_BITS && SquareRoot(an.sqrt)
    requires Scrambled(tx, latent, ks, false, an) && ThroughChannel(rx, tx, h) && Scrambled(out, rx, ks, true, an)
    ensures ThroughChannel(out, latent, h)
  {
    hide Mix, Unmix, Through, SquareRoot, CarrierMatrix, Unitary;
    forall c | 0 <= c < NC
      ensures Symbols(out, c) == Through(h[c], Symbols(latent, c))
    {
      CarrierUnitary(ks[CARRIER_BITS * c..CARRIER_BITS * (c + 1)], an);
      UnmixInverts(Matrix(ks, c, an), h[c], Symbols(latent, c));
    }
  }

  function Faded(tx: seq<Complex>, h: seq<Complex>): (rx: seq<Complex>)
    requires |tx| == LATENT && |h| == NC
    ensures |rx| == LATENT
  {
    seq(NC, c requires 0 <= c < NC => Mul(h[c], tx[c])) + seq(NC, c requires 0 <= c < NC => Mul(h[c], tx[NC + c]))
  }

  lemma FadedThrough(tx: seq<Complex>, h: seq<Complex>)
    requires |tx| == LATENT && |h| == NC
    ensures ThroughChannel(Faded(tx, h), tx, h)
  {
    hide Mul;
  }

  // ---- frame after frame

  /** The symbols of a frame arrive clean, the first one after those of the frame before. */
  lemma FrameArrives(b: TxState, a: TxState, aux: seq<Complex>, an: Analog, h0: Complex, h1: Complex, o: Over)
    requires a.k > 0 && |a.slots| == MSG_SLOTS && |b.ref| == NAUX && |aux| == AUX && a.gain == b.gain
    requires SlotsHold(a.slots, Codeword(Message(a.r, (a.k - 1) / MSG_FRAMES, a.chk)))
    requires Signals(aux, b.ref, a.ref, a.slots, a.amp, a.gain, (a.k - 1) % MSG_FRAMES * NS, an.sqrt(0.5))
    requires a.r == o.r && a.chk == o.chk && SquareRoot(an.sqrt)
    requires Norm(b.ref[0]) == 1.0 && Norm(b.ref[1]) == 1.0
    requires Norm(h0) > 0.0 && Norm(h1) > 0.0 && a.amp > 0.0 && a.gain > 0.0
    ensures var n := 2 * (a.k - 1);
            && (b.amp > 0.0 ==>
                  CleanCell(o, n, Cell(0, Product(Mul(h0, aux[0]), Arrives(h0, b.ref[0], b.amp, b.gain)),
                                          Product(Mul(h1, aux[1]), Arrives(h1, b.ref[1], b.amp, b.gain)))))
            && CleanCell(o, n + 1, Cell(0, Product(Mul(h0, aux[2]), Mul(h0, aux[0])),
                                           Product(Mul(h1, aux[3]), Mul(h1, aux[1]))))
  {
    hide Codeword, Message, SlotsHold, Product, Norm, CleanCell, Signals, Mul, Arrives;
    assert an.sqrt(0.5) >= 0.0 && an.sqrt(0.5) * an.sqrt(0.5) == 0.5;
    hide SquareRoot;
    FrameClean(b, a, aux, an.sqrt(0.5), h0, h1, o, 0);
  }

  lemma LastSymbols(b: TxState, a: TxState, aux: seq<Complex>, q: nat, s: real)
    requires |aux| == AUX && |b.ref| == NAUX && |a.slots| == MSG_SLOTS && q + NS <= MSG_SYMS
    requires Signals(aux, b.ref, a.ref, a.slots, a.amp, a.gain, q, s)
    ensures |a.ref| == NAUX
    ensures aux[2] == Scale(Scale(a.ref[0], a.amp), a.gain) && aux[3] == Scale(Scale(a.ref[1], a.amp), a.gain)
  {
    hide Phasor, Scale;
  }

  /** The level after a frame: positive once some latent had power. */
  lemma NextAmpSign(amp: real, power: real, an: Analog)
    requires SquareRoot(an.sqrt) && amp >= 0.0 && power >= 0.0
    ensures var next := NextAmp(amp, an.sqrt(power / LATENT as real));
      next >= 0.0 && (next > 0.0 <==> amp > 0.0 || power > 0.0)
  {
    var x := power / LATENT as real;
    var rms := an.sqrt(x);
    assert rms >= 0.0 && rms * rms == x;
    ZeroSquare(rms);
    assert power > 0.0 <==> x > 0.0;
    if x == 0.0 {
      RootOfZero(rms);
    }
  }

  lemma RootOfZero(s: real)
    requires s >= 0.0 && s * s == 0.0
    ensures s == 0.0
  {
    NoRoot(s, s, s * s);
  }

  lemma NoRoot(a: real, b: real, q: real)
    requires a >= 0.0 && b >= 0.0 && q == a * b
    ensures a > 0.0 && b > 0.0 ==> q > 0.0
  {
    if a > 0.0 && b > 0.0 {
      PositiveProduct(a, b);
    }
  }

  lemma SentFacts(b: TxState, a: TxState, drawn: set<Nonce>, z: seq<Complex>, latent: seq<Complex>,
                  aux: seq<Complex>, keys: KeyStore, an: Analog, o: Over)
    requires FrameSent(b, a, drawn, z, latent, aux, keys, an) && SquareRoot(an.sqrt) && RightKey(keys, o)
    requires b.k < LAST_FRAME && b.r == o.r && b.amp >= 0.0 && (b.k % MSG_FRAMES != 0 ==> b.chk == o.chk)
    ensures a.k == b.k + 1 && a.r == o.r && a.chk == o.chk && a.gain == b.gain
    ensures a.amp >= 0.0 && (a.amp > 0.0 <==> b.amp > 0.0 || Power(latent) > 0.0)
    ensures |aux| == AUX && |b.ref| == NAUX && |a.slots| == MSG_SLOTS
    ensures OnAir(z, latent, keys, o.r, b.k, an)
    ensures SlotsHold(a.slots, Codeword(Message(a.r, (a.k - 1) / MSG_FRAMES, a.chk)))
    ensures Signals(aux, b.ref, a.ref, a.slots, a.amp, a.gain, (a.k - 1) % MSG_FRAMES * NS, an.sqrt(0.5))
  {
    hide Codeword, Message, SlotsHold, Signals, OnAir, Power, NextAmp, CheckFrom, SquareRoot;
    NextAmpSign(b.amp, Power(latent), an);
  }

  lemma SymNext(o: Over, n: nat)
    requires n >= 1
    ensures SymAt(o, n) == (SymAt(o, n - 1) + 1) % WORD && SymAt(o, n) != SymAt(o, n - 1)
  {
  }

  lemma CellTag(o: Over, n: nat, c: Cell, t: nat)
    requires CleanCell(o, n, c)
    ensures CleanCell(o, n, c.(tag := t))
  {
    hide Codeword, Message, Ilv;
    assert forall i :: 0 <= i < CODED_BITS ==> Part(c.(tag := t), i) == Part(c, i);
  }

  /** With nothing before it, the first symbol of an over comes out as 0. */
  lemma SilenceClean(o: Over, x: Complex, y: Complex)
    ensures CleanCell(o, 0, Cell(0, Product(x, C(0.0, 0.0)), Product(y, C(0.0, 0.0))))
  {
    hide Codeword, Message, Ilv;
    assert Product(x, C(0.0, 0.0)) == C(0.0, 0.0) && Product(y, C(0.0, 0.0)) == C(0.0, 0.0);
  }

  // ---- the receiver, symbol by symbol

  /** The receiver, in whatever state of search or lock, is given symbol n + 1 of the over next, and has
      heard the symbols from first to n. */
  ghost predicate Listening(s: RxState, o: Over, first: nat, n: int)
    requires n >= -1
  {
    && Sound(s) && StatusRight(s) && HeardFrom(s.ring, o, first, n) && !Repeat(s, SymAt(o, n + 1))
    && (first <= n ==> !Gap(s, SymAt(o, n + 1)))
  }

  /** At symbol n it is in step, or looks for a message of the over that it heard whole. */
  ghost predicate Comes(s: RxState, auxOn: bool, o: Over, first: nat, n: nat)
    requires Sound(s)
  {
    n >= 1 && (InStep(s, o, first, n - 1) || (Seeking(s, SymAt(o, n), auxOn, o) && EndsWhole(first, n)))
  }

  lemma NextCallHears(s: RxState, y: seq<Complex>, auxOn: bool, keys: KeyStore, o: Over, first: nat, n: nat)
    requires n < 2 * LAST_FRAME && |y| == AUX && Listening(s, o, first, n - 1)
    requires RightKey(keys, o) && FrameKey(keys, o.r, n / 2).Some?
    requires first <= n ==> CleanCell(o, n, Cell(0, Product(y[2], y[0]), Product(y[3], y[1])))
    ensures Sound(s) && Hears(s, y, SymAt(o, n), o, first, n)
    ensures Comes(s, auxOn, o, first, n) ==> CleanCall(s, y, SymAt(o, n), auxOn, keys, o, first, n)
  {
    hide CleanCell, Product, HeardFrom, RightKey, FrameKey, Sub32, SymAt, Seeking, Gap, Repeat;
    if first <= n {
      CellTag(o, n, Cell(0, Product(y[2], y[0]), Product(y[3], y[1])), (SymAt(o, n) + 1) % WORD);
    }
  }

  /** The receiver knows the channel as clear and has found no message: it searches once the power test
      has been on for RX_FLIP_SYMS symbols. */
  predicate Waiting(s: RxState) {
    !s.locked && !s.aligned && s.msgs == 0 && s.clearShown
  }

  predicate WaitsOn(s: RxState, auxOn: bool) {
    Waiting(s) && !(auxOn && s.auxRun + 1 >= RX_FLIP_SYMS)
  }

  lemma StillWaiting(s: RxState, y: seq<Complex>, sym: nat, auxOn: bool, sqrt: real -> real, haveKey: bool)
    requires Sound(s) && |y| == AUX && sym < WORD && WaitsOn(s, auxOn)
    ensures !EncWith(s, auxOn) && !s.locked
    ensures var t := WithStatus(TookIn(s, y, sym, auxOn, sqrt), haveKey);
      Waiting(t) && t.auxRun == if auxOn then s.auxRun + 1 else 0
  {
    hide Product, Norm;
  }

  /** The receiver's call for symbol n of the over. */
  method HearSymbol(rx: RadeRx, z: array<Complex>, y: seq<Complex>, sym: nat, keys: KeyStore, an: Analog, haveKey: bool,
                    auxOn: bool, ghost o: Over, ghost first: nat, ghost n: nat)
    requires n < 2 * LAST_FRAME && |y| == AUX && z.Length == LATENT && sym == SymAt(o, n)
    requires Listening(rx.s, o, first, n - 1) && Sound(rx.s) && Told(rx.s, rx.log)
    requires RightKey(keys, o) && FrameKey(keys, o.r, n / 2).Some?
    requires first <= n ==> CleanCell(o, n, Cell(0, Product(y[2], y[0]), Product(y[3], y[1])))
    modifies rx, z
    ensures Listening(rx.s, o, first, n) && Sound(rx.s) && Told(rx.s, rx.log) && !Gap(rx.s, SymAt(o, n + 1))
    ensures Comes(old(rx.s), auxOn, o, first, n) ==>
      && InStep(rx.s, o, first, n)
      && (n % 2 == 1 ==> Scrambled(z[..], old(z[..]), FrameKey(keys, o.r, n / 2).value, true, an))
    ensures WaitsOn(old(rx.s), auxOn) && !Gap(old(rx.s), sym) ==>
      Waiting(rx.s) && rx.s.auxRun == if auxOn then old(rx.s).auxRun + 1 else 0
  {
    hide CleanCell, Product, InStep, HeardFrom, RightKey, FrameKey, Sub32, Sound, StatusRight, CleanCall, Hears, Comes,
      Scrambled, FrameAt, Gap, Repeat, TookIn, WithStatus, EncWith, Waiting, Told, MixedUnder;
    NextCallHears(rx.s, y, auxOn, keys, o, first, n);
    ghost var comes := Comes(rx.s, auxOn, o, first, n);
    if WaitsOn(rx.s, auxOn) {
      StillWaiting(rx.s, y, sym, auxOn, an.sqrt, haveKey);
    }
    var align := rx.Symbol(z, y, sym, auxOn, haveKey, keys, an, o, first, n);
    NewSymbolNext(rx.s, o, n);
    if comes {
      StepNonce(rx.s, o, first, n);
    }
  }

  /** After a symbol, the next one is new and not far off. */
  lemma NewSymbolNext(s: RxState, o: Over, n: nat)
    requires Sound(s) && s.lastSym == SymAt(o, n)
    ensures !Repeat(s, SymAt(o, n + 1)) && !Gap(s, SymAt(o, n + 1))
  {
    SymNext(o, n + 1);
    SubSym(o, n + 1, n);
    hide SymAt, Sub32;
  }

  lemma StepNonce(s: RxState, o: Over, first: nat, n: nat)
    requires InStep(s, o, first, n)
    ensures s.r == o.r
  {
  }

  // ---- frame after frame

  /** What comes with a frame: its latent, the gains of its carriers, what the receiver is given between
      this frame's symbols and the last one's, the power test at each symbol, and whether there is a key. */
  datatype Input = Input(latent: seq<Complex>, h: seq<Complex>, between: seq<Complex>, on0: bool, on1: bool, haveKey: bool)

  predicate Formed(x: Input) {
    |x.latent| == |x.between| == LATENT && |x.h| == NC
  }

  /** The symbol from which on the receiver heard the over, after frame k: where it began to hear it, this
      frame's second symbol if it hears it now, its first one if it is the over's and silence was before. */
  function Onset(first: nat, k: nat, loud: bool, silence: bool): nat {
    if first < 2 * k then first
    else if !loud then 2 * k + 2
    else if k == 0 && silence then 0
    else 2 * k + 1
  }

  /** The receiver listens to the transmitter's next frame; it has heard symbols from first on, or, if
      first is the next one, none yet. */
  ghost predicate Linked(t: TxState, s: RxState, o: Over, first: nat) {
    && t.r == o.r && (t.k % MSG_FRAMES != 0 ==> t.chk == o.chk) && t.gain > 0.0 && t.amp >= 0.0
    && first <= 2 * t.k && (first < 2 * t.k ==> t.amp > 0.0)
    && Listening(s, o, first, 2 * t.k - 1)
  }

  /** The last auxiliary symbols, as received. */
  ghost predicate LastHeard(y: seq<Complex>, t: TxState, h0: Complex, h1: Complex, first: nat) {
    && |y| == NAUX
    && (first < 2 * t.k ==>
          && |t.ref| == NAUX
          && y == [Arrives(h0, t.ref[0], t.amp, t.gain), Arrives(h1, t.ref[1], t.amp, t.gain)])
  }

  ghost predicate KeyFor(keys: KeyStore, o: Over) {
    RightKey(keys, o) && forall k: nat :: k < LAST_FRAME ==> FrameKey(keys, o.r, k).Some?
  }

  predicate Silence(y: seq<Complex>) {
    y == [C(0.0, 0.0), C(0.0, 0.0)]
  }

  /** The symbols of a frame are clean from the onset on. */
  lemma FrameHeard(b: TxState, a: TxState, aux: seq<Complex>, an: Analog, h0: Complex, h1: Complex, o: Over, first: nat,
                   last: seq<Complex>)
    requires a.k == b.k + 1 && |a.slots| == MSG_SLOTS && |b.ref| == NAUX && |aux| == AUX && a.gain == b.gain
    requires SlotsHold(a.slots, Codeword(Message(a.r, (a.k - 1) / MSG_FRAMES, a.chk)))
    requires Signals(aux, b.ref, a.ref, a.slots, a.amp, a.gain, (a.k - 1) % MSG_FRAMES * NS, an.sqrt(0.5))
    requires a.r == o.r && a.chk == o.chk && SquareRoot(an.sqrt)
    requires Norm(b.ref[0]) == 1.0 && Norm(b.ref[1]) == 1.0 && Norm(h0) > 0.0 && Norm(h1) > 0.0 && a.gain > 0.0
    requires a.amp >= 0.0 && LastHeard(last, b, h0, h1, first) && (first < 2 * b.k ==> b.amp > 0.0 && a.amp > 0.0)
    requires first == Onset(first, b.k, a.amp > 0.0, Silence(last))
    ensures first <= 2 * b.k ==>
      CleanCell(o, 2 * b.k, Cell(0, Product(Mul(h0, aux[0]), last[0]), Product(Mul(h1, aux[1]), last[1])))
    ensures first <= 2 * b.k + 1 ==>
      CleanCell(o, 2 * b.k + 1, Cell(0, Product(Mul(h0, aux[2]), Mul(h0, aux[0])), Product(Mul(h1, aux[3]), Mul(h1, aux[1]))))
  {
    hide Codeword, Message, SlotsHold, Product, Norm, CleanCell, Signals, Mul, Arrives, SquareRoot;
    if a.amp > 0.0 {
      FrameArrives(b, a, aux, an, h0, h1, o);
      SilenceClean(o, Mul(h0, aux[0]), Mul(h1, aux[1]));
    }
  }

  /** A receiver that has nothing behind it to have heard listens from any later symbol on. */
  lemma ListensFrom(s: RxState, o: Over, first: nat, later: nat, n: int)
    requires n >= -1 && Listening(s, o, first, n) && (later == first || (later > n && later > first))
    ensures Listening(s, o, later, n) && Sound(s)
  {
    hide Heard, Gap, Repeat, Sound, StatusRight, SymAt;
  }

  /** Both calls of a frame; mid is the receiver between them. */
  method HearFrame(rx: RadeRx, sent: seq<Complex>, aux: seq<Complex>, last: seq<Complex>, x: Input, h0: Complex, h1: Complex,
                   sym: nat, keys: KeyStore, an: Analog, ghost o: Over, ghost first: nat, ghost k: nat)
    returns (out: seq<Complex>, ghost mid: RxState)
    requires k < LAST_FRAME && SquareRoot(an.sqrt) && KeyFor(keys, o) && sym == SymAt(o, 2 * k) && Formed(x)
    requires Listening(rx.s, o, first, 2 * k - 1) && Sound(rx.s) && Told(rx.s, rx.log)
    requires |sent| == LATENT && |aux| == AUX && |last| == NAUX && OnAir(sent, x.latent, keys, o.r, k, an)
    requires first <= 2 * k ==>
      CleanCell(o, 2 * k, Cell(0, Product(Mul(h0, aux[0]), last[0]), Product(Mul(h1, aux[1]), last[1])))
    requires first <= 2 * k + 1 ==>
      CleanCell(o, 2 * k + 1, Cell(0, Product(Mul(h0, aux[2]), Mul(h0, aux[0])), Product(Mul(h1, aux[3]), Mul(h1, aux[1]))))
    modifies rx
    ensures Listening(rx.s, o, first, 2 * k + 1) && Listening(mid, o, first, 2 * k) && Sound(mid) && Sound(rx.s)
    ensures Told(rx.s, rx.log)
    ensures !Gap(rx.s, SymAt(o, 2 * k + 2))
    ensures k > 0 && InStep(old(rx.s), o, first, 2 * k - 1) ==> InStep(mid, o, first, 2 * k)
    ensures Comes(mid, x.on1, o, first, 2 * k + 1) ==>
      InStep(rx.s, o, first, 2 * k + 1) && ThroughChannel(out, x.latent, x.h)
    ensures WaitsOn(old(rx.s), x.on0) && !Gap(old(rx.s), sym) ==>
      Waiting(mid) && mid.auxRun == if x.on0 then old(rx.s).auxRun + 1 else 0
    ensures WaitsOn(mid, x.on1) ==> Waiting(rx.s) && rx.s.auxRun == if x.on1 then mid.auxRun + 1 else 0
  {
    hide CleanCell, Product, FrameKey, Scrambled, InStep, Seeking, Faded, ThroughChannel, SquareRoot, Mul, Waiting, Gap, Sound,
      Listening, RightKey, Told;
    KeyAt(keys, o, k);
    FrameSymbols(o, k);
    var w := new Complex[LATENT](i requires 0 <= i < LATENT => x.between[i]);
    HearSymbol(rx, w, [last[0], last[1], Mul(h0, aux[0]), Mul(h1, aux[1])], sym, keys, an, x.haveKey, x.on0, o, first, 2 * k);
    mid := rx.s;
    var faded := Faded(sent, x.h);
    var z := new Complex[LATENT](i requires 0 <= i < LATENT => faded[i]);
    assert z[..] == faded;
    HearSymbol(rx, z, [Mul(h0, aux[0]), Mul(h1, aux[1]), Mul(h0, aux[2]), Mul(h1, aux[3])], (sym + 1) % WORD, keys, an,
               x.haveKey, x.on1, o, first, 2 * k + 1);
    out := z[..];
    if Comes(mid, x.on1, o, first, 2 * k + 1) {
      FadedThrough(sent, x.h);
      UnmixedReceived(out, faded, sent, x.latent, FrameKey(keys, o.r, k).value, an, x.h);
    }
  }

  lemma KeyAt(keys: KeyStore, o: Over, k: nat)
    requires KeyFor(keys, o) && k < LAST_FRAME
    ensures RightKey(keys, o) && FrameKey(keys, o.r, k).Some? && FrameKey(keys, o.r, 2 * k / 2).Some?
    ensures FrameKey(keys, o.r, (2 * k + 1) / 2) == FrameKey(keys, o.r, k)
  {
    hide FrameKey, RightKey;
    assert 2 * k / 2 == k && (2 * k + 1) / 2 == k;
  }

  lemma FrameSymbols(o: Over, k: nat)
    ensures SymAt(o, 2 * k + 1) == (SymAt(o, 2 * k) + 1) % WORD
  {
    SymNext(o, 2 * k + 1);
  }

  predicate NoGap(s: RxState, sym: nat) {
    s.lastSym < WORD && sym < WORD && !Gap(s, sym)
  }

  /** A frame passed: the transmitter went from t0 to t, the receiver from s0 by mid to s. It is in step
      after the frame if it was before, or if in the middle of it it looks for a message that it heard whole
      and that ends here; then the frame came out. */
  ghost predicate Passed(t0: TxState, s0: RxState, mid: RxState, t: TxState, s: RxState, x: Input, out: seq<Complex>,
                         next: seq<Complex>, last: seq<Complex>, o: Over, first: nat, h0: Complex, h1: Complex)
    requires Sound(mid)
  {
    var k := t0.k;
    var f := Onset(first, k, t.amp > 0.0, Silence(last));
    && t.k == k + 1 && (t.amp > 0.0 <==> t0.amp > 0.0 || Power(x.latent) > 0.0)
    && Sound(s) && NoGap(s, SymAt(o, 2 * t.k))
    && Linked(t, s, o, f) && LastHeard(next, t, h0, h1, f) && Listening(mid, o, f, 2 * k)
    && (k > 0 && InStep(s0, o, first, 2 * k - 1) ==> f == first && InStep(mid, o, f, 2 * k))
    && (Comes(mid, x.on1, o, f, 2 * k + 1) ==> InStep(s, o, f, 2 * k + 1) && ThroughChannel(out, x.latent, x.h))
  }

  /** One frame from transmitter to receiver, in whatever state of search or lock the receiver is. */
  method PassFrame(tx: RadeTx, rx: RadeRx, x: Input, h0: Complex, h1: Complex, last: seq<Complex>, sym: nat,
                   keys: KeyStore, an: Analog, ghost o: Over, ghost first: nat)
    returns (out: seq<Complex>, next: seq<Complex>, ghost mid: RxState)
    requires tx.Valid() && tx.encrypt && !tx.failClosed && tx.k < LAST_FRAME && SquareRoot(an.sqrt) && KeyFor(keys, o)
    requires Linked(tx.State(), rx.s, o, first) && LastHeard(last, tx.State(), h0, h1, first) && Sound(rx.s)
    requires Told(rx.s, rx.log)
    requires Formed(x) && Norm(h0) > 0.0 && Norm(h1) > 0.0 && sym == SymAt(o, 2 * tx.k)
    modifies tx, rx
    ensures tx.Valid() && tx.encrypt && !tx.failClosed && tx.k == old(tx.k) + 1 && Sound(mid) && Told(rx.s, rx.log)
    ensures Passed(old(tx.State()), old(rx.s), mid, tx.State(), rx.s, x, out, next, last, o, first, h0, h1)
    ensures WaitsOn(old(rx.s), x.on0) && !Gap(old(rx.s), sym) ==>
      Waiting(mid) && mid.auxRun == if x.on0 then old(rx.s).auxRun + 1 else 0
    ensures WaitsOn(mid, x.on1) ==> Waiting(rx.s) && rx.s.auxRun == if x.on1 then mid.auxRun + 1 else 0
  {
    hide Norm, CleanCell, Mul, SquareRoot, ThroughChannel, Product, Waiting, Gap, Logged, Below, SlotsHold, OnAir, KeyFor, Power,
      Comes, Sound, Listening, InStep, LastHeard, Passed, Onset, SymAt, Told;
    LastLength(last, tx.State(), h0, h1, first);
    ghost var b, s0 := tx.State(), rx.s;
    var sent, aux := Send(tx, x, h0, h1, last, keys, an, o, first);
    ghost var f := Onset(first, b.k, tx.amp > 0.0, Silence(last));
    OnsetLater(first, b.k, tx.amp > 0.0, Silence(last));
    ListensFrom(s0, o, first, f, 2 * b.k - 1);
    out, mid := HearFrame(rx, sent, aux, last, x, h0, h1, sym, keys, an, o, f, b.k);
    PassedBy(b, s0, mid, tx.State(), rx.s, x, out, [Mul(h0, aux[2]), Mul(h1, aux[3])], last, o, first, h0, h1);
    next := [Mul(h0, aux[2]), Mul(h1, aux[3])];
  }

  /** The transmitter's side of a frame. */
  method Send(tx: RadeTx, x: Input, h0: Complex, h1: Complex, last: seq<Complex>, keys: KeyStore, an: Analog, ghost o: Over,
              ghost first: nat)
    returns (sent: seq<Complex>, aux: seq<Complex>)
    requires tx.Valid() && tx.encrypt && !tx.failClosed && tx.k < LAST_FRAME && SquareRoot(an.sqrt) && KeyFor(keys, o)
    requires tx.r == o.r && (tx.k % MSG_FRAMES != 0 ==> tx.chk == o.chk) && tx.gain > 0.0 && tx.amp >= 0.0
    requires first <= 2 * tx.k && (first < 2 * tx.k ==> tx.amp > 0.0) && LastHeard(last, tx.State(), h0, h1, first)
    requires Formed(x) && Norm(h0) > 0.0 && Norm(h1) > 0.0
    modifies tx
    ensures tx.Valid() && tx.encrypt && !tx.failClosed && tx.k == old(tx.k) + 1
    ensures tx.r == o.r && tx.chk == o.chk && tx.gain == old(tx.gain)
    ensures tx.amp >= 0.0 && (tx.amp > 0.0 <==> old(tx.amp) > 0.0 || Power(x.latent) > 0.0)
    ensures |sent| == LATENT && |aux| == AUX && OnAir(sent, x.latent, keys, o.r, old(tx.k), an)
    ensures var k := old(tx.k);
      var f := Onset(first, k, tx.amp > 0.0, Silence(last));
      && (f <= 2 * k ==>
            CleanCell(o, 2 * k, Cell(0, Product(Mul(h0, aux[0]), last[0]), Product(Mul(h1, aux[1]), last[1]))))
      && (f <= 2 * k + 1 ==>
            CleanCell(o, 2 * k + 1,
                      Cell(0, Product(Mul(h0, aux[2]), Mul(h0, aux[0])), Product(Mul(h1, aux[3]), Mul(h1, aux[1])))))
      && LastHeard([Mul(h0, aux[2]), Mul(h1, aux[3])], tx.State(), h0, h1, f)
  {
    hide Norm, CleanCell, Mul, CheckFrom, FrameSent, SquareRoot, FrameKey, Silent, Product, Logged, Below, FrameBlocks, SlotsHold,
      OnAir, Signals, Codeword, Message, Scale, RightKey, Power;
    KeyAt(keys, o, tx.k);
    HasKeyNow(keys, o);
    var z, a := new Complex[LATENT](i requires 0 <= i < LATENT => x.latent[i]), new Complex[AUX](_ => C(0.0, 0.0));
    assert z[..] == x.latent;
    ghost var b, drawn := tx.State(), tx.drawn;
    tx.Frame(z, a, keys, None, an);
    sent, aux := z[..], a[..];
    SentFacts(b, tx.State(), drawn, sent, x.latent, aux, keys, an, o);
    LastSymbols(b, tx.State(), aux, (tx.k - 1) % MSG_FRAMES * NS, an.sqrt(0.5));
    FrameHeard(b, tx.State(), aux, an, h0, h1, o, Onset(first, b.k, tx.amp > 0.0, Silence(last)), last);
  }

  lemma LastLength(y: seq<Complex>, t: TxState, h0: Complex, h1: Complex, first: nat)
    requires LastHeard(y, t, h0, h1, first)
    ensures |y| == NAUX
  {
  }

  lemma OnsetLater(first: nat, k: nat, loud: bool, silence: bool)
    requires first <= 2 * k
    ensures var f := Onset(first, k, loud, silence); f == first || (f > 2 * k - 1 && f > first)
  {
  }

  lemma PassedBy(t0: TxState, s0: RxState, mid: RxState, t: TxState, s: RxState, x: Input, out: seq<Complex>,
                 next: seq<Complex>, last: seq<Complex>, o: Over, first: nat, h0: Complex, h1: Complex)
    requires Sound(mid) && Sound(s) && Linked(t0, s0, o, first) && t.k == t0.k + 1
    requires t.r == o.r && t.chk == o.chk && t.gain == t0.gain && t.amp >= 0.0
    requires t.amp > 0.0 <==> t0.amp > 0.0 || Power(x.latent) > 0.0
    requires !Gap(s, SymAt(o, 2 * t0.k + 2))
    requires var f := Onset(first, t0.k, t.amp > 0.0, Silence(last));
      && LastHeard(next, t, h0, h1, f) && Listening(mid, o, f, 2 * t0.k) && Listening(s, o, f, 2 * t0.k + 1)
      && (t0.k > 0 && InStep(s0, o, f, 2 * t0.k - 1) ==> InStep(mid, o, f, 2 * t0.k))
      && (Comes(mid, x.on1, o, f, 2 * t0.k + 1) ==> InStep(s, o, f, 2 * t0.k + 1) && ThroughChannel(out, x.latent, x.h))
    ensures Passed(t0, s0, mid, t, s, x, out, next, last, o, first, h0, h1)
  {
    hide Listening, InStep, Comes, ThroughChannel, Gap, LastHeard, Power;
    assert 2 * t.k == 2 * t0.k + 2;
    if t0.k > 0 && InStep(s0, o, first, 2 * t0.k - 1) {
      StepHeard(s0, o, first, t0.k);
    }
  }

  lemma HasKeyNow(keys: KeyStore, o: Over)
    requires RightKey(keys, o)
    ensures keys(RadeSignal, o.r, 0).Some?
  {
  }

  lemma StepHeard(s: RxState, o: Over, first: nat, k: nat)
    requires k > 0 && InStep(s, o, first, 2 * k - 1)
    ensures first < 2 * k
  {
  }

  // ---- whole overs

  /** Some latent of the first i frames had power. */
  ghost predicate Loud(xs: seq<Input>, i: nat)
    requires i <= |xs|
  {
    exists j :: 0 <= j < i && Power(xs[j].latent) > 0.0
  }

  /** Where a stretch of an over begins: at frame k, the transmitter's level positive or not, symbols heard
      from first on, and whether silence came before it. */
  datatype Start = Start(k: nat, first: nat, loud: bool, silence: bool)

  /** The symbol from which on the over is heard, after i frames of the stretch. */
  ghost function HeardSince(xs: seq<Input>, b: Start, i: nat): nat
    requires i <= |xs|
  {
    if i == 0 then b.first else Onset(HeardSince(xs, b, i - 1), b.k + i - 1, b.loud || Loud(xs, i), b.silence)
  }

  lemma LoudNext(xs: seq<Input>, i: nat)
    requires i < |xs|
    ensures Loud(xs, i + 1) <==> Loud(xs, i) || Power(xs[i].latent) > 0.0
    ensures !Loud(xs, 0)
  {
    hide Power;
  }

  /** At the second symbol of frame i of the stretch a message of the over ends, heard whole, and the
      receiver looks for it. */
  ghost predicate Finds(mid: RxState, xs: seq<Input>, o: Over, b: Start, i: nat)
    requires i < |xs| && Sound(mid)
  {
    var n := 2 * (b.k + i) + 1;
    Seeking(mid, SymAt(o, n), xs[i].on1, o) && EndsWhole(HeardSince(xs, b, i + 1), n)
  }

  ghost predicate AllSound(mids: seq<RxState>) {
    forall k :: 0 <= k < |mids| ==> Sound(mids[k])
  }

  /** It did so at one of the first i frames. */
  ghost predicate FoundBy(mids: seq<RxState>, xs: seq<Input>, o: Over, b: Start, i: nat)
    requires i <= |mids| <= |xs| && AllSound(mids)
  {
    exists j :: 0 <= j < i && Finds(mids[j], xs, o, b, j)
  }

  lemma FoundNext(mids: seq<RxState>, mid: RxState, xs: seq<Input>, o: Over, b: Start)
    requires |mids| < |xs| && Sound(mid) && AllSound(mids)
    ensures AllSound(mids + [mid])
    ensures forall i :: 0 <= i <= |mids| ==> FoundBy(mids + [mid], xs, o, b, i) == FoundBy(mids, xs, o, b, i)
    ensures FoundBy(mids + [mid], xs, o, b, |mids| + 1) <==>
      FoundBy(mids, xs, o, b, |mids|) || Finds(mid, xs, o, b, |mids|)
  {
    hide Sound, Finds;
    var all := mids + [mid];
    assert all[|mids|] == mid && forall j :: 0 <= j < |mids| ==> all[j] == mids[j];
  }

  /** The receiver is in step after i frames. */
  ghost predicate Reaches(s: RxState, xs: seq<Input>, o: Over, b: Start, i: nat)
    requires i <= |xs|
  {
    b.k + i > 0 && InStep(s, o, HeardSince(xs, b, i), 2 * (b.k + i) - 1)
  }

  // ---- a receiver that is sure to search in time

  /** The power test at symbol m of the stretch. */
  predicate PowerAt(xs: seq<Input>, m: nat)
    requires m < 2 * |xs|
  {
    if m % 2 == 0 then xs[m / 2].on0 else xs[m / 2].on1
  }

  /** The power test goes on RX_FLIP_SYMS symbols before symbol e of the stretch is over, and stays on until
      then. */
  ghost predicate Timed(xs: seq<Input>, e: nat) {
    e < 2 * |xs| && e >= RX_FLIP_SYMS && e % 2 == 1 && forall m: nat :: m <= e ==> (PowerAt(xs, m) <==> m + RX_FLIP_SYMS > e)
  }

  /** How long it has been on after symbol m. */
  function RunAfter(e: nat, m: nat): nat {
    if m + RX_FLIP_SYMS > e then m + RX_FLIP_SYMS - e else 0
  }

  /** A receiver that waits for symbol e, after the symbols before m. */
  ghost predicate Awaits(s: RxState, e: nat, m: nat) {
    Waiting(s) && (m > 0 ==> s.auxRun == RunAfter(e, m - 1))
  }

  lemma AwaitsOn(s: RxState, xs: seq<Input>, e: nat, m: nat)
    requires Timed(xs, e) && m < e && Awaits(s, e, m)
    ensures WaitsOn(s, PowerAt(xs, m))
    ensures RunAfter(e, m) == if PowerAt(xs, m) then s.auxRun + 1 else 0
  {
    hide Waiting;
    assert PowerAt(xs, m) <==> m + RX_FLIP_SYMS > e;
  }

  /** Symbol e of the stretch ends a message heard whole. */
  ghost predicate WholeAt(xs: seq<Input>, b: Start, e: nat)
    requires e < 2 * |xs|
  {
    EndsWhole(HeardSince(xs, b, e / 2 + 1), 2 * b.k + e)
  }

  /** Then, when symbol e comes, it is looked for. */
  lemma AwaitedFound(mid: RxState, xs: seq<Input>, o: Over, b: Start, e: nat)
    requires Timed(xs, e) && Sound(mid) && Awaits(mid, e, e) && WholeAt(xs, b, e)
    ensures Finds(mid, xs, o, b, e / 2)
  {
    hide HeardSince, SymAt, Sound;
    assert PowerAt(xs, e);
    assert 2 * (b.k + e / 2) + 1 == 2 * b.k + e;
  }

  /** Both symbols of a frame, for a receiver that waits. */
  lemma WaitOn(s0: RxState, mid: RxState, s: RxState, xs: seq<Input>, o: Over, b: Start, e: nat, i: nat)
    requires Timed(xs, e) && i < |xs| && 2 * i < e && Sound(mid) && Awaits(s0, e, 2 * i)
    requires WaitsOn(s0, xs[i].on0) ==> Waiting(mid) && mid.auxRun == if xs[i].on0 then s0.auxRun + 1 else 0
    requires WaitsOn(mid, xs[i].on1) ==> Waiting(s) && s.auxRun == if xs[i].on1 then mid.auxRun + 1 else 0
    ensures 2 * (i + 1) < e ==> Awaits(s, e, 2 * (i + 1))
    ensures 2 * (i + 1) > e && WholeAt(xs, b, e) ==> i == e / 2 && Finds(mid, xs, o, b, i)
  {
    hide WholeAt, Finds, Sound, Timed, Waiting;
    PowerOf(xs, i);
    TimedOdd(xs, e);
    AwaitsOn(s0, xs, e, 2 * i);
    if 2 * i + 1 < e {
      AwaitsOn(mid, xs, e, 2 * i + 1);
    } else if WholeAt(xs, b, e) {
      AwaitedFound(mid, xs, o, b, e);
    }
  }

  lemma PowerOf(xs: seq<Input>, i: nat)
    requires i < |xs|
    ensures PowerAt(xs, 2 * i) == xs[i].on0 && PowerAt(xs, 2 * i + 1) == xs[i].on1
  {
    assert 2 * i / 2 == i && (2 * i + 1) / 2 == i && 2 * i % 2 == 0 && (2 * i + 1) % 2 == 1;
  }

  lemma TimedOdd(xs: seq<Input>, e: nat)
    requires Timed(xs, e)
    ensures e % 2 == 1 && e < 2 * |xs|
  {
  }

  /** A receiver that waits for symbol e, or has found the message it ends. */
  ghost predicate Awaiting(s: RxState, mids: seq<RxState>, xs: seq<Input>, o: Over, b: Start, e: nat)
    requires |mids| <= |xs| && AllSound(mids)
  {
    && e < 2 * |xs| && (2 * |mids| < e ==> Awaits(s, e, 2 * |mids|))
    && (2 * |mids| > e && WholeAt(xs, b, e) ==> FoundBy(mids, xs, o, b, e / 2 + 1))
  }

  lemma AwaitingNext(s0: RxState, mids: seq<RxState>, mid: RxState, s: RxState, xs: seq<Input>, o: Over, b: Start, e: nat)
    requires |mids| < |xs| && AllSound(mids) && Timed(xs, e) && Awaiting(s0, mids, xs, o, b, e) && Sound(mid)
    requires var x := xs[|mids|];
      WaitsOn(s0, x.on0) ==> Waiting(mid) && mid.auxRun == if x.on0 then s0.auxRun + 1 else 0
    requires var x := xs[|mids|];
      WaitsOn(mid, x.on1) ==> Waiting(s) && s.auxRun == if x.on1 then mid.auxRun + 1 else 0
    ensures AllSound(mids + [mid]) && Awaiting(s, mids + [mid], xs, o, b, e)
  {
    hide Sound, WholeAt, FoundBy, Finds, Timed, Awaits, Waiting;
    var i := |mids|;
    FoundNext(mids, mid, xs, o, b);
    TimedOdd(xs, e);
    if 2 * i < e {
      WaitOn(s0, mid, s, xs, o, b, e, i);
    }
  }

  // ---- what a stretch of frames gives

  /** What came out of the frames so far, and the receiver in the middle of each; there says that it was in
      step from the start. */
  ghost predicate Recorded(heard: seq<seq<Complex>>, mids: seq<RxState>, xs: seq<Input>, o: Over, b: Start, there: bool)
    requires |heard| == |mids| <= |xs| && AllSound(mids)
  {
    && (forall k :: 0 <= k < |mids| ==> Listening(mids[k], o, HeardSince(xs, b, k + 1), 2 * (b.k + k)))
    && forall k :: 0 <= k < |mids| && (there || FoundBy(mids, xs, o, b, k + 1)) ==>
         ThroughChannel(heard[k], xs[k].latent, xs[k].h)
  }

  lemma RecordedNext(heard: seq<seq<Complex>>, mids: seq<RxState>, out: seq<Complex>, mid: RxState, xs: seq<Input>, o: Over,
                     b: Start, there: bool)
    requires |heard| == |mids| < |xs| && AllSound(mids) && Recorded(heard, mids, xs, o, b, there) && Sound(mid)
    requires Listening(mid, o, HeardSince(xs, b, |mids| + 1), 2 * (b.k + |mids|))
    requires there || FoundBy(mids, xs, o, b, |mids|) || Finds(mid, xs, o, b, |mids|) ==>
      ThroughChannel(out, xs[|mids|].latent, xs[|mids|].h)
    ensures AllSound(mids + [mid]) && Recorded(heard + [out], mids + [mid], xs, o, b, there)
  {
    hide Sound, Listening, HeardSince, FoundBy, ThroughChannel, Finds;
    FoundNext(mids, mid, xs, o, b);
  }

  /** A receiver in step stays so, and one that finds a message comes into step. */
  lemma StepOn(s0: RxState, mid: RxState, s: RxState, xs: seq<Input>, o: Over, b: Start, i: nat, found: bool)
    requires i < |xs| && Sound(mid) && (found ==> Reaches(s0, xs, o, b, i))
    requires b.k + i > 0 && InStep(s0, o, HeardSince(xs, b, i), 2 * (b.k + i) - 1) ==>
      InStep(mid, o, HeardSince(xs, b, i + 1), 2 * (b.k + i))
    ensures found || Finds(mid, xs, o, b, i) ==>
      Comes(mid, xs[i].on1, o, HeardSince(xs, b, i + 1), 2 * (b.k + i) + 1)
    ensures InStep(s, o, HeardSince(xs, b, i + 1), 2 * (b.k + i) + 1) ==> Reaches(s, xs, o, b, i + 1)
  {
    hide HeardSince, InStep, Seeking, EndsWhole, Sound, SymAt;
    assert 2 * (b.k + i + 1) - 1 == 2 * (b.k + i) + 1;
  }

  lemma SinceNext(xs: seq<Input>, b: Start, i: nat, y: seq<Complex>)
    requires i < |xs| && (i == 0 ==> b.silence == Silence(y))
    ensures HeardSince(xs, b, i + 1) == Onset(HeardSince(xs, b, i), b.k + i, b.loud || Loud(xs, i + 1), Silence(y))
  {
    hide Loud;
  }

  lemma TwoOn(o: Over, k: nat)
    ensures SymAt(o, 2 * (k + 1)) == (SymAt(o, 2 * k) + 2) % WORD
  {
  }

  lemma AtFirst(s: RxState, xs: seq<Input>, o: Over, b: Start, e: nat, there: bool)
    ensures AllSound([]) && Recorded([], [], xs, o, b, there) && !FoundBy([], xs, o, b, 0)
    ensures Waiting(s) && e < 2 * |xs| ==> Awaiting(s, [], xs, o, b, e)
    ensures HeardSince(xs, b, 0) == b.first && !Loud(xs, 0)
  {
    hide Finds, Power;
  }

  /** A stretch of an over, from any frame on, to a receiver that has the key and is in any state of search
      or lock. From the first message end on at which the receiver looks for a message that it heard whole,
      or from the start if it is in step, it puts out every frame, times the gains of the frame's carriers.
      A receiver that took the channel for clear is sure to look for the message that symbol e ends if the
      power test goes on just in time for it. */
  method Relay(tx: RadeTx, rx: RadeRx, xs: seq<Input>, h0: Complex, h1: Complex, last: seq<Complex>, sym0: nat,
               keys: KeyStore, an: Analog, ghost o: Over, ghost first: nat, ghost e: nat)
    returns (heard: seq<seq<Complex>>, ghost mids: seq<RxState>)
    requires tx.Valid() && tx.encrypt && !tx.failClosed && tx.k + |xs| <= LAST_FRAME && SquareRoot(an.sqrt) && KeyFor(keys, o)
    requires Linked(tx.State(), rx.s, o, first) && LastHeard(last, tx.State(), h0, h1, first) && Sound(rx.s)
    requires Told(rx.s, rx.log)
    requires sym0 == SymAt(o, 2 * tx.k) && Norm(h0) > 0.0 && Norm(h1) > 0.0
    requires forall i :: 0 <= i < |xs| ==> Formed(xs[i])
    modifies tx, rx
    ensures |heard| == |mids| == |xs| && AllSound(mids) && Told(rx.s, rx.log)
    ensures var b := Start(old(tx.k), first, old(tx.amp) > 0.0, Silence(last));
      var there := b.k > 0 && InStep(old(rx.s), o, first, 2 * b.k - 1);
      && Recorded(heard, mids, xs, o, b, there)
      && (there || FoundBy(mids, xs, o, b, |xs|) ==> Reaches(rx.s, xs, o, b, |xs|))
      && (Timed(xs, e) && WholeAt(xs, b, e) && Waiting(old(rx.s)) && !Gap(old(rx.s), sym0) ==>
            FoundBy(mids, xs, o, b, e / 2 + 1))
  {
    hide Norm, SquareRoot, SlotsHold, Logged, Below, InStep, Waiting, Gap, Timed, WholeAt, FoundBy, KeyFor, Reaches, Linked,
      LastHeard, Recorded, Awaiting, Underway, Told;
    ghost var b := Start(tx.k, first, tx.amp > 0.0, Silence(last));
    ghost var there := b.k > 0 && InStep(rx.s, o, first, 2 * b.k - 1);
    ghost var waits := Timed(xs, e) && Waiting(rx.s) && !Gap(rx.s, sym0);
    heard, mids := [], [];
    var y, sym: nat := last, sym0;
    AtFirst(rx.s, xs, o, b, e, there);
    if waits {
      TimedOdd(xs, e);
    }
    UnderwayFirst(tx.State(), rx.s, sym, y, xs, o, b, there, h0, h1);
    for i := 0 to |xs|
      invariant tx.Valid() && tx.encrypt && !tx.failClosed && tx.k == b.k + i && |heard| == |mids| == i && AllSound(mids)
      invariant Underway(tx.State(), rx.s, sym, y, heard, mids, xs, o, b, there, h0, h1) && Told(rx.s, rx.log)
      invariant waits ==> Awaiting(rx.s, mids, xs, o, b, e) && NoGap(rx.s, sym)
    {
      ghost var s0, before := rx.s, mids;
      var out, next;
      ghost var mid;
      out, next, mid := OneMore(tx, rx, y, sym, heard, mids, xs, i, keys, an, o, b, there, h0, h1);
      if waits {
        AwaitingNext(s0, before, mid, rx.s, xs, o, b, e);
      }
      heard, y, mids := heard + [out], next, mids + [mid];
      sym := (sym + 2) % WORD;
    }
    UnderwayEnds(tx.State(), rx.s, sym, y, heard, mids, xs, o, b, there, h0, h1);
    if waits {
      AwaitedAll(rx.s, mids, xs, o, b, e);
    }
  }

  /** Where transmitter and receiver stand after |mids| frames of the stretch. */
  ghost predicate Underway(t: TxState, s: RxState, sym: nat, y: seq<Complex>, heard: seq<seq<Complex>>, mids: seq<RxState>,
                           xs: seq<Input>, o: Over, b: Start, there: bool, h0: Complex, h1: Complex)
    requires |heard| == |mids| <= |xs| && AllSound(mids)
  {
    var i := |mids|;
    && t.k == b.k + i && sym == SymAt(o, 2 * t.k) && Sound(s) && (i == 0 ==> b.silence == Silence(y))
    && (t.amp > 0.0 <==> b.loud || Loud(xs, i))
    && Linked(t, s, o, HeardSince(xs, b, i)) && LastHeard(y, t, h0, h1, HeardSince(xs, b, i))
    && Recorded(heard, mids, xs, o, b, there)
    && (there || FoundBy(mids, xs, o, b, i) ==> Reaches(s, xs, o, b, i))
  }

  lemma UnderwayFirst(t: TxState, s: RxState, sym: nat, y: seq<Complex>, xs: seq<Input>, o: Over, b: Start, there: bool,
                      h0: Complex, h1: Complex)
    requires t.k == b.k && sym == SymAt(o, 2 * t.k) && Sound(s) && b.silence == Silence(y) && b.loud == (t.amp > 0.0)
    requires Linked(t, s, o, b.first) && LastHeard(y, t, h0, h1, b.first)
    requires there ==> b.k > 0 && InStep(s, o, b.first, 2 * b.k - 1)
    ensures AllSound([]) && Underway(t, s, sym, y, [], [], xs, o, b, there, h0, h1)
  {
    hide InStep, Sound, Linked, LastHeard, FoundBy, Recorded, Loud;
    AtFirst(s, xs, o, b, 0, there);
  }

  lemma UnderwayEnds(t: TxState, s: RxState, sym: nat, y: seq<Complex>, heard: seq<seq<Complex>>, mids: seq<RxState>,
                     xs: seq<Input>, o: Over, b: Start, there: bool, h0: Complex, h1: Complex)
    requires |heard| == |mids| == |xs| && AllSound(mids) && Underway(t, s, sym, y, heard, mids, xs, o, b, there, h0, h1)
    ensures Recorded(heard, mids, xs, o, b, there)
    ensures there || FoundBy(mids, xs, o, b, |xs|) ==> Reaches(s, xs, o, b, |xs|)
  {
    hide Linked, LastHeard, FoundBy, Recorded, Loud, HeardSince, Reaches;
  }

  /** One frame more of the stretch. */
  method OneMore(tx: RadeTx, rx: RadeRx, y: seq<Complex>, sym: nat, ghost heard: seq<seq<Complex>>, ghost mids: seq<RxState>,
                 xs: seq<Input>, i: nat, keys: KeyStore, an: Analog, ghost o: Over, ghost b: Start, ghost there: bool,
                 h0: Complex, h1: Complex)
    returns (out: seq<Complex>, next: seq<Complex>, ghost mid: RxState)
    requires tx.Valid() && tx.encrypt && !tx.failClosed && tx.k < LAST_FRAME && SquareRoot(an.sqrt) && KeyFor(keys, o)
    requires |heard| == |mids| == i < |xs| && AllSound(mids) && Formed(xs[i]) && Norm(h0) > 0.0 && Norm(h1) > 0.0
    requires Underway(tx.State(), rx.s, sym, y, heard, mids, xs, o, b, there, h0, h1) && Told(rx.s, rx.log)
    modifies tx, rx
    ensures tx.Valid() && tx.encrypt && !tx.failClosed && tx.k == old(tx.k) + 1 && Sound(mid) && AllSound(mids + [mid])
    ensures Told(rx.s, rx.log)
    ensures Underway(tx.State(), rx.s, (sym + 2) % WORD, next, heard + [out], mids + [mid], xs, o, b, there, h0, h1)
    ensures NoGap(rx.s, (sym + 2) % WORD)
    ensures var x := xs[|mids|];
      && (WaitsOn(old(rx.s), x.on0) && NoGap(old(rx.s), sym) ==>
            Waiting(mid) && mid.auxRun == if x.on0 then old(rx.s).auxRun + 1 else 0)
      && (WaitsOn(mid, x.on1) ==> Waiting(rx.s) && rx.s.auxRun == if x.on1 then mid.auxRun + 1 else 0)
  {
    hide Norm, SquareRoot, SlotsHold, Logged, Below, Listening, Waiting, Gap, HeardSince, Loud, FoundBy, KeyFor, Reaches, Linked,
      LastHeard, Recorded, Passed, Told;
    ghost var t0, s0 := tx.State(), rx.s;
    out, next, mid := PassFrame(tx, rx, xs[i], h0, h1, y, sym, keys, an, o, HeardSince(xs, b, i));
    UnderwayNext(t0, s0, mid, tx.State(), rx.s, out, next, sym, y, heard, mids, xs, o, b, there, h0, h1);
  }

  lemma UnderwayNext(t0: TxState, s0: RxState, mid: RxState, t: TxState, s: RxState, out: seq<Complex>, next: seq<Complex>,
                     sym: nat, y: seq<Complex>, heard: seq<seq<Complex>>, mids: seq<RxState>, xs: seq<Input>, o: Over, b: Start,
                     there: bool, h0: Complex, h1: Complex)
    requires |heard| == |mids| < |xs| && AllSound(mids) && Sound(mid)
    requires Underway(t0, s0, sym, y, heard, mids, xs, o, b, there, h0, h1)
    requires Passed(t0, s0, mid, t, s, xs[|mids|], out, next, y, o, HeardSince(xs, b, |mids|), h0, h1)
    ensures AllSound(mids + [mid]) && NoGap(s, (sym + 2) % WORD)
    ensures Underway(t, s, (sym + 2) % WORD, next, heard + [out], mids + [mid], xs, o, b, there, h0, h1)
  {
    hide Power, Listening, InStep, HeardSince, Loud, FoundBy, Reaches, Linked, LastHeard, Recorded, Comes, Finds, Onset,
      ThroughChannel, SymAt, NoGap;
    var i := |mids|;
    LoudNext(xs, i);
    SinceNext(xs, b, i, y);
    FoundNext(mids, mid, xs, o, b);
    StepOn(s0, mid, s, xs, o, b, i, there || FoundBy(mids, xs, o, b, i));
    RecordedNext(heard, mids, out, mid, xs, o, b, there);
    TwoOn(o, b.k + i);
  }

  lemma AwaitedAll(s: RxState, mids: seq<RxState>, xs: seq<Input>, o: Over, b: Start, e: nat)
    requires |mids| == |xs| && AllSound(mids) && Awaiting(s, mids, xs, o, b, e) && Timed(xs, e)
    ensures e / 2 < |xs| && (WholeAt(xs, b, e) ==> FoundBy(mids, xs, o, b, e / 2 + 1))
  {
    hide Sound, WholeAt, FoundBy;
  }

  /** An encrypted over from its beginning, to a receiver in any state of search or lock. */
  method Converse(tx: RadeTx, rx: RadeRx, auxAmp: real, draw: Nonce, xs: seq<Input>, h0: Complex, h1: Complex,
                  last: seq<Complex>, sym0: nat, keys: KeyStore, an: Analog, ghost e: nat)
    returns (heard: seq<seq<Complex>>, ghost mids: seq<RxState>, ghost o: Over)
    requires tx.Valid() && draw !in tx.drawn && auxAmp > 0.0 && SquareRoot(an.sqrt)
    requires keys(RadeSignal, draw, 0).Some? && forall k: nat :: k < LAST_FRAME ==> FrameKey(keys, draw, k).Some?
    requires |xs| <= LAST_FRAME && forall i :: 0 <= i < |xs| ==> Formed(xs[i])
    requires |last| == NAUX && Norm(h0) > 0.0 && Norm(h1) > 0.0 && sym0 < WORD
    requires Sound(rx.s) && StatusRight(rx.s) && Told(rx.s, rx.log) && !Repeat(rx.s, sym0)
    modifies tx, rx
    ensures o == Over(draw, CheckFrom(keys(RadeSignal, draw, 0).value), sym0)
    ensures |heard| == |mids| == |xs| && AllSound(mids) && Told(rx.s, rx.log)
    ensures var b := Start(0, 0, false, Silence(last));
      && (forall i :: 0 <= i < |xs| ==> Listening(mids[i], o, HeardSince(xs, b, i + 1), 2 * i))
      && (forall i :: 0 <= i < |xs| && FoundBy(mids, xs, o, b, i + 1) ==> ThroughChannel(heard[i], xs[i].latent, xs[i].h))
      && (FoundBy(mids, xs, o, b, |xs|) ==> rx.s.locked && !rx.s.hold && rx.s.r == draw)
      && (Timed(xs, e) && WholeAt(xs, b, e) && Waiting(old(rx.s)) && !Gap(old(rx.s), sym0) ==>
            FoundBy(mids, xs, o, b, e / 2 + 1))
  {
    hide Norm, SquareRoot, FrameKey, SlotsHold, Logged, Below, Sound, StatusRight, Waiting, Gap, Repeat, Timed, WholeAt,
      FoundBy, CheckFrom, KeyFor, Reaches, Linked, LastHeard, Recorded, RightKey, Told;
    var began := tx.Begin(true, auxAmp, true, Some(draw));
    o := Over(draw, CheckFrom(keys(RadeSignal, draw, 0).value), sym0);
    assert RightKey(keys, o) by { KeyRight(keys, o); }
    Beginning(tx.State(), rx.s, o, keys, last, h0, h1);
    heard, mids := Relay(tx, rx, xs, h0, h1, last, sym0, keys, an, o, 0, e);
    Concluded(rx.s, heard, mids, xs, o, Start(0, 0, false, Silence(last)));
  }

  lemma KeyRight(keys: KeyStore, o: Over)
    requires keys(RadeSignal, o.r, 0).Some? && o.chk == CheckFrom(keys(RadeSignal, o.r, 0).value)
    ensures RightKey(keys, o)
  {
  }

  /** The transmitter at its first frame, the receiver before it. */
  lemma Beginning(t: TxState, s: RxState, o: Over, keys: KeyStore, last: seq<Complex>, h0: Complex, h1: Complex)
    requires t.r == o.r && t.k == 0 && t.amp == 0.0 && t.gain > 0.0 && Sound(s) && StatusRight(s) && o.base < WORD
    requires !Repeat(s, o.base) && |last| == NAUX
    requires RightKey(keys, o) && forall k: nat :: k < LAST_FRAME ==> FrameKey(keys, o.r, k).Some?
    ensures Linked(t, s, o, 0) && LastHeard(last, t, h0, h1, 0) && KeyFor(keys, o) && SymAt(o, 0) == o.base
  {
    hide Sound, StatusRight, Heard, FrameKey, RightKey, Gap;
  }

  lemma Concluded(s: RxState, heard: seq<seq<Complex>>, mids: seq<RxState>, xs: seq<Input>, o: Over, b: Start)
    requires |heard| == |mids| == |xs| && AllSound(mids) && Recorded(heard, mids, xs, o, b, false)
    requires FoundBy(mids, xs, o, b, |xs|) ==> Reaches(s, xs, o, b, |xs|)
    ensures forall k :: 0 <= k < |mids| ==> Listening(mids[k], o, HeardSince(xs, b, k + 1), 2 * (b.k + k))
    ensures forall k :: 0 <= k < |mids| && FoundBy(mids, xs, o, b, k + 1) ==>
      ThroughChannel(heard[k], xs[k].latent, xs[k].h)
    ensures FoundBy(mids, xs, o, b, |xs|) ==> s.locked && !s.hold && s.r == o.r
  {
    hide Sound, Listening, HeardSince, FoundBy, ThroughChannel;
  }
}
