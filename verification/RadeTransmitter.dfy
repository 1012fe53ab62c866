/** The RADE transmitter: frames scrambled with a fresh keystream each, and the signalling
    messages as differential QPSK on two auxiliary carriers. */
module RadeTransmitter {
  import opened Bits
  import opened VoiceCrypto
  import opened RadeCode
  import opened RadeMessage
  import opened RadeScramble

  const MSG_FRAMES := 26
  const NAUX := 2
  const AUX := NS * NAUX
  const MSG_SYMS := MSG_FRAMES * NS
  const MSG_SLOTS := MSG_SYMS * NAUX * 2
  const ILV_STEP := 77
  const LAST_FRAME := J_COUNT * MSG_FRAMES

  // ---- the interleaver

  function Ilv(i: nat): (s: nat)
    ensures s < MSG_SLOTS
  {
    (i * ILV_STEP) % MSG_SLOTS
  }

  /** No two coded bits share a slot: 77 has the inverse -27 modulo 208. */
  lemma IlvInjective(i: nat, k: nat)
    requires i < MSG_SLOTS && k < MSG_SLOTS && Ilv(i) == Ilv(k)
    ensures i == k
  {
    var a, b := i * ILV_STEP / MSG_SLOTS, k * ILV_STEP / MSG_SLOTS;
    var d, m := i - k, a - b;
    assert i * 77 == 208 * a + Ilv(i) && k * 77 == 208 * b + Ilv(k);
    hide Ilv;
    assert d * 77 == 208 * m;
    Multiple(d, 10 * d - 27 * m);
  }

  lemma Multiple(d: int, w: int)
    requires d == 208 * w && -208 < d < 208
    ensures d == 0
  {
  }

  /** From one coded bit to the next it goes 77 slots on, of 208. */
  lemma IlvSteps(i: nat)
    ensures Ilv(0) == 0 && Ilv(i + 1) == (Ilv(i) + 77) % 208
  {
    OnBy77(i * 77);
    assert (i + 1) * 77 == i * 77 + 77;
  }

  lemma OnBy77(a: nat)
    ensures (a + 77) % 208 == (a % 208 + 77) % 208
  {
  }

  /** The slots of a message: its coded bits where the interleaver puts them, padding elsewhere. */
  ghost predicate SlotsHold(slots: seq<bool>, c: seq<bool>)
    requires |c| == CODED_BITS
  {
    && |slots| == MSG_SLOTS
    && (forall i :: 0 <= i < CODED_BITS ==> slots[Ilv(i)] == c[i])
    && (forall p :: 0 <= p < MSG_SLOTS && (forall i :: 0 <= i < CODED_BITS ==> Ilv(i) != p) ==>
          slots[p] == (p % 2 == 1))
  }

  method FillSlots(c: seq<bool>) returns (slots: seq<bool>)
    requires |c| == CODED_BITS
    ensures SlotsHold(slots, c)
  {
    slots := seq(MSG_SLOTS, i => i % 2 == 1);
    for i := 0 to CODED_BITS
      invariant |slots| == MSG_SLOTS
      invariant forall k :: 0 <= k < i ==> slots[Ilv(k)] == c[k]
      invariant forall p :: 0 <= p < MSG_SLOTS && (forall k :: 0 <= k < i ==> Ilv(k) != p) ==>
                  slots[p] == (p % 2 == 1)
    {
      forall k | 0 <= k < i
        ensures Ilv(k) != Ilv(i)
      {
        if Ilv(k) == Ilv(i) {
          IlvInjective(k, i);
        }
      }
      slots := slots[Ilv(i) := c[i]];
    }
  }

  // ---- differential QPSK

  /** The phase step of two bits: one of the four quadrants. */
  function Quadrant(b0: bool, b1: bool, s: real): Complex {
    C(Signed(b0, s), Signed(b1, s))
  }

  /** A first bit set turns the real part negative, a second one the imaginary part. */
  lemma Quadrants(s: real)
    ensures Quadrant(false, false, s) == C(s, s) && Quadrant(true, false, s) == C(-s, s)
    ensures Quadrant(false, true, s) == C(s, -s) && Quadrant(true, true, s) == C(-s, -s)
  {
  }

  function Turn(p: Complex, b0: bool, b1: bool, s: real): Complex {
    Mul(p, Quadrant(b0, b1, s))
  }

  lemma NormMul(x: Complex, y: Complex)
    ensures Norm(Mul(x, y)) == Norm(x) * Norm(y)
  {
  }

  /** A turned unit phasor is a unit phasor. */
  lemma TurnUnit(p: Complex, b0: bool, b1: bool, s: real)
    requires Norm(p) == 1.0 && s * s == 0.5
    ensures Norm(Turn(p, b0, b1, s)) == 1.0
  {
    var q := Quadrant(b0, b1, s);
    assert Norm(q) == 1.0;
    NormMul(p, q);
  }

  lemma UnitRoot(x: real)
    requires x >= 0.0 && x * x == 1.0
    ensures x == 1.0
  {
    Apart(x, 1.0);
    Apart(1.0, x);
  }

  lemma Apart(x: real, y: real)
    requires x >= 0.0 && y >= 0.0
    ensures x < y ==> x * x < y * y
  {
    if x < y {
      calc {
        x * x;
      <=
        x * y;
      <
        y * y;
      }
    }
  }

  /** The first of the two bits of carrier a in symbol q of a message. */
  function SlotOf(q: nat, a: nat): (s: nat)
    ensures q < MSG_SYMS && a < NAUX ==> s + 1 < MSG_SLOTS
  {
    (q * NAUX + a) * 2
  }

  /** Carrier a's phasor n symbols after ref, from symbol q of the message. */
  function Phasor(ref: Complex, slots: seq<bool>, q: nat, n: nat, a: nat, s: real): Complex
    requires |slots| == MSG_SLOTS && q + n <= MSG_SYMS && a < NAUX
  {
    if n == 0 then ref
    else Turn(Phasor(ref, slots, q, n - 1, a, s), slots[SlotOf(q + n - 1, a)], slots[SlotOf(q + n - 1, a) + 1], s)
  }

  lemma PhasorStart(ref: seq<Complex>, slots: seq<bool>, q: nat, s: real)
    requires |ref| == NAUX && |slots| == MSG_SLOTS && q <= MSG_SYMS
    ensures forall a :: 0 <= a < NAUX ==> Phasor(ref[a], slots, q, 0, a, s) == ref[a]
  {
  }

  /** The symbol that goes out: the phasor at the data carriers' level. */
  function AuxSymbol(ref: Complex, slots: seq<bool>, q: nat, n: nat, a: nat, s: real, amp: real, gain: real): Complex
    requires |slots| == MSG_SLOTS && q + n < MSG_SYMS && a < NAUX
  {
    Scale(Scale(Phasor(ref, slots, q, n + 1, a, s), amp), gain)
  }

  /** The auxiliary carriers go out at the data carriers' level times the gain, whatever the message. */
  lemma {:induction false} AuxLevel(ref: Complex, slots: seq<bool>, q: nat, n: nat, a: nat, s: real, amp: real, gain: real)
    requires |slots| == MSG_SLOTS && q + n < MSG_SYMS && a < NAUX && Norm(ref) == 1.0 && s * s == 0.5
    ensures Norm(AuxSymbol(ref, slots, q, n, a, s, amp, gain)) == (amp * gain) * (amp * gain)
  {
    hide Phasor, Norm, Scale;
    PhasorUnit(ref, slots, q, n + 1, a, s);
    ScaleTwice(Phasor(ref, slots, q, n + 1, a, s), amp, gain);
  }

  lemma {:induction false} PhasorUnit(ref: Complex, slots: seq<bool>, q: nat, n: nat, a: nat, s: real)
    requires |slots| == MSG_SLOTS && q + n <= MSG_SYMS && a < NAUX && Norm(ref) == 1.0 && s * s == 0.5
    ensures Norm(Phasor(ref, slots, q, n, a, s)) == 1.0
  {
    hide Norm, Turn;
    if n > 0 {
      PhasorUnit(ref, slots, q, n - 1, a, s);
      var i := SlotOf(q + n - 1, a);
      TurnUnit(Phasor(ref, slots, q, n - 1, a, s), slots[i], slots[i + 1], s);
    }
  }

  lemma ScaleTwice(p: Complex, amp: real, gain: real)
    requires Norm(p) == 1.0
    ensures Norm(Scale(Scale(p, amp), gain)) == (amp * gain) * (amp * gain)
  {
    var k := amp * gain;
    ScaledBy(p.re, amp, gain);
    ScaledBy(p.im, amp, gain);
    NormScaled(p, k);
  }

  lemma ScaledBy(x: real, a: real, b: real)
    ensures x * a * b == x * (a * b)
  {
  }

  lemma NormScaled(p: Complex, k: real)
    ensures Norm(Scale(p, k)) == Norm(p) * (k * k)
  {
  }

  /** The turned phasor; bringing it back to length 1 changes nothing. */
  method NextPhasor(p: Complex, b0: bool, b1: bool, an: Analog) returns (y: Complex)
    requires Norm(p) == 1.0 && SquareRoot(an.sqrt)
    ensures y == Turn(p, b0, b1, an.sqrt(0.5)) && Norm(y) == 1.0
  {
    y := Turn(p, b0, b1, an.sqrt(0.5));
    TurnUnit(p, b0, b1, an.sqrt(0.5));
    hide Norm, Turn;
    var mag := an.sqrt(Norm(y));
    UnitRoot(mag);
    if mag > 0.0 {
      y := C(y.re / mag, y.im / mag);
    }
  }

  function Power(z: seq<Complex>): (p: real)
    ensures p >= 0.0
  {
    if z == [] then 0.0
    else Square(z[|z| - 1].re); Square(z[|z| - 1].im);
         Power(z[..|z| - 1]) + Norm(z[|z| - 1])
  }

  /** The running RMS of the data carriers. */
  function NextAmp(amp: real, rms: real): real {
    if amp > 0.0 then 0.9 * amp + 0.1 * rms else rms
  }

  lemma NextAmpIs(amp: real, rms: real)
    ensures NextAmp(amp, rms) == if amp > 0.0 then 0.9 * amp + 0.1 * rms else rms
  {
  }

  ghost predicate Silent(z: seq<Complex>) {
    forall i :: 0 <= i < |z| ==> z[i] == C(0.0, 0.0)
  }

  /** The keystream blocks of a frame. */
  function FrameBlocks(r: Nonce, k: nat): seq<(Nonce, nat)> {
    [(r, BlockCounter(k, 0)), (r, BlockCounter(k, 1)), (r, BlockCounter(k, 2)), (r, BlockCounter(k, 3))]
  }

  function CheckFrom(b: Block): Check {
    b[4..24]
  }

  /** The check is the low twenty bits of the block's first three bytes. */
  lemma CheckBits(b: Block)
    ensures b[..24] == b[..4] + CheckFrom(b) && |CheckFrom(b)| == 20
  {
  }

  /** The auxiliary symbols of the frame whose first is symbol q of the message, and the phasors
      they start from and end at. */
  ghost predicate Signals(aux: seq<Complex>, before: seq<Complex>, ref: seq<Complex>, slots: seq<bool>,
                          amp: real, gain: real, q: nat, s: real)
    requires |aux| == AUX && |before| == NAUX && |slots| == MSG_SLOTS && q + NS <= MSG_SYMS
  {
    && |ref| == NAUX
    && (forall a :: 0 <= a < NAUX ==> ref[a] == Phasor(before[a], slots, q, NS, a, s))
    && aux[0] == AuxSymbol(before[0], slots, q, 0, 0, s, amp, gain)
    && aux[1] == AuxSymbol(before[1], slots, q, 0, 1, s, amp, gain)
    && aux[2] == AuxSymbol(before[0], slots, q, 1, 0, s, amp, gain)
    && aux[3] == AuxSymbol(before[1], slots, q, 1, 1, s, amp, gain)
  }

  /** The latent that goes out is the frame's, mixed with the keystream of its own number. */
  ghost predicate OnAir(z: seq<Complex>, latent: seq<Complex>, keys: KeyStore, r: Nonce, frame: nat, an: Analog) {
    FrameKey(keys, r, frame).Some? && Scrambled(z, latent, FrameKey(keys, r, frame).value, false, an)
  }

  datatype TxState = TxState(r: Nonce, k: nat, amp: real, gain: real, ref: seq<Complex>, slots: seq<bool>, chk: Check)

  /** A frame went out: state b before it, state a after. The counter went on, or started again
      under a new nonce; the latent was mixed and the next two symbols of the message sent. */
  ghost predicate FrameSent(b: TxState, a: TxState, drawn: set<Nonce>, z: seq<Complex>, latent: seq<Complex>,
                            aux: seq<Complex>, keys: KeyStore, an: Analog)
  {
    && a.k > 0 && |a.slots| == MSG_SLOTS && |b.ref| == NAUX && |aux| == AUX && a.gain == b.gain
    && (if b.k < LAST_FRAME then a.k == b.k + 1 && a.r == b.r else a.k == 1 && a.r !in drawn)
    && OnAir(z, latent, keys, a.r, a.k - 1, an)
    && a.amp == NextAmp(b.amp, an.sqrt(Power(latent) / LATENT as real))
    && SlotsHold(a.slots, Codeword(Message(a.r, (a.k - 1) / MSG_FRAMES, a.chk)))
    && (if (a.k - 1) % MSG_FRAMES != 0 then a.chk == b.chk
        else keys(RadeSignal, a.r, 0).Some? ==> a.chk == CheckFrom(keys(RadeSignal, a.r, 0).value))
    && Signals(aux, b.ref, a.ref, a.slots, a.amp, a.gain, (a.k - 1) % MSG_FRAMES * NS, an.sqrt(0.5))
  }

  class RadeTx {
    var encrypt: bool          // this over is scrambled and signalled
    var failClosed: bool       // encryption asked for, no key: send nothing
    var r: Nonce
    var k: nat                 // the next frame's counter
    var gain: real
    var amp: real
    var ref: seq<Complex>      // the last phasor of each carrier
    var slots: seq<bool>

    ghost var asked: bool                      // encryption was requested for this over
    ghost var chk: Check                       // the check in the message being sent
    ghost var drawn: set<Nonce>                // every nonce drawn
    ghost var used: seq<(Nonce, nat)>          // every keystream block that went on the air

    ghost predicate Valid()
      reads this
    {
      && (asked <==> encrypt || failClosed)
      && (encrypt ==>
            && r in drawn && k <= LAST_FRAME
            && |ref| == NAUX && |slots| == MSG_SLOTS
            && Norm(ref[0]) == 1.0 && Norm(ref[1]) == 1.0)
      && (encrypt && !failClosed && k % MSG_FRAMES != 0 ==>
            SlotsHold(slots, Codeword(Message(r, k / MSG_FRAMES, chk))))
      && Logged(used, drawn)
      && (encrypt ==> Below(used, r, BLOCKS_PER_FRAME * k))
    }

    constructor ()
      ensures Valid() && !asked && used == []
    {
      encrypt, failClosed, k, gain, amp := false, false, 0, 0.0, 0.0;
      r := Zeros(NONCE_BITS);
      ref, slots := [C(0.0, 0.0), C(0.0, 0.0)], Zeros(MSG_SLOTS);
      asked, chk, drawn, used := false, Zeros(CHECK_BITS), {}, [];
    }

    /** Start an over. Encryption without a key, or without a nonce, fails closed. */
    method Begin(want: bool, auxAmp: real, haveKey: bool, draw: Option<Nonce>) returns (ok: bool)
      requires Valid()
      requires draw.Some? ==> draw.value !in drawn
      modifies this
      ensures Valid() && asked == want && used == old(used) && k == 0
      ensures ok == (want ==> haveKey && draw.Some?)
      ensures encrypt == (want && ok) && failClosed == (want && !ok)
      ensures encrypt ==> r == draw.value && r !in old(drawn) && amp == 0.0 && gain == auxAmp
      ensures old(drawn) <= drawn
    {
      encrypt, failClosed, k, gain, amp := false, false, 0, 0.0, 0.0;
      r := Zeros(NONCE_BITS);
      ref, slots := [C(0.0, 0.0), C(0.0, 0.0)], Zeros(MSG_SLOTS);
      asked := want;
      if !want {
        return true;
      }
      gain := auxAmp;
      ref := [C(1.0, 0.0), C(1.0, 0.0)];
      if !haveKey || draw.None? {
        failClosed := true;
        return false;
      }
      r := draw.value;
      FreshNonce(used, drawn, r);
      drawn := drawn + {r};
      encrypt := true;
      return true;
    }

    /** Message j of the over goes into the slots. */
    method NewMessage(keys: KeyStore, j: nat)
      requires encrypt && |slots| == MSG_SLOTS
      modifies this`slots, this`failClosed, this`chk
      ensures SlotsHold(slots, Codeword(Message(r, j, chk)))
      ensures failClosed == (old(failClosed) || keys(RadeSignal, r, 0).None?)
      ensures keys(RadeSignal, r, 0).Some? ==> chk == CheckFrom(keys(RadeSignal, r, 0).value)
    {
      var ks := keys(RadeSignal, r, 0);
      var check: Check := *;
      if ks.None? {
        failClosed := true;
      } else {
        check := CheckFrom(ks.value);
      }
      chk := check;
      var coded := ConvEncode(Message(r, j, check));
      slots := FillSlots(coded);
    }

    method AuxSymbols(aux: array<Complex>, q: nat, an: Analog)
      requires aux.Length == AUX && SquareRoot(an.sqrt)
      requires |ref| == NAUX && |slots| == MSG_SLOTS && q + NS <= MSG_SYMS
      requires Norm(ref[0]) == 1.0 && Norm(ref[1]) == 1.0
      modifies this`ref, aux
      ensures Signals(aux[..], old(ref), ref, slots, amp, gain, q, an.sqrt(0.5))
      ensures |ref| == NAUX && Norm(ref[0]) == 1.0 && Norm(ref[1]) == 1.0
    {
      hide Norm, Scale, Phasor, SquareRoot, AuxSymbol;
      ghost var before := ref;
      PhasorStart(before, slots, q, an.sqrt(0.5));
      for n := 0 to NS
        invariant |ref| == NAUX && Norm(ref[0]) == 1.0 && Norm(ref[1]) == 1.0
        invariant forall a :: 0 <= a < NAUX ==> ref[a] == Phasor(before[a], slots, q, n, a, an.sqrt(0.5))
        invariant n > 0 ==>
          && aux[0] == AuxSymbol(before[0], slots, q, 0, 0, an.sqrt(0.5), amp, gain)
          && aux[1] == AuxSymbol(before[1], slots, q, 0, 1, an.sqrt(0.5), amp, gain)
        invariant n > 1 ==>
          && aux[2] == AuxSymbol(before[0], slots, q, 1, 0, an.sqrt(0.5), amp, gain)
          && aux[3] == AuxSymbol(before[1], slots, q, 1, 1, an.sqrt(0.5), amp, gain)
      {
        OneSymbol(aux, q, n, an, before);
      }
    }

    /** Symbol n of the frame on both carriers. */
    method OneSymbol(aux: array<Complex>, q: nat, n: nat, an: Analog, ghost before: seq<Complex>)
      requires aux.Length == AUX && SquareRoot(an.sqrt) && n < NS && q + NS <= MSG_SYMS
      requires |ref| == |before| == NAUX && |slots| == MSG_SLOTS
      requires Norm(ref[0]) == 1.0 && Norm(ref[1]) == 1.0
      requires forall a :: 0 <= a < NAUX ==> ref[a] == Phasor(before[a], slots, q, n, a, an.sqrt(0.5))
      modifies this`ref, aux
      ensures |ref| == NAUX && Norm(ref[0]) == 1.0 && Norm(ref[1]) == 1.0
      ensures forall a :: 0 <= a < NAUX ==> ref[a] == Phasor(before[a], slots, q, n + 1, a, an.sqrt(0.5))
      ensures aux[n * NAUX] == AuxSymbol(before[0], slots, q, n, 0, an.sqrt(0.5), amp, gain)
      ensures aux[n * NAUX + 1] == AuxSymbol(before[1], slots, q, n, 1, an.sqrt(0.5), amp, gain)
      ensures forall i :: 0 <= i < n * NAUX ==> aux[i] == old(aux[i])
    {
      hide Norm, Turn, Scale, SquareRoot;
      for a := 0 to NAUX
        invariant |ref| == NAUX && Norm(ref[0]) == 1.0 && Norm(ref[1]) == 1.0
        invariant forall b :: 0 <= b < a ==> ref[b] == Phasor(before[b], slots, q, n + 1, b, an.sqrt(0.5))
        invariant forall b :: a <= b < NAUX ==> ref[b] == Phasor(before[b], slots, q, n, b, an.sqrt(0.5))
        invariant forall b :: 0 <= b < a ==>
          aux[n * NAUX + b] == AuxSymbol(before[b], slots, q, n, b, an.sqrt(0.5), amp, gain)
        invariant forall i :: 0 <= i < n * NAUX ==> aux[i] == old(aux[i])
      {
        var slot := SlotOf(q + n, a);
        var y := NextPhasor(ref[a], slots[slot], slots[slot + 1], an);
        ref := ref[a := y];
        aux[n * NAUX + a] := Scale(Scale(y, amp), gain);
      }
    }

    ghost function State(): TxState
      reads this
    {
      TxState(r, k, amp, gain, ref, slots, chk)
    }

    /** The key store gives the keystream of the next frame and the check of the over. */
    ghost predicate HasKey(keys: KeyStore)
      reads this
    {
      k < LAST_FRAME && FrameKey(keys, r, k).Some? && keys(RadeSignal, r, 0).Some?
    }

    /** One frame. A clear over goes out as it is; once encryption was asked for, every frame is
        silence or ciphertext. */
    method Frame(z: array<Complex>, aux: array<Complex>, keys: KeyStore, draw: Option<Nonce>, an: Analog)
      requires Valid() && SquareRoot(an.sqrt)
      requires z.Length == LATENT && aux.Length == AUX && z != aux
      requires draw.Some? ==> draw.value !in drawn
      modifies this, z, aux
      ensures Valid() && asked == old(asked) && old(drawn) <= drawn
      ensures old(failClosed) ==> failClosed
      ensures !asked ==> z[..] == old(z[..]) && aux[..] == old(aux[..]) && State() == old(State()) && used == old(used)
      ensures asked ==>
        || (failClosed && Silent(z[..]) && used == old(used))
        || (&& k > 0 && old(used) <= used && BlocksOf(used[|old(used)|..], r, k - 1)
            && MixedUnder(z[..], old(z[..]), keys, used[|old(used)|..], false, an)
            && FrameSent(old(State()), State(), old(drawn), z[..], old(z[..]), aux[..], keys, an))
      ensures old(encrypt && !failClosed && HasKey(keys)) ==> encrypt && !failClosed && used != old(used)
    {
      hide FrameSent, Logged, Below, Norm, SlotsHold, FrameKey, MixedUnder;
      if failClosed {
        Erase(z);
        return;
      }
      if !encrypt {
        return;
      }
      EncryptedFrame(z, aux, keys, draw, an);
    }

    method EncryptedFrame(z: array<Complex>, aux: array<Complex>, keys: KeyStore, draw: Option<Nonce>, an: Analog)
      requires Valid() && SquareRoot(an.sqrt) && encrypt && !failClosed
      requires z.Length == LATENT && aux.Length == AUX && z != aux
      requires draw.Some? ==> draw.value !in drawn
      modifies this, z, aux
      ensures Valid() && asked == old(asked) && old(drawn) <= drawn
      ensures
        || (failClosed && Silent(z[..]) && used == old(used))
        || (&& k > 0 && old(used) <= used && BlocksOf(used[|old(used)|..], r, k - 1)
            && MixedUnder(z[..], old(z[..]), keys, used[|old(used)|..], false, an)
            && FrameSent(old(State()), State(), old(drawn), z[..], old(z[..]), aux[..], keys, an))
      ensures encrypt
      ensures old(HasKey(keys)) ==> !failClosed && used != old(used)
    {
      hide Norm, SlotsHold, Codeword, Message, Power, OnAir, Signals, SquareRoot, Logged, Below, NextAmp, FrameKey, MixedUnder;
      if k % MSG_FRAMES == 0 {
        var ready := NextMessage(keys, draw);
        if !ready {
          Erase(z);
          return;
        }
      }
      Emit(z, aux, keys, an);
    }

    /** The frame goes out, or silence if its keystream is not to be had. */
    method Emit(z: array<Complex>, aux: array<Complex>, keys: KeyStore, an: Analog)
      requires Valid() && SquareRoot(an.sqrt) && encrypt && k < LAST_FRAME
      requires z.Length == LATENT && aux.Length == AUX && z != aux
      requires SlotsHold(slots, Codeword(Message(r, k / MSG_FRAMES, chk)))
      modifies this`amp, this`failClosed, this`ref, this`used, this`k, z, aux
      ensures Valid()
      ensures old(failClosed) ==> failClosed
      ensures amp == NextAmp(old(amp), an.sqrt(Power(old(z[..])) / LATENT as real))
      ensures var rms := an.sqrt(Power(old(z[..])) / 28.0); amp == if old(amp) > 0.0 then 0.9 * old(amp) + 0.1 * rms else rms
      ensures
        || (failClosed && Silent(z[..]) && used == old(used))
        || (&& k == old(k) + 1 && OnAir(z[..], old(z[..]), keys, r, k - 1, an)
            && old(used) <= used && BlocksOf(used[|old(used)|..], r, k - 1)
            && MixedUnder(z[..], old(z[..]), keys, used[|old(used)|..], false, an)
            && Signals(aux[..], old(ref), ref, slots, amp, gain, (k - 1) % MSG_FRAMES * NS, an.sqrt(0.5)))
      ensures FrameKey(keys, r, old(k)).Some? ==> failClosed == old(failClosed) && k == old(k) + 1
    {
      hide Norm, SlotsHold, Codeword, Message, Power, FrameKey, Scrambled, Signals, SquareRoot, Logged, Below, NextAmp,
        FrameBlocks, Silent, MixedUnder, BlocksOf;
      var p := TotalPower(z);
      NextAmpIs(amp, an.sqrt(p / LATENT as real));
      amp := NextAmp(amp, an.sqrt(p / LATENT as real));
      var ok := Scramble(z, keys, r, k, false, an);
      if !ok {
        failClosed := true;
        Erase(z);
        return;
      }
      AuxSymbols(aux, k % MSG_FRAMES * NS, an);
      FreshBlocks(used, drawn, r, k);
      Logs(used, r, k);
      MixedBlocks(z[..], old(z[..]), keys, r, k, FrameBlocks(r, k), false, an);
      used := used + FrameBlocks(r, k);
      k := k + 1;
    }

    /** A message begins; the index rolls over into a new nonce. */
    method NextMessage(keys: KeyStore, draw: Option<Nonce>) returns (ready: bool)
      requires Valid() && encrypt && !failClosed && k % MSG_FRAMES == 0
      requires draw.Some? ==> draw.value !in drawn
      modifies this`r, this`k, this`slots, this`failClosed, this`chk, this`drawn
      ensures Valid() && old(drawn) <= drawn && |slots| == MSG_SLOTS
      ensures ready == (old(k) < LAST_FRAME || draw.Some?)
      ensures !ready ==> failClosed
      ensures ready ==>
        && k < LAST_FRAME && k % MSG_FRAMES == 0
        && (if old(k) < LAST_FRAME then k == old(k) && r == old(r) else k == 0 && r !in old(drawn))
        && SlotsHold(slots, Codeword(Message(r, k / MSG_FRAMES, chk)))
        && (keys(RadeSignal, r, 0).Some? ==> chk == CheckFrom(keys(RadeSignal, r, 0).value) && !failClosed)
    {
      hide SlotsHold, Codeword, Message, Logged, Below, Norm;
      var j := k / MSG_FRAMES;
      if j >= J_COUNT {
        if draw.None? {
          failClosed := true;
          return false;
        }
        r := draw.value;
        FreshNonce(used, drawn, r);
        drawn := drawn + {r};
        k := 0;
        j := 0;
      }
      NewMessage(keys, j);
      return true;
    }
  }

  /** The blocks of a frame are new if every block used under its nonce is of an earlier frame. */
  lemma FreshBlocks(used: seq<(Nonce, nat)>, drawn: set<Nonce>, r: Nonce, k: nat)
    requires Logged(used, drawn) && r in drawn && k < LAST_FRAME
    requires Below(used, r, BLOCKS_PER_FRAME * k)
    ensures Logged(used + FrameBlocks(r, k), drawn)
    ensures Below(used + FrameBlocks(r, k), r, BLOCKS_PER_FRAME * (k + 1))
  {
    var all := used + FrameBlocks(r, k);
    forall i, j | 0 <= i < j < |all|
      ensures all[i] != all[j]
    {
      if i < |used| {
        assert used[i] in used;
      }
    }
  }

  lemma Logs(used: seq<(Nonce, nat)>, r: Nonce, k: nat)
    ensures BlocksOf(FrameBlocks(r, k), r, k) && (used + FrameBlocks(r, k))[|used|..] == FrameBlocks(r, k)
  {
  }

  method TotalPower(z: array<Complex>) returns (p: real)
    requires z.Length == LATENT
    ensures p == Power(z[..])
  {
    hide Power, Norm;
    p := 0.0;
    PowerStep([], C(0.0, 0.0));
    for i := 0 to LATENT
      invariant p == Power(z[..i])
    {
      PowerStep(z[..i], z[i]);
      assert z[..i + 1] == z[..i] + [z[i]];
      p := p + Norm(z[i]);
    }
    assert z[..LATENT] == z[..];
  }

  lemma PowerStep(z: seq<Complex>, x: Complex)
    ensures Power([]) == 0.0 && Power(z + [x]) == Power(z) + Norm(x)
  {
    assert (z + [x])[..|z|] == z;
  }

  method Erase(z: array<Complex>)
    modifies z
    ensures Silent(z[..])
  {
    forall i | 0 <= i < z.Length {
      z[i] := C(0.0, 0.0);
    }
  }
}
