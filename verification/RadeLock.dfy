/** The receiver object: search, lock, tracking, status, and the unmixing of the frames. */
module RadeLock {
  import opened Bits
  import opened VoiceCrypto
  import opened RadeCode
  import opened RadeDistance
  import opened RadeMessage
  import opened RadeScramble
  import opened RadeTransmitter
  import opened RadeReceiver
  import Crc16
  import GrayCode

  /** The fields of the receiver. auxOn is the outcome of the power test, an input here. */
  datatype RxState = RxState(
    ring: seq<Cell>, dPow: real, lastSym: nat, any: bool,
    encSeen: bool, clearShown: bool, auxRun: nat, nSym: nat,
    aligned: bool, alignSym: nat, alignMiss: nat,
    locked: bool, r: Nonce, refSym: nat, refK: nat, trackMiss: nat, hold: bool,
    badChecks: nat, badSym: nat, badKey: bool, msgs: nat, msgsBad: nat, status: Status)

  function EmptyRing(): seq<Cell> {
    seq(RING, _ => Cell(0, C(0.0, 0.0), C(0.0, 0.0)))
  }

  function Reset(): RxState {
    RxState(EmptyRing(), 0.0, 0, false, false, false, 0, 0, false, 0, 0, false, Zeros(NONCE_BITS), 0, 0, 0, false,
            0, 0, false, 0, 0, Acquiring)
  }

  /** What every step keeps. */
  ghost predicate Sound(s: RxState) {
    && |s.ring| == RING && s.lastSym < WORD && s.alignSym < WORD && s.refSym < WORD && s.badSym < WORD
    && s.refK < WORD
    && (s.locked ==> s.msgs > 0)
    && (s.msgs > 0 ==> s.encSeen)
  }

  /** The index of a decoded message that fits the flips it was combined with. */
  ghost function IndexOf(msg: seq<bool>, t: seq<nat>): Option<nat>
    requires |msg| == MSG_BITS
  {
    if exists i: nat :: Pattern(t, i) && msg == Message(NonceOf(msg), i, CheckOf(msg))
    then var i: nat :| Pattern(t, i) && msg == Message(NonceOf(msg), i, CheckOf(msg)); Some(i)
    else None
  }

  /** A message ends at sym. */
  function MessageAt(s: RxState, sym: nat): RxState {
    s.(encSeen := true, msgs := s.msgs + 1, alignSym := sym, aligned := true)
  }

  /** A message whose check fails: another key's, once two came a message apart. */
  function WrongCheck(s: RxState, sym: nat): RxState
    requires sym < WORD && s.badSym < WORD
  {
    var n := if s.badChecks > 0 && Sub32(sym, s.badSym) % MSG_SYMS == 0 then s.badChecks + 1 else 1;
    var b := s.(msgsBad := s.msgsBad + 1, badChecks := n, badSym := sym);
    if n >= 2 then MessageAt(b.(badKey := true, locked := false), sym) else b
  }

  function LockOn(s: RxState, r: Nonce, j: nat, sym: nat): RxState {
    MessageAt(s, sym).(badChecks := 0, badKey := false, hold := false, trackMiss := 0, r := r,
                       refSym := sym, refK := (j + 1) * MSG_FRAMES - 1, locked := true)
  }

  /** What a decoded message does to the receiver. */
  ghost function Accepted(s: RxState, msg: seq<bool>, sym: nat, t: seq<nat>, keys: KeyStore): RxState
    requires |msg| == MSG_BITS && sym < WORD && s.badSym < WORD
  {
    var j, ks := IndexOf(msg, t), keys(RadeSignal, NonceOf(msg), 0);
    if j.None? then s
    else if ks.None? then MessageAt(s, sym)
    else if CheckFrom(ks.value) != CheckOf(msg) then WrongCheck(s, sym)
    else LockOn(s, NonceOf(msg), j.value, sym)
  }

  ghost predicate Accepts(msg: seq<bool>, t: seq<nat>, keys: KeyStore)
    requires |msg| == MSG_BITS
  {
    && IndexOf(msg, t).Some?
    && keys(RadeSignal, NonceOf(msg), 0).Some?
    && CheckFrom(keys(RadeSignal, NonceOf(msg), 0).value) == CheckOf(msg)
  }

  lemma IndexUnique(msg: seq<bool>, t: seq<nat>, j: Option<nat>)
    requires |msg| == MSG_BITS
    requires j.Some? ==> Pattern(t, j.value) && msg == Message(NonceOf(msg), j.value, CheckOf(msg))
    requires forall i: nat :: Pattern(t, i) && msg == Message(NonceOf(msg), i, CheckOf(msg)) ==> j == Some(i)
    ensures j == IndexOf(msg, t)
  {
  }

  /** The message of a nonce, an index and the right check is accepted under its own flips. */
  lemma TrueMessageAccepted(r: Nonce, j: nat, chk: Check, t: seq<nat>, keys: KeyStore)
    requires Pattern(t, j) && keys(RadeSignal, r, 0).Some? && CheckFrom(keys(RadeSignal, r, 0).value) == chk
    ensures var msg := Message(r, j, chk);
            NonceOf(msg) == r && IndexOf(msg, t) == Some(j) && Accepts(msg, t, keys)
  {
    var msg := Message(r, j, chk);
    hide Crc16.Crc, GrayCode.Gray, GrayCode.Field;
    assert NonceOf(msg) == r && CheckOf(msg) == chk;
    hide Message;
    forall i: nat | Pattern(t, i) && msg == Message(NonceOf(msg), i, CheckOf(msg))
      ensures i == j
    {
      FieldsOf(msg);
    }
  }

  /** Locked by a message that ended at sym, whose check is the key's. */
  ghost predicate LockedAt(s: RxState, sym: nat, keys: KeyStore) {
    && s.locked && !s.hold && s.trackMiss == 0 && s.refSym == sym && s.alignSym == sym && s.aligned
    && keys(RadeSignal, s.r, 0).Some?
    && s.refK < LAST_FRAME && s.refK % MSG_FRAMES == MSG_FRAMES - 1
  }

  /** s' came from s by trying messages that end at sym. */
  ghost predicate Searched(s: RxState, s': RxState, sym: nat, keys: KeyStore) {
    && Sound(s') && s'.ring == s.ring && s'.dPow == s.dPow && s'.lastSym == s.lastSym && s'.any == s.any
    && s'.clearShown == s.clearShown && s'.auxRun == s.auxRun && s'.nSym == s.nSym && s'.status == s.status
    && s'.alignMiss == s.alignMiss
    && s'.msgs >= s.msgs && s'.msgsBad >= s.msgsBad && (s.encSeen ==> s'.encSeen)
    && (s'.msgs == s.msgs ==> s'.encSeen == s.encSeen)
    && (s'.locked ==> LockedAt(s', sym, keys))
  }

  lemma AcceptedSearched(s0: RxState, s: RxState, msg: seq<bool>, sym: nat, t: seq<nat>, keys: KeyStore)
    requires Sound(s) && !s.locked && Searched(s0, s, sym, keys) && |msg| == MSG_BITS && sym < WORD
    ensures var s' := Accepted(s, msg, sym, t, keys);
            && Searched(s0, s', sym, keys)
            && (s'.locked <==> Accepts(msg, t, keys))
  {
    var j, ks := IndexOf(msg, t), keys(RadeSignal, NonceOf(msg), 0);
    assert j.Some? ==> j.value < J_COUNT;
    hide Message, IndexOf, CheckOf, NonceOf, CheckFrom, Sub32;
    TakenSearched(s0, s, NonceOf(msg), if j.Some? then j.value else 0, sym, keys);
    RefusedSearched(s0, s, sym, keys);
    hide Searched, MessageAt, LockOn, WrongCheck;
  }

  lemma TakenSearched(s0: RxState, s: RxState, r: Nonce, j: nat, sym: nat, keys: KeyStore)
    requires Sound(s) && !s.locked && Searched(s0, s, sym, keys) && sym < WORD && j < J_COUNT
    ensures Searched(s0, MessageAt(s, sym), sym, keys) && !MessageAt(s, sym).locked
    ensures LockOn(s, r, j, sym).locked
    ensures keys(RadeSignal, r, 0).Some? ==> Searched(s0, LockOn(s, r, j, sym), sym, keys)
  {
  }

  lemma RefusedSearched(s0: RxState, s: RxState, sym: nat, keys: KeyStore)
    requires Sound(s) && !s.locked && Searched(s0, s, sym, keys) && sym < WORD
    ensures Searched(s0, WrongCheck(s, sym), sym, keys) && !WrongCheck(s, sym).locked
  {
    hide Sub32;
  }

  /** The last symbol of the message n before the one that ends at sym. */
  function EndOf(sym: nat, n: nat): (end: nat)
    requires sym < WORD && n < COMBINE
    ensures end < WORD
  {
    Sub32(sym, n * MSG_SYMS)
  }

  /** The soft bits of the n messages that end at sym and before it. */
  function Recent(ring: seq<Cell>, scale: real, sym: nat, n: nat): (v: seq<Soft>)
    requires |ring| == RING && sym < WORD && n <= COMBINE
    ensures |v| == n
  {
    seq(n, i requires 0 <= i < n => SoftBits(ring, scale, EndOf(sym, i)))
  }

  ghost predicate OneNearlyWhole(v: seq<Soft>) {
    exists n :: 0 <= n < |v| && Weight(Erased(v[n])) < 10
  }

  /** Message j of the over ends at sym and the |t| before it were received too, without noise, at
      least half of each and one of them but for a few bits; the key is the over's. */
  ghost predicate Findable(ring: seq<Cell>, scale: real, sym: nat, o: Over, j: nat, t: seq<nat>, keys: KeyStore)
    requires |ring| == RING && sym < WORD
  {
    && |t| < COMBINE && Pattern(t, j)
    && keys(RadeSignal, o.r, 0).Some? && CheckFrom(keys(RadeSignal, o.r, 0).value) == o.chk
    && AllClean(o.r, j, o.chk, Recent(ring, scale, sym, |t| + 1))
    && (forall n :: 0 <= n <= |t| ==> Weight(Present(ring, EndOf(sym, n))) >= CODED_BITS / 2)
    && OneNearlyWhole(Recent(ring, scale, sym, |t| + 1))
  }

  /** The place of a pattern in the order they are tried. */
  function Rank(a: nat, b: nat, c: nat): nat {
    144 * a + 12 * b + c
  }

  ghost function RankOf(t: seq<nat>): nat
    requires 1 <= |t| <= 3
  {
    Rank(t[0], if |t| >= 2 then t[1] else 0, if |t| >= 3 then t[2] else 0)
  }

  // ---- tracking

  const BELOW_ALL: real := -1000000000000000000000000000000.0
  const LAGS := 2 * TRACK_SPAN + 1

  /** A symbol number moved by lag - TRACK_SPAN. */
  function Moved(sym: nat, lag: nat): (m: nat)
    ensures m < WORD
  {
    (sym + WORD - TRACK_SPAN + lag) % WORD
  }

  /** The frame whose second symbol is sym, as the lock has it. */
  function FrameAt(s: RxState, sym: nat): (k: nat)
    requires sym < WORD && s.refSym < WORD
    ensures k < WORD
  {
    (s.refK + Half32(Sub32(sym, s.refSym))) % WORD
  }

  /** The correlation of the expected message at its expected end and TRACK_SPAN either side. */
  function Lag(s: RxState, end: nat, c: Coded, d: nat): real
    requires |s.ring| == RING
  {
    Share(c, SoftBits(s.ring, SoftScale(s.dPow), Moved(end, d)))
  }

  ghost predicate FirstBest(s: RxState, end: nat, c: Coded, best: nat)
    requires |s.ring| == RING
  {
    && best < LAGS
    && (forall d: nat :: d < LAGS ==> Lag(s, end, c, d) <= Lag(s, end, c, best))
    && (forall d: nat :: d < best ==> Lag(s, end, c, d) < Lag(s, end, c, best))
  }

  /** What the best correlation does: a miss, or a hit that may move the lock by a slip. */
  function Followed(s: RxState, best: real, at0: real, lag: nat): RxState
    requires s.refSym < WORD && s.alignSym < WORD && lag < LAGS
  {
    if best < TRACK_GOOD then
      var lost := s.trackMiss + 1 >= TRACK_LOST;
      s.(hold := s.hold || best < TRACK_GONE, locked := s.locked && !lost, aligned := s.aligned && !lost,
         trackMiss := if lost then 0 else s.trackMiss + 1)
    else
      var slip := lag != TRACK_SPAN && best > at0 + 0.1;
      s.(trackMiss := 0, hold := false, refSym := if slip then Moved(s.refSym, lag) else s.refSym,
         alignSym := if slip then Moved(s.alignSym, lag) else s.alignSym)
  }

  ghost predicate Tracked(s: RxState, s': RxState, sym: nat, keys: KeyStore)
    requires Sound(s) && sym < WORD
  {
    var end := Sub32(sym, TRACK_SPAN);
    var j, ks := FrameAt(s, end) / MSG_FRAMES, keys(RadeSignal, s.r, 0);
    if j >= J_COUNT then s' == s.(locked := false, aligned := false)
    else if ks.None? then s' == s.(locked := false)
    else
      var c := Codeword(Message(s.r, j, CheckFrom(ks.value)));
      exists b: nat :: FirstBest(s, end, c, b) &&
        s' == Followed(s, Lag(s, end, c, b), Lag(s, end, c, TRACK_SPAN), b)
  }

  /** The correlation tracked is the best of the expected message's, about its expected end. */
  ghost predicate BestAt(s: RxState, end: nat, keys: KeyStore, best: real)
    requires Sound(s) && end < WORD
  {
    var j, ks := FrameAt(s, end) / MSG_FRAMES, keys(RadeSignal, s.r, 0);
    j < J_COUNT && ks.Some? &&
    exists b: nat :: b < LAGS && best == Lag(s, end, Codeword(Message(s.r, j, CheckFrom(ks.value))), b)
                     && FirstBest(s, end, Codeword(Message(s.r, j, CheckFrom(ks.value))), b)
  }

  /** Where the expected message is heard without noise, the lock stays as it is. */
  lemma TrackedHeard(s: RxState, s': RxState, sym: nat, keys: KeyStore, o: Over, j: nat)
    requires Sound(s) && s.locked && sym < WORD && Tracked(s, s', sym, keys)
    requires Sub32(sym, TRACK_SPAN) == SymAt(o, j * MSG_SYMS + MSG_SYMS - 1)
    requires FrameAt(s, Sub32(sym, TRACK_SPAN)) / MSG_FRAMES == j < J_COUNT
    requires MessageHeard(s.ring, o, j) && s.r == o.r
    requires keys(RadeSignal, o.r, 0).Some? && CheckFrom(keys(RadeSignal, o.r, 0).value) == o.chk
    ensures s' == s.(trackMiss := 0, hold := false)
  {
    hide Message, Codeword, Lag, MessageHeard, SymAt, FrameAt, Sub32, Followed;
    var end := Sub32(sym, TRACK_SPAN);
    var c := Codeword(Message(o.r, j, o.chk));
    var b: nat :| FirstBest(s, end, c, b) &&
      s' == Followed(s, Lag(s, end, c, b), Lag(s, end, c, TRACK_SPAN), b);
    LagBound(s, end, c, b);
    LagHeard(s, o, j);
    FollowedHit(s, Lag(s, end, c, b), Lag(s, end, c, TRACK_SPAN), b);
  }

  lemma LagBound(s: RxState, end: nat, c: Coded, d: nat)
    requires |s.ring| == RING
    ensures Lag(s, end, c, d) <= 1.0
  {
    hide SoftBits, Share;
    ShareBound(c, SoftBits(s.ring, SoftScale(s.dPow), Moved(end, d)));
  }

  lemma LagHeard(s: RxState, o: Over, j: nat)
    requires |s.ring| == RING && MessageHeard(s.ring, o, j)
    ensures Lag(s, SymAt(o, j * MSG_SYMS + MSG_SYMS - 1), Codeword(Message(o.r, j, o.chk)), TRACK_SPAN) == 1.0
  {
    var end := SymAt(o, j * MSG_SYMS + MSG_SYMS - 1);
    assert Moved(end, TRACK_SPAN) == end;
    hide SoftBits, Share, Message, Codeword, MessageHeard, SymAt;
    HeardShare(s.ring, SoftScale(s.dPow), o, j);
  }

  lemma FollowedHit(s: RxState, best: real, at0: real, lag: nat)
    requires s.refSym < WORD && s.alignSym < WORD && lag < LAGS
    requires at0 == 1.0 && at0 <= best <= 1.0
    ensures Followed(s, best, at0, lag) == s.(trackMiss := 0, hold := false)
  {
  }

  /** A message found late or early by lag - 4 symbols, plainly better there, moves the lock by as much: a symbol
      then has the frame number it would have had so much earlier. Else the lock stays where it is. */
  lemma Slips(s: RxState, best: real, at0: real, lag: nat, end: nat)
    requires Sound(s) && lag < LAGS && end < WORD && best >= 0.25
    ensures var t := Followed(s, best, at0, lag);
      if lag != 4 && best > at0 + 0.1
      then t.refSym == (s.refSym + WORD + lag - 4) % WORD && FrameAt(t, (end + WORD + lag - 4) % WORD) == FrameAt(s, end)
      else t.refSym == s.refSym && FrameAt(t, end) == FrameAt(s, end)
  {
    hide Half32;
    SameDistance(end, s.refSym, lag);
  }

  lemma SameDistance(a: nat, b: nat, lag: nat)
    requires a < WORD && b < WORD && lag < LAGS
    ensures Sub32((a + WORD + lag - 4) % WORD, (b + WORD + lag - 4) % WORD) == Sub32(a, b)
  {
  }

  // ---- one symbol

  function Product(y1: Complex, y0: Complex): Complex {
    C(y1.re * y0.re + y1.im * y0.im, y1.im * y0.re - y1.re * y0.im)
  }

  function Saturated(n: nat): nat {
    if n < 255 then n + 1 else n
  }

  /** Whether the over counts as encrypted once the power test said auxOn: a message settles it. */
  predicate EncWith(s: RxState, auxOn: bool) {
    if s.msgs > 0 then s.encSeen else auxOn && (!s.clearShown || Saturated(s.auxRun) >= RX_FLIP_SYMS)
  }

  /** A symbol's auxiliary carriers go into the ring, and the test of their power is taken in. */
  function TookIn(s: RxState, aux: seq<Complex>, sym: nat, auxOn: bool, sqrt: real -> real): RxState
    requires |s.ring| == RING && |aux| == AUX && sym < WORD
  {
    var d0, d1 := Product(aux[2], aux[0]), Product(aux[3], aux[1]);
    var p := 0.98 * s.dPow + 0.02 * sqrt(Norm(d0));
    s.(any := true, lastSym := sym, ring := s.ring[sym % RING := Cell((sym + 1) % WORD, d0, d1)],
       dPow := 0.98 * p + 0.02 * sqrt(Norm(d1)), nSym := Saturated(s.nSym),
       auxRun := if auxOn then Saturated(s.auxRun) else 0, encSeen := EncWith(s, auxOn))
  }

  function WithStatus(s: RxState, haveKey: bool): RxState {
    if s.locked && !s.hold then s.(status := Decrypting)
    else if s.locked then s.(status := Acquiring)
    else if !s.encSeen && s.nSym < RX_DECIDE then s.(status := Acquiring)
    else if !s.encSeen then s.(status := Status.Clear, clearShown := true)
    else if !haveKey then s.(status := NoKey)
    else if s.badKey then s.(status := BadKey)
    else s.(status := Acquiring)
  }

  /** What a symbol's search or tracking leaves alone, and what it keeps. */
  ghost predicate Hunted(s: RxState, s': RxState) {
    && Sound(s') && s'.ring == s.ring && s'.dPow == s.dPow && s'.lastSym == s.lastSym && s'.any == s.any
    && s'.clearShown == s.clearShown && s'.auxRun == s.auxRun && s'.nSym == s.nSym && s'.status == s.status
    && s'.msgs >= s.msgs && (s.encSeen ==> s'.encSeen) && (s'.msgs == s.msgs ==> s'.encSeen == s.encSeen)
  }

  ghost predicate RightKey(keys: KeyStore, o: Over) {
    keys(RadeSignal, o.r, 0).Some? && CheckFrom(keys(RadeSignal, o.r, 0).value) == o.chk
  }

  /** Locked on the over, with the transmitter's own frame numbers: the receiver's reference is the
      last symbol of a message that was heard whole, no later than symbol n. */
  ghost predicate InStep(s: RxState, o: Over, first: nat, n: nat) {
    && s.locked && !s.hold && s.r == o.r
    && s.refK % MSG_FRAMES == MSG_FRAMES - 1 && s.refSym == SymAt(o, 2 * s.refK + 1)
    && first + MSG_SYMS - 1 <= 2 * s.refK + 1 <= n < 2 * LAST_FRAME
  }

  lemma HeardMessage(ring: seq<Cell>, o: Over, first: nat, n: nat, j: nat)
    requires |ring| == RING && HeardFrom(ring, o, first, n)
    requires first <= j * MSG_SYMS && (j + 1) * MSG_SYMS <= n + 1 <= (j + 1) * MSG_SYMS + TRACK_SPAN
    ensures MessageHeard(ring, o, j)
  {
  }

  /** In step, the message that ends at symbol n is the over's own. */
  lemma OwnMessage(s: RxState, o: Over, first: nat, n: nat, msg: seq<bool>)
    requires |s.ring| == RING && n >= 1 && n < 2 * LAST_FRAME && InStep(s, o, first, n - 1)
    requires HeardFrom(s.ring, o, first, n) && Sub32(SymAt(o, n), s.refSym) % MSG_SYMS == 0
    requires |msg| == MSG_BITS && MaximumLikelihood(msg, SoftBits(s.ring, SoftScale(s.dPow), SymAt(o, n)))
    ensures NonceOf(msg) == s.r
  {
    hide MaximumLikelihood, SoftBits, HeardFrom, SymAt, Sub32, Weight, MessageHeard, Message, Codeword, NonceOf;
    SubSym(o, n, 2 * s.refK + 1);
    var j := n / MSG_SYMS;
    MessageEnd(s.refK, n);
    HeardMessage(s.ring, o, first, n, j);
    HeardDecodes(s.ring, SoftScale(s.dPow), o, j);
    DecodesClean(msg, Message(o.r, j, o.chk), SoftBits(s.ring, SoftScale(s.dPow), SymAt(o, n)));
    MessageNonce(o.r, j, o.chk);
  }

  lemma MessageNonce(r: Nonce, j: nat, chk: Check)
    ensures NonceOf(Message(r, j, chk)) == r
  {
    hide Crc16.Crc, GrayCode.Gray, GrayCode.Field;
  }

  /** A message's length after the last symbol of a message comes the last symbol of another. */
  lemma MessageEnd(k: nat, n: nat)
    requires k % MSG_FRAMES == MSG_FRAMES - 1 && 2 * k + 1 <= n && (n - (2 * k + 1)) % MSG_SYMS == 0
    ensures n == n / MSG_SYMS * MSG_SYMS + MSG_SYMS - 1
    ensures (k + (n - (2 * k + 1)) / 2) / MSG_FRAMES == n / MSG_SYMS
    ensures n < 2 * LAST_FRAME ==> n / MSG_SYMS < J_COUNT
  {
    var q := (n - (2 * k + 1)) / MSG_SYMS;
    assert k == k / MSG_FRAMES * MSG_FRAMES + MSG_FRAMES - 1;
    assert n == 2 * k + 1 + q * MSG_SYMS;
  }

  lemma TrackTime(d: nat)
    requires d < WORD && Sub32(d, TRACK_SPAN) % MSG_SYMS == 0
    ensures d >= TRACK_SPAN && (d - TRACK_SPAN) % MSG_SYMS == 0
  {
  }

  /** In step, a track finds the message where it is expected. */
  lemma TrackedInStep(s: RxState, s': RxState, o: Over, first: nat, n: nat, keys: KeyStore)
    requires Sound(s) && n >= 1 && n < 2 * LAST_FRAME && InStep(s, o, first, n - 1) && RightKey(keys, o)
    requires HeardFrom(s.ring, o, first, n)
    requires Sub32(Sub32(SymAt(o, n), s.refSym), TRACK_SPAN) % MSG_SYMS == 0
    requires Tracked(s, s', SymAt(o, n), keys)
    ensures s' == s.(trackMiss := 0, hold := false)
  {
    hide HeardFrom, SymAt, Sub32, MessageHeard, Tracked, FrameAt, RightKey;
    var nref := 2 * s.refK + 1;
    SubSym(o, n, nref);
    TrackTime(n - nref);
    var m := n - TRACK_SPAN;
    MessageEnd(s.refK, m);
    SymBack(o, n);
    FrameHere(s, o, m);
    HeardMessage(s.ring, o, first, n, m / MSG_SYMS);
    TrackedAs(s, s', o, n, m, m / MSG_SYMS, keys);
  }

  lemma TrackedAs(s: RxState, s': RxState, o: Over, n: nat, m: nat, j: nat, keys: KeyStore)
    requires Sound(s) && s.locked && s.r == o.r && RightKey(keys, o) && Tracked(s, s', SymAt(o, n), keys)
    requires Sub32(SymAt(o, n), TRACK_SPAN) == SymAt(o, m) && m == j * MSG_SYMS + MSG_SYMS - 1
    requires FrameAt(s, SymAt(o, m)) / MSG_FRAMES == j < J_COUNT && MessageHeard(s.ring, o, j)
    ensures s' == s.(trackMiss := 0, hold := false)
  {
    hide Tracked, MessageHeard, Sub32, FrameAt;
    TrackedHeard(s, s', SymAt(o, n), keys, o, j);
  }

  lemma SymBack(o: Over, n: nat)
    requires n >= TRACK_SPAN
    ensures Sub32(SymAt(o, n), TRACK_SPAN) == SymAt(o, n - TRACK_SPAN)
  {
  }

  /** In step, the lock's frame number of a symbol is the transmitter's. */
  lemma FrameHere(s: RxState, o: Over, m: nat)
    requires s.refSym == SymAt(o, 2 * s.refK + 1) && 2 * s.refK + 1 <= m < 2 * LAST_FRAME
    ensures FrameAt(s, SymAt(o, m)) == s.refK + (m - (2 * s.refK + 1)) / 2
  {
    SubSym(o, m, 2 * s.refK + 1);
  }

  lemma TakenHunted(s: RxState, r: Nonce, j: nat, sym: nat)
    requires Sound(s) && sym < WORD && j < J_COUNT
    ensures Hunted(s, s) && Hunted(s, MessageAt(s, sym)) && Hunted(s, LockOn(s, r, j, sym))
  {
  }

  lemma RefusedHunted(s: RxState, sym: nat)
    requires Sound(s) && sym < WORD
    ensures Hunted(s, WrongCheck(s, sym))
  {
    hide Sub32;
  }

  lemma AcceptedHunted(s: RxState, msg: seq<bool>, sym: nat, t: seq<nat>, keys: KeyStore)
    requires Sound(s) && |msg| == MSG_BITS && sym < WORD
    ensures Hunted(s, Accepted(s, msg, sym, t, keys))
  {
    hide Message, CheckOf, NonceOf, CheckFrom, Hunted, Sound, MessageAt, WrongCheck, LockOn;
    TakenHunted(s, NonceOf(msg), 0, sym);
    RefusedHunted(s, sym);
    if IndexOf(msg, t).Some? {
      TakenHunted(s, NonceOf(msg), IndexOf(msg, t).value, sym);
    }
  }

  lemma FollowedHunted(s0: RxState, s: RxState, best: real, at0: real, lag: nat)
    requires Sound(s) && Hunted(s0, s) && lag < LAGS
    ensures Hunted(s0, Followed(s, best, at0, lag))
  {
    hide Moved;
  }

  lemma TrackedHunted(s0: RxState, s: RxState, s': RxState, sym: nat, keys: KeyStore)
    requires Sound(s) && Hunted(s0, s) && sym < WORD && Tracked(s, s', sym, keys)
    ensures Hunted(s0, s')
  {
    hide Lag, FrameAt, Sub32, Message, Codeword, Followed;
    var end := Sub32(sym, TRACK_SPAN);
    var j, ks := FrameAt(s, end) / MSG_FRAMES, keys(RadeSignal, s.r, 0);
    if j < J_COUNT && ks.Some? {
      var c := Codeword(Message(s.r, j, CheckFrom(ks.value)));
      var b: nat :| FirstBest(s, end, c, b) &&
        s' == Followed(s, Lag(s, end, c, b), Lag(s, end, c, TRACK_SPAN), b);
      FollowedHunted(s0, s, Lag(s, end, c, b), Lag(s, end, c, TRACK_SPAN), b);
    }
  }

  lemma SearchedHunted(s: RxState, s': RxState, sym: nat, keys: KeyStore)
    requires Searched(s, s', sym, keys)
    ensures Hunted(s, s')
  {
    hide Sound;
  }

  /** A message heard whole, with the right key, can be found alone. */
  lemma {:induction false} HeardFindable(ring: seq<Cell>, scale: real, o: Over, j: nat, keys: KeyStore)
    requires |ring| == RING && scale > 0.0 && MessageHeard(ring, o, j) && RightKey(keys, o) && j < J_COUNT
    ensures Findable(ring, scale, SymAt(o, j * MSG_SYMS + MSG_SYMS - 1), o, j, [], keys)
  {
    var sym := SymAt(o, j * MSG_SYMS + MSG_SYMS - 1);
    assert EndOf(sym, 0) == sym;
    hide EndOf, SymAt, MessageHeard, SoftBits, Present, Weight, Codeword, Message, Sub32, RightSigns, Erased, AllClean,
      OneNearlyWhole, CheckFrom;
    HeardDecodes(ring, scale, o, j);
    AloneClean(o, j, [SoftBits(ring, scale, sym)]);
    var none: seq<nat> := [];
    assert Recent(ring, scale, sym, |none| + 1) == [SoftBits(ring, scale, sym)];
    hide Recent;
    assert Findable(ring, scale, sym, o, j, none, keys);
  }

  lemma AloneClean(o: Over, j: nat, v: seq<Soft>)
    requires |v| == 1 && RightSigns(Codeword(Message(o.r, j, o.chk)), v[0]) && Weight(Erased(v[0])) <= 4
    ensures AllClean(o.r, j, o.chk, v) && OneNearlyWhole(v)
  {
    hide Weight, Codeword, Message, RightSigns, Erased;
    assert Weight(Erased(v[0])) < 10;
    assert forall n :: 0 <= n < |v| ==> v[n] == v[0] && j - n == j;
  }

  /** The mean amplitude of the products, by which soft bits are scaled, follows both carriers' with a fiftieth. */
  lemma TookInPower(s: RxState, aux: seq<Complex>, sym: nat, auxOn: bool, sqrt: real -> real)
    requires |s.ring| == RING && |aux| == AUX && sym < WORD
    ensures var t, d0, d1 := TookIn(s, aux, sym, auxOn, sqrt), Product(aux[2], aux[0]), Product(aux[3], aux[1]);
      && t.dPow == 0.9604 * s.dPow + 0.0196 * sqrt(Norm(d0)) + 0.02 * sqrt(Norm(d1))
      && t.ring == s.ring[sym % 256 := Cell((sym + 1) % WORD, d0, d1)]
  {
    hide Product, Norm;
  }

  // ---- what the receiver went by

  /** A message that decoded, with a key to hand: where it ended, and whether its check was right. */
  datatype Checked = Checked(sym: nat, right: bool)

  /** What came since the last reset: the power test of each symbol, the messages checked, whether one came
      without a key, the correlations tracked since the lock, and whether there was a key at the last call. */
  datatype Log = Log(tests: seq<bool>, checks: seq<Checked>, unkeyed: bool, tracks: seq<real>, haveKey: bool)

  function NoLog(): Log {
    Log([], [], false, [], false)
  }

  /** For how many symbols in a row, up to the last one, the power test has been on. */
  function OnFor(tests: seq<bool>): nat {
    if tests == [] || !tests[|tests| - 1] then 0 else OnFor(tests[..|tests| - 1]) + 1
  }

  /** The test was off at some symbol from the tenth on. */
  ghost predicate ShownOff(tests: seq<bool>) {
    exists i :: 10 <= i + 1 <= |tests| && !tests[i]
  }

  /** By the tests alone the over is clear: ten symbols came, and the test is off, or has been on for less than
      fifty symbols in an over shown to be clear. */
  ghost predicate HeardClear(tests: seq<bool>) {
    |tests| >= 10 && (!tests[|tests| - 1] || (OnFor(tests) < 50 && ShownOff(tests)))
  }

  /** By the tests alone it is encrypted. */
  ghost predicate HeardOn(tests: seq<bool>) {
    tests != [] && tests[|tests| - 1] && (OnFor(tests) >= 50 || !ShownOff(tests))
  }

  /** Two wrong checks on end, a whole number of messages apart, the second of them check i. */
  ghost predicate Doubted(checks: seq<Checked>, i: nat)
    requires 0 < i < |checks| && forall j :: 0 <= j < |checks| ==> checks[j].sym < WORD
  {
    !checks[i - 1].right && !checks[i].right && Sub32(checks[i].sym, checks[i - 1].sym) % MSG_SYMS == 0
  }

  ghost predicate Proper(checks: seq<Checked>) {
    forall j :: 0 <= j < |checks| ==> checks[j].sym < WORD
  }

  /** The key is wrong: two such checks, and no right one since. */
  ghost predicate TwoWrong(checks: seq<Checked>)
    requires Proper(checks)
  {
    exists i :: 0 < i < |checks| && Doubted(checks, i) && forall j :: i < j < |checks| ==> !checks[j].right
  }

  /** A message was taken: its check was right, or the second wrong one, or there was no key. */
  ghost predicate Taken(log: Log)
    requires Proper(log.checks)
  {
    || log.unkeyed
    || (exists i :: 0 <= i < |log.checks| && log.checks[i].right)
    || (exists i :: 0 < i < |log.checks| && Doubted(log.checks, i))
  }

  /** How many tracks on end, up to the last, did not find the message. */
  function Missed(tracks: seq<real>): nat {
    if tracks == [] || tracks[|tracks| - 1] >= 0.25 then 0 else Missed(tracks[..|tracks| - 1]) + 1
  }

  /** One of them found it plainly absent. */
  ghost predicate Absent(tracks: seq<real>) {
    exists i :: |tracks| - Missed(tracks) <= i < |tracks| && 0 <= i && tracks[i] < 0.1
  }

  /** The messages and the tracks explain the receiver's lock, hold and key state. */
  ghost predicate Explained(s: RxState, log: Log) {
    && Proper(log.checks)
    && (s.badChecks > 0 <==> log.checks != [] && !log.checks[|log.checks| - 1].right)
    && (s.badChecks > 0 ==> s.badSym == log.checks[|log.checks| - 1].sym)
    && (s.badKey <==> TwoWrong(log.checks))
    && (s.msgs > 0 <==> Taken(log))
    && (s.locked ==> s.trackMiss == Missed(log.tracks) < 3 && (s.hold <==> Absent(log.tracks)))
  }

  /** The power tests explain its counts, and its first guess; seen are those the status already knows. */
  ghost predicate Tested(s: RxState, tests: seq<bool>, seen: seq<bool>) {
    && s.nSym == (if |tests| < 255 then |tests| else 255)
    && s.auxRun == (if OnFor(tests) < 255 then OnFor(tests) else 255)
    && (s.msgs == 0 ==> (s.encSeen <==> HeardOn(tests)) && (s.clearShown <==> ShownOff(seen)))
  }

  /** And the status: while locked by the tracks; else clear exactly if no message was taken and the tests say so. */
  ghost predicate Shown(s: RxState, log: Log)
    requires Proper(log.checks)
  {
    var encrypted := Taken(log) || HeardOn(log.tests);
    s.status ==
      if s.locked then (if Absent(log.tracks) then Acquiring else Decrypting)
      else if !Taken(log) && HeardClear(log.tests) then Status.Clear
      else if encrypted && !log.haveKey then NoKey
      else if encrypted && TwoWrong(log.checks) then BadKey
      else Acquiring
  }

  ghost predicate Told(s: RxState, log: Log) {
    Explained(s, log) && Tested(s, log.tests, log.tests) && Shown(s, log)
  }

  lemma ResetTold()
    ensures Told(Reset(), NoLog())
  {
  }

  /** A symbol taken in brings its test. */
  lemma TookInTested(s: RxState, aux: seq<Complex>, sym: nat, auxOn: bool, sqrt: real -> real, tests: seq<bool>)
    requires Sound(s) && sym < WORD && |aux| == AUX && Tested(s, tests, tests)
    ensures Tested(TookIn(s, aux, sym, auxOn, sqrt), tests + [auxOn], tests)
  {
    hide Product, Norm;
    var more := tests + [auxOn];
    assert more[..|tests|] == tests;
    if auxOn {
      ShownOffOn(tests);
    }
  }

  /** A test that is on shows nothing. */
  lemma ShownOffOn(tests: seq<bool>)
    ensures ShownOff(tests + [true]) <==> ShownOff(tests)
  {
    var more := tests + [true];
    if ShownOff(tests) {
      var i :| 10 <= i + 1 <= |tests| && !tests[i];
      assert !more[i];
    }
    if ShownOff(more) {
      var i :| 10 <= i + 1 <= |more| && !more[i];
      assert !tests[i];
    }
  }

  lemma TookInExplained(s: RxState, aux: seq<Complex>, sym: nat, auxOn: bool, sqrt: real -> real, log: Log)
    requires Sound(s) && sym < WORD && |aux| == AUX && Explained(s, log)
    ensures Explained(TookIn(s, aux, sym, auxOn, sqrt), log.(tests := log.tests + [auxOn]))
  {
    hide Product, Norm;
  }

  lemma HuntedTested(s: RxState, s': RxState, tests: seq<bool>, seen: seq<bool>)
    requires Tested(s, tests, seen) && Hunted(s, s')
    ensures Tested(s', tests, seen)
  {
  }

  /** The status after a symbol. */
  lemma StatusTold(s: RxState, haveKey: bool, log: Log, seen: seq<bool>)
    requires Sound(s) && Explained(s, log) && log.haveKey == haveKey
    requires log.tests != [] && Tested(s, log.tests, seen)
    requires s.msgs > 0 || seen == log.tests[..|log.tests| - 1]
    ensures Told(WithStatus(s, haveKey), log)
  {
    hide WithStatus, Explained, Tested, Shown;
    StatusExplained(s, haveKey, log);
    StatusTested(s, haveKey, log.tests, seen);
    StatusShown(s, haveKey, log, seen);
  }

  lemma StatusExplained(s: RxState, haveKey: bool, log: Log)
    requires Explained(s, log)
    ensures Explained(WithStatus(s, haveKey), log)
  {
    hide Proper, TwoWrong, Taken, Absent, Missed;
  }

  lemma StatusTested(s: RxState, haveKey: bool, tests: seq<bool>, seen: seq<bool>)
    requires Sound(s) && tests != [] && Tested(s, tests, seen) && (s.msgs > 0 || seen == tests[..|tests| - 1])
    ensures Tested(WithStatus(s, haveKey), tests, tests)
  {
    hide ShownOff, OnFor;
    if s.msgs == 0 {
      ShownNext(tests);
    }
  }

  lemma StatusShown(s: RxState, haveKey: bool, log: Log, seen: seq<bool>)
    requires Sound(s) && Explained(s, log) && log.haveKey == haveKey
    requires log.tests != [] && Tested(s, log.tests, seen) && (s.msgs > 0 || seen == log.tests[..|log.tests| - 1])
    ensures Shown(WithStatus(s, haveKey), log)
  {
    hide ShownOff, OnFor, TwoWrong, Taken, Absent, Missed;
    if s.msgs == 0 {
      ShownNext(log.tests);
    }
  }

  /** When the over has been shown clear, after one test more. */
  lemma ShownNext(tests: seq<bool>)
    requires tests != []
    ensures var n := |tests| - 1;
      ShownOff(tests) <==> if tests[n] then ShownOff(tests[..n]) else |tests| >= 10
    ensures ShownOff(tests) || ShownOff(tests[..|tests| - 1]) ==> |tests| >= 10
  {
    var n := |tests| - 1;
    assert tests == tests[..n] + [tests[n]];
    if tests[n] {
      ShownOffOn(tests[..n]);
    } else {
      TestOff(tests);
    }
  }

  lemma TestOff(tests: seq<bool>)
    requires tests != [] && !tests[|tests| - 1]
    ensures |tests| >= 10 ==> ShownOff(tests)
    ensures |tests| < 10 ==> !ShownOff(tests)
  {
    if |tests| >= 10 {
      assert !tests[|tests| - 1];
    }
  }

  // what a message does to it

  /** What the log says of a message: nothing if it did not decode, else how its check came out. */
  ghost function Noted(log: Log, msg: seq<bool>, sym: nat, t: seq<nat>, keys: KeyStore): Log
    requires |msg| == MSG_BITS
  {
    var ks := keys(RadeSignal, NonceOf(msg), 0);
    if IndexOf(msg, t).None? then log
    else if ks.None? then log.(unkeyed := true)
    else
      var right := CheckFrom(ks.value) == CheckOf(msg);
      log.(checks := log.checks + [Checked(sym, right)], tracks := if right then [] else log.tracks)
  }

  lemma AcceptedExplained(s: RxState, msg: seq<bool>, sym: nat, t: seq<nat>, keys: KeyStore, log: Log)
    requires Sound(s) && |msg| == MSG_BITS && sym < WORD && Explained(s, log)
    ensures Explained(Accepted(s, msg, sym, t, keys), Noted(log, msg, sym, t, keys))
  {
    hide Message, CheckOf, NonceOf, CheckFrom, IndexOf, MessageAt, WrongCheck, LockOn, Explained;
    var j, ks := IndexOf(msg, t), keys(RadeSignal, NonceOf(msg), 0);
    if j.Some? {
      UnkeyedExplained(s, sym, log);
      if ks.Some? {
        RightExplained(s, NonceOf(msg), j.value, sym, log);
        WrongExplained(s, sym, log);
      }
    }
  }

  lemma UnkeyedExplained(s: RxState, sym: nat, log: Log)
    requires Explained(s, log)
    ensures Explained(MessageAt(s, sym), log.(unkeyed := true))
  {
    hide Doubted;
  }

  lemma RightExplained(s: RxState, r: Nonce, j: nat, sym: nat, log: Log)
    requires Explained(s, log) && sym < WORD
    ensures Explained(LockOn(s, r, j, sym), log.(checks := log.checks + [Checked(sym, true)], tracks := []))
  {
    var c := log.checks + [Checked(sym, true)];
    assert c[|log.checks|].right;
    assert !TwoWrong(c);
  }

  lemma WrongExplained(s: RxState, sym: nat, log: Log)
    requires Explained(s, log) && sym < WORD && s.badSym < WORD
    ensures Explained(WrongCheck(s, sym), log.(checks := log.checks + [Checked(sym, false)]))
  {
    hide Sub32;
    var n := |log.checks|;
    var c := log.checks + [Checked(sym, false)];
    var pair := n > 0 && Doubted(c, n);
    assert s.badChecks > 0 && Sub32(sym, s.badSym) % MSG_SYMS == 0 <==> pair;
    MoreChecks(log.checks, Checked(sym, false));
    assert Taken(log.(checks := c)) <==> Taken(log) || pair;
  }

  /** One wrong check more. */
  lemma MoreChecks(checks: seq<Checked>, x: Checked)
    requires Proper(checks) && x.sym < WORD && !x.right
    ensures var c, n := checks + [x], |checks|;
      && Proper(c)
      && (TwoWrong(c) <==> TwoWrong(checks) || (n > 0 && Doubted(c, n)))
      && ((exists i :: 0 <= i < |c| && c[i].right) <==> (exists i :: 0 <= i < n && checks[i].right))
      && ((exists i :: 0 < i < |c| && Doubted(c, i)) <==>
            (exists i :: 0 < i < n && Doubted(checks, i)) || (n > 0 && Doubted(c, n)))
  {
    hide Sub32;
    var c, n := checks + [x], |checks|;
    assert forall i :: 0 < i < n ==> Doubted(c, i) == Doubted(checks, i);
    if TwoWrong(checks) {
      var i :| 0 < i < n && Doubted(checks, i) && forall j :: i < j < n ==> !checks[j].right;
      assert Doubted(c, i) && forall j :: i < j < |c| ==> !c[j].right;
    }
    if TwoWrong(c) {
      var i :| 0 < i < |c| && Doubted(c, i) && forall j :: i < j < |c| ==> !c[j].right;
      if i < n {
        assert Doubted(checks, i) && forall j :: i < j < n ==> checks[j] == c[j];
      }
    }
    if i :| 0 <= i < n && checks[i].right {
      assert c[i].right;
    }
    if i :| 0 <= i < |c| && c[i].right {
      assert checks[i].right;
    }
  }

  /** And a track. */
  lemma FollowedExplained(s: RxState, best: real, at0: real, lag: nat, log: Log)
    requires Sound(s) && s.locked && lag < LAGS && Explained(s, log)
    ensures Explained(Followed(s, best, at0, lag), log.(tracks := log.tracks + [best]))
  {
    hide Moved, Doubted, TwoWrong;
    var more := log.tracks + [best];
    assert more[..|log.tracks|] == log.tracks;
    MissedBound(log.tracks);
    if best < 0.25 {
      AbsentNext(log.tracks, best);
    }
  }

  lemma {:induction false} MissedBound(tracks: seq<real>)
    ensures Missed(tracks) <= |tracks|
  {
    if tracks != [] {
      MissedBound(tracks[..|tracks| - 1]);
    }
  }

  lemma AbsentNext(tracks: seq<real>, best: real)
    requires best < 0.25
    ensures Absent(tracks + [best]) <==> Absent(tracks) || best < 0.1
  {
    var more := tracks + [best];
    assert more[..|tracks|] == tracks;
    assert Missed(more) == Missed(tracks) + 1;
    MissedBound(tracks);
    if Absent(tracks) {
      var i :| |tracks| - Missed(tracks) <= i < |tracks| && 0 <= i && tracks[i] < 0.1;
      assert more[i] < 0.1;
    }
    if best < 0.1 {
      assert more[|tracks|] < 0.1;
    }
    if Absent(more) {
      var i :| |more| - Missed(more) <= i < |more| && 0 <= i && more[i] < 0.1;
      assert i < |tracks| ==> tracks[i] < 0.1;
    }
  }

  // ---- the call per symbol

  /** What a caller relies on between calls. */
  ghost predicate StatusRight(s: RxState) {
    && (s.status == Decrypting <==> s.locked && !s.hold)
    && (s.msgs > 0 ==> s.status != Status.Clear)
  }

  /** A gap of over two seconds: the signal was lost, and the receiver starts afresh. */
  predicate Gap(s: RxState, sym: nat)
    requires s.lastSym < WORD && sym < WORD
  {
    s.any && Sub32(sym, s.lastSym) > GAP_RESET
  }

  predicate Repeat(s: RxState, sym: nat) {
    s.any && sym == s.lastSym
  }

  /** Symbol n of the over comes next, and what is to have been heard from symbol first on was,
      this one included, without noise. */
  ghost predicate Hears(s: RxState, aux: seq<Complex>, sym: nat, o: Over, first: nat, n: nat)
    requires Sound(s) && sym < WORD && |aux| == AUX
  {
    && sym == SymAt(o, n) && !Repeat(s, sym)
    && (first <= n ==> CleanCell(o, n, Cell((sym + 1) % WORD, Product(aux[2], aux[0]), Product(aux[3], aux[1]))))
    && (first < n ==> !Gap(s, sym) && HeardFrom(s.ring, o, first, n - 1))
  }

  /** The receiver looks for a message of the over at sym: it is searching, at symbols where this one
      may end a message, or it is locked on another over, whose messages end here too. */
  ghost predicate Seeking(s: RxState, sym: nat, auxOn: bool, o: Over)
    requires Sound(s) && sym < WORD
  {
    if s.locked then s.r != o.r && Sub32(sym, s.refSym) % MSG_SYMS == 0
    else EncWith(s, auxOn) && (!s.aligned || Sub32(sym, s.alignSym) % MSG_SYMS == 0)
  }

  /** Symbol n ends a message every symbol of which came since first. */
  predicate EndsWhole(first: nat, n: nat) {
    n % MSG_SYMS == MSG_SYMS - 1 && first + MSG_SYMS <= n + 1
  }

  lemma StatusHolds(s: RxState, haveKey: bool)
    requires Sound(s)
    ensures Sound(WithStatus(s, haveKey)) && StatusRight(WithStatus(s, haveKey))
    ensures var t := WithStatus(s, haveKey);
            t.locked == s.locked && t.msgs == s.msgs && t.any == s.any && t.lastSym == s.lastSym && t.ring == s.ring
  {
  }

  lemma TookInSound(s: RxState, aux: seq<Complex>, sym: nat, auxOn: bool, sqrt: real -> real)
    requires Sound(s) && sym < WORD && |aux| == AUX
    ensures Sound(TookIn(s, aux, sym, auxOn, sqrt))
  {
    hide Product, Norm;
  }

  /** A symbol taken in joins those heard before it. */
  lemma TookInHeard(s: RxState, aux: seq<Complex>, sym: nat, auxOn: bool, sqrt: real -> real, o: Over, first: nat, n: nat)
    requires Sound(s) && sym < WORD && |aux| == AUX && Hears(s, aux, sym, o, first, n)
    ensures HeardFrom(TookIn(s, aux, sym, auxOn, sqrt).ring, o, first, n)
  {
    hide Product, Norm, CleanCell, SymAt, Gap, Repeat, Heard;
    if first <= n {
      assert HeardFrom(s.ring, o, first, n - 1);
      HearNext(s.ring, o, first, n, Cell((sym + 1) % WORD, Product(aux[2], aux[0]), Product(aux[3], aux[1])));
    }
  }

  /** Symbol n is in the ring and the receiver is in step, or looks for the message heard whole that
      ends here. */
  ghost predicate Ready(s: RxState, sym: nat, keys: KeyStore, o: Over, first: nat, n: nat)
    requires Sound(s) && sym < WORD
  {
    && 1 <= n < 2 * LAST_FRAME && sym == SymAt(o, n) && HeardFrom(s.ring, o, first, n) && RightKey(keys, o)
    && (InStep(s, o, first, n - 1) || (Seeking(s, sym, s.encSeen, o) && s.encSeen && EndsWhole(first, n)))
  }

  /** A call with symbol n of the over, heard without noise like those since first, the key right:
      in step, or looking for the message heard whole that ends here. */
  ghost predicate CleanCall(s: RxState, aux: seq<Complex>, sym: nat, auxOn: bool, keys: KeyStore,
                            o: Over, first: nat, n: nat)
    requires Sound(s) && sym < WORD && |aux| == AUX
  {
    && 1 <= n < 2 * LAST_FRAME && Hears(s, aux, sym, o, first, n) && !Gap(s, sym)
    && RightKey(keys, o) && FrameKey(keys, o.r, n / 2).Some?
    && (InStep(s, o, first, n - 1) || (Seeking(s, sym, auxOn, o) && EndsWhole(first, n)))
  }

  lemma CleanReady(s: RxState, aux: seq<Complex>, sym: nat, auxOn: bool, keys: KeyStore, sqrt: real -> real,
                   o: Over, first: nat, n: nat)
    requires Sound(s) && sym < WORD && |aux| == AUX && CleanCall(s, aux, sym, auxOn, keys, o, first, n)
    ensures var t := TookIn(s, aux, sym, auxOn, sqrt); Sound(t) && Ready(t, sym, keys, o, first, n)
  {
    hide Sound, HeardFrom, RightKey, FrameKey, SymAt, InStep, Hears, Seeking, TookIn, Sub32, Gap;
    TookInSound(s, aux, sym, auxOn, sqrt);
    TookInHeard(s, aux, sym, auxOn, sqrt, o, first, n);
    HearsSym(s, aux, sym, o, first, n);
    TookInStep(s, aux, sym, auxOn, sqrt, o, first, n);
  }

  lemma HearsSym(s: RxState, aux: seq<Complex>, sym: nat, o: Over, first: nat, n: nat)
    requires Sound(s) && sym < WORD && |aux| == AUX && Hears(s, aux, sym, o, first, n)
    ensures sym == SymAt(o, n)
  {
  }

  /** Where a message heard whole ends, the search finds it. */
  lemma ReadyFindable(s: RxState, sym: nat, keys: KeyStore, o: Over, first: nat, n: nat)
    requires Sound(s) && sym < WORD && EndsWhole(first, n) && Ready(s, sym, keys, o, first, n)
    ensures Findable(s.ring, SoftScale(s.dPow), sym, o, n / MSG_SYMS, [], keys)
  {
    hide HeardFrom, RightKey, SymAt, Findable, Sub32, Seeking, InStep;
    HeardMessage(s.ring, o, first, n, n / MSG_SYMS);
    HeardFindable(s.ring, SoftScale(s.dPow), o, n / MSG_SYMS, keys);
  }

  lemma FoundStep(s: RxState, s': RxState, sym: nat, keys: KeyStore, o: Over, first: nat, n: nat)
    requires Sound(s) && sym < WORD && EndsWhole(first, n) && Ready(s, sym, keys, o, first, n)
    requires LockedAt(s', sym, keys) && s'.r == o.r && s'.refK == (n / MSG_SYMS + 1) * MSG_FRAMES - 1
    ensures InStep(s', o, first, n)
  {
    hide HeardFrom, RightKey, SymAt, Sub32, Seeking;
  }

  lemma KeptStep(s: RxState, s': RxState, o: Over, first: nat, n: nat)
    requires 1 <= n < 2 * LAST_FRAME && InStep(s, o, first, n - 1) && s' == s.(trackMiss := s'.trackMiss)
    ensures InStep(s', o, first, n)
  {
    hide SymAt;
  }

  class RadeRx {
    var s: RxState           // the receiver's struct
    ghost var log: Log       // what came since the last reset

    constructor ()
      ensures s == Reset() && log == NoLog() && Sound(s) && StatusRight(s) && Told(s, log)
    {
      s, log := Reset(), NoLog();
      ResetTold();
    }

    /** Whether decoded speech may be played: while locked, unless a track since the last that found the
        message found it plainly absent; else exactly if no message was taken and the power tests say that
        the over is clear. */
    method Play() returns (play: bool)
      requires Sound(s) && StatusRight(s) && Told(s, log)
      ensures play <==> if s.locked then !Absent(log.tracks) else !Taken(log) && HeardClear(log.tests)
      ensures s.msgs > 0 ==> (play <==> s.locked && !s.hold)
    {
      play := s.status == Status.Clear || s.status == Decrypting;
    }

    method MarkMessage(sym: nat)
      modifies this`s
      ensures s == MessageAt(old(s), sym)
    {
      s := s.(encSeen := true);
      s := s.(msgs := s.msgs + 1);
      s := s.(alignSym := sym);
      s := s.(aligned := true);
    }

    /** A decoded message: CRC, then whether its index fits the combining, then the key. */
    method Accept(msg: seq<bool>, sym: nat, t: seq<nat>, keys: KeyStore) returns (ok: bool)
      requires Sound(s) && Explained(s, log) && |msg| == MSG_BITS && sym < WORD
      modifies this
      ensures s == Accepted(old(s), msg, sym, t, keys)
      ensures log == Noted(old(log), msg, sym, t, keys) && Explained(s, log)
      ensures ok == Accepts(msg, t, keys)
    {
      AcceptedExplained(s, msg, sym, t, keys, log);
      log := Noted(log, msg, sym, t, keys);
      hide Explained, Noted;
      hide Message, Pattern;
      var j := Index(msg, t);
      IndexUnique(msg, t, j);
      hide IndexOf, WrongCheck, CheckOf, NonceOf, CheckFrom, Sub32;
      if j.None? {
        return false;
      }
      var ks := keys(RadeSignal, NonceOf(msg), 0);
      if ks.None? {
        MarkMessage(sym);
        return false;
      }
      if CheckFrom(ks.value) != CheckOf(msg) {
        RejectCheck(sym);
        return false;
      }
      MarkMessage(sym);
      s := s.(badChecks := 0, badKey := false, hold := false, trackMiss := 0);
      s := s.(r := NonceOf(msg), refSym := sym, refK := (j.value + 1) * MSG_FRAMES - 1, locked := true);
      return true;
    }

    /** The check fails: another key, or a false decode. */
    method RejectCheck(sym: nat)
      requires sym < WORD && s.badSym < WORD
      modifies this`s
      ensures s == WrongCheck(old(s), sym)
    {
      hide Sub32;
      var n := 1;
      if s.badChecks > 0 && Sub32(sym, s.badSym) % MSG_SYMS == 0 {
        n := s.badChecks + 1;
      }
      s := s.(msgsBad := s.msgsBad + 1, badChecks := n, badSym := sym);
      if n >= 2 {
        s := s.(badKey := true, locked := false);
        MarkMessage(sym);
      }
    }

    /** Try every pattern of ncomb flips the messages can differ by, on the soft bits v. */
    method TryPatterns(v: seq<Soft>, ncomb: nat, sym: nat, keys: KeyStore,
                       ghost o: Over, ghost j: nat, ghost target: seq<nat>)
      returns (ok: bool)
      requires Sound(s) && !s.locked && sym < WORD && 1 <= ncomb < COMBINE && |v| == ncomb + 1 && Explained(s, log)
      modifies this
      ensures Explained(s, log) && SameTests(old(log), log)
      ensures Searched(old(s), s, sym, keys) && ok == s.locked
      ensures |target| == ncomb && Winning(v, target, o, j, keys) ==> ok
    {
      hide Winning, Searched, Sound, Tried, Rank, RankOf, Explained;
      ghost var s0, log0 := s, log;
      ghost var win := |target| == ncomb && Winning(v, target, o, j, keys);
      SearchedSelf(s, sym, keys);
      if win {
        WinningTried(v, target, o, j, keys);
        RankStart(target);
      }
      for a := 0 to J_BITS
        invariant !s.locked && Sound(s) && Searched(s0, s, sym, keys) && Explained(s, log) && SameTests(log0, log)
        invariant win ==> RankOf(target) >= Rank(a, 0, 0)
      {
        var bTop := if ncomb >= 2 then J_BITS else 1;
        for b := 0 to bTop
          invariant !s.locked && Sound(s) && Searched(s0, s, sym, keys) && Explained(s, log) && SameTests(log0, log)
          invariant win ==> RankOf(target) >= Rank(a, b, 0)
        {
          var cTop := if ncomb >= 3 then J_BITS else 1;
          for c := 0 to cTop
            invariant !s.locked && Sound(s) && Searched(s0, s, sym, keys) && Explained(s, log) && SameTests(log0, log)
            invariant win ==> RankOf(target) >= Rank(a, b, c)
          {
            var t := [a, b, c][..ncomb];
            if Tried(t) {
              ok := TryPattern(v, t, sym, keys, o, j, s0);
              if ok {
                return;
              }
            }
            if win {
              RankNext(target, a, b, c);
            }
          }
          if win {
            RankSkip(target, a, b);
          }
        }
        if win {
          RankSkip(target, a, 0);
        }
      }
      return false;
    }

    /** Combine under one pattern, decode, and see whether the result is accepted. */
    method TryPattern(v: seq<Soft>, t: seq<nat>, sym: nat, keys: KeyStore, ghost o: Over, ghost j: nat,
                      ghost s0: RxState)
      returns (ok: bool)
      requires Sound(s) && !s.locked && sym < WORD && |v| == |t| + 1 && Tried(t)
      requires Searched(s0, s, sym, keys) && Explained(s, log)
      modifies this
      ensures Explained(s, log) && SameTests(old(log), log)
      ensures Sound(s) && Searched(s0, s, sym, keys) && ok == s.locked
      ensures Winning(v, t, o, j, keys) ==> ok
    {
      hide Searched, Combined, MaximumLikelihood, Accepted, IndexOf, Message, Accepts, Explained;
      var acc := Combine(v, t);
      var msg := Viterbi(acc);
      AcceptedSearched(s0, s, msg, sym, t, keys);
      SearchedSound(s0, Accepted(s, msg, sym, t, keys), sym, keys);
      ok := Accept(msg, sym, t, keys);
      if Winning(v, t, o, j, keys) {
        WinningAccepted(v, t, o, j, keys, msg);
      }
    }

    /** Is there a message whose last symbol is sym? Alone, or with up to three before it. */
    method TryMessage(sym: nat, haveKey: bool, keys: KeyStore, ghost o: Over, ghost j: nat, ghost target: seq<nat>)
      requires Sound(s) && !s.locked && sym < WORD && Explained(s, log)
      modifies this
      ensures Explained(s, log) && SameTests(old(log), log)
      ensures Searched(old(s), s, sym, keys)
      ensures Weight(Present(old(s).ring, sym)) < 102 ==> s == old(s) && log == old(log)
      ensures Findable(old(s).ring, SoftScale(old(s).dPow), sym, o, j, target, keys) && (haveKey || target == []) ==>
                s.locked && (target == [] ==> s.r == o.r && s.refK == (j + 1) * MSG_FRAMES - 1)
    {
      hide SoftBits, Present, Searched, Findable, Accepts, MaximumLikelihood, Weight, SoftScale, IndexOf, EndOf, Explained;
      ghost var s0, log0, scale := s, log, SoftScale(s.dPow);
      ghost var there := Findable(s.ring, scale, sym, o, j, target, keys);
      SearchedSelf(s, sym, keys);
      EndHere(sym);
      var v, have := [], [];
      for n := 0 to COMBINE
        invariant s == s0 && log == log0 && |v| == |have| == n
        invariant forall i :: 0 <= i < n ==> v[i] == SoftBits(s.ring, scale, EndOf(sym, i))
        invariant forall i :: 0 <= i < n ==> have[i] == Weight(Present(s.ring, EndOf(sym, i)))
      {
        var soft, count := RxSoft(s.ring, s.dPow, EndOf(sym, n));
        v, have := v + [soft], have + [count];
      }
      if there {
        FoundHave(s.ring, scale, sym, o, j, target, keys);
      }
      if have[0] < CODED_BITS / 2 {
        return;
      }
      var msg := Viterbi(v[0]);
      AcceptedSearched(s0, s, msg, sym, [], keys);
      if there && target == [] {
        FoundAlone(s.ring, scale, sym, o, j, keys, msg);
      }
      var ok := Accept(msg, sym, [], keys);
      if ok || !haveKey {
        return;
      }
      for ncomb := 1 to COMBINE
        invariant !s.locked && Searched(s0, s, sym, keys) && Explained(s, log) && SameTests(log0, log)
        invariant there ==> |target| >= ncomb
      {
        if have[ncomb] < CODED_BITS / 2 {
          return;
        }
        if there && |target| == ncomb {
          FoundWins(s0.ring, scale, sym, o, j, target, keys, v[..ncomb + 1]);
        }
        SearchedSound(s0, s, sym, keys);
        ghost var s1 := s;
        ok := TryPatterns(v[..ncomb + 1], ncomb, sym, keys, o, j, target);
        SearchedOn(s0, s1, s, sym, keys);
        if ok {
          return;
        }
      }
    }

    /** Locked: correlate the expected message where it should have ended, and follow it. */
    method Track(sym: nat, keys: KeyStore)
      requires Sound(s) && s.locked && sym < WORD && Explained(s, log)
      modifies this
      ensures Sound(s) && Tracked(old(s), s, sym, keys)
      ensures Explained(s, log) && SameTests(old(log), log)
      ensures log == old(log) || (|log.tracks| == |old(log).tracks| + 1 && log == old(log).(tracks := log.tracks)
                && old(log).tracks <= log.tracks && BestAt(old(s), Sub32(sym, TRACK_SPAN), keys, log.tracks[|old(log).tracks|]))
    {
      hide Message, Codeword, Lag, FrameAt, Sub32, Followed, FirstBest, TwoWrong, Doubted, Absent, Missed;
      var end := Sub32(sym, TRACK_SPAN);
      var j := FrameAt(s, end) / MSG_FRAMES;
      if j >= J_COUNT {
        s := s.(locked := false, aligned := false);
        return;
      }
      var ks := keys(RadeSignal, s.r, 0);
      if ks.None? {
        s := s.(locked := false);
        return;
      }
      var coded := ConvEncode(Message(s.r, j, CheckFrom(ks.value)));
      var best, lag, at0 := BestLag(end, coded);
      FollowedExplained(s, best, at0, lag, log);
      Follow(best, lag, at0);
      log := log.(tracks := log.tracks + [best]);
    }

    method Follow(best: real, lag: nat, at0: real)
      requires Sound(s) && lag < LAGS
      modifies this`s
      ensures Sound(s) && s == Followed(old(s), best, at0, lag)
    {
      hide Moved;
      if best < TRACK_GOOD {
        Miss(best);
        return;
      }
      s := s.(trackMiss := 0, hold := false);
      if lag != TRACK_SPAN && best > at0 + 0.1 {
        s := s.(refSym := Moved(s.refSym, lag), alignSym := Moved(s.alignSym, lag));
      }
    }

    /** The expected message is not there: mute at once if it is plainly absent, unlock in the end. */
    method Miss(best: real)
      requires Sound(s) && best < TRACK_GOOD
      modifies this`s
      ensures Sound(s) && s == Followed(old(s), best, 0.0, 0)
    {
      hide Moved;
      if best < TRACK_GONE {
        s := s.(hold := true);
      }
      s := s.(trackMiss := s.trackMiss + 1);
      if s.trackMiss >= TRACK_LOST {
        s := s.(locked := false, aligned := false, trackMiss := 0);
      }
    }

    method BestLag(end: nat, coded: Coded) returns (best: real, lag: nat, at0: real)
      requires Sound(s)
      ensures lag < LAGS && FirstBest(s, end, coded, lag)
      ensures best == Lag(s, end, coded, lag) && at0 == Lag(s, end, coded, TRACK_SPAN)
    {
      hide SoftBits, Share, Present;
      best, lag, at0 := BELOW_ALL, 0, 0.0;
      for d := 0 to LAGS
        invariant lag < LAGS && (d > 0 ==> lag < d && best == Lag(s, end, coded, lag))
        invariant d == 0 ==> best == BELOW_ALL
        invariant forall e: nat :: e < d ==> Lag(s, end, coded, e) <= best
        invariant forall e: nat :: e < lag ==> Lag(s, end, coded, e) < best
        invariant d > TRACK_SPAN ==> at0 == Lag(s, end, coded, TRACK_SPAN)
      {
        var soft, have := RxSoft(s.ring, s.dPow, Moved(end, d));
        var c := Share(coded, soft);
        ShareBound(coded, soft);
        assert c == Lag(s, end, coded, d);
        if d == TRACK_SPAN {
          at0 := c;
        }
        if c > best {
          best, lag := c, d;
        }
      }
    }

    method Receive(aux: seq<Complex>, sym: nat, auxOn: bool, an: Analog)
      requires Sound(s) && |aux| == AUX && sym < WORD
      modifies this`s
      ensures Sound(s) && s == TookIn(old(s), aux, sym, auxOn, an.sqrt)
    {
      hide Product, Norm;
      TookInSound(s, aux, sym, auxOn, an.sqrt);
      s := s.(any := true, lastSym := sym);
      var d0, d1 := Product(aux[2], aux[0]), Product(aux[3], aux[1]);
      var p := 0.98 * s.dPow + 0.02 * an.sqrt(Norm(d0));
      p := 0.98 * p + 0.02 * an.sqrt(Norm(d1));
      s := s.(ring := s.ring[sym % RING := Cell((sym + 1) % WORD, d0, d1)], dPow := p, nSym := Saturated(s.nSym));
      s := s.(auxRun := if auxOn then Saturated(s.auxRun) else 0);
      if s.msgs == 0 {
        s := s.(encSeen := auxOn && (!s.clearShown || s.auxRun >= RX_FLIP_SYMS));
      }
    }

    method UpdateStatus(haveKey: bool)
      modifies this`s
      ensures s == WithStatus(old(s), haveKey)
    {
      if s.locked && !s.hold {
        s := s.(status := Decrypting);
      } else if s.locked {
        s := s.(status := Acquiring);
      } else if !s.encSeen && s.nSym < RX_DECIDE {
        s := s.(status := Acquiring);
      } else if !s.encSeen {
        s := s.(status := Status.Clear, clearShown := true);
      } else if !haveKey {
        s := s.(status := NoKey);
      } else if s.badKey {
        s := s.(status := BadKey);
      } else {
        s := s.(status := Acquiring);
      }
    }

    /** Locked: a message of another over takes over at once; else follow the known ones. */
    method HuntLocked(sym: nat, keys: KeyStore, ghost o: Over, ghost first: nat, ghost n: nat)
      requires Sound(s) && s.locked && sym < WORD && Explained(s, log)
      modifies this
      ensures Hunted(old(s), s) && Explained(s, log) && SameTests(old(log), log)
      ensures Ready(old(s), sym, keys, o, first, n) && InStep(old(s), o, first, n - 1) ==>
                s == old(s).(trackMiss := s.trackMiss)
      ensures Sub32(sym, old(s).refSym) % MSG_SYMS != 0 ==>
        if Sub32(sym, old(s).refSym) % MSG_SYMS == 4 then Tracked(old(s), s, sym, keys) else s == old(s) && log == old(log)
      ensures && old(s).r != o.r && Sub32(sym, old(s).refSym) % MSG_SYMS == 0
              && Findable(old(s).ring, SoftScale(old(s).dPow), sym, o, n / MSG_SYMS, [], keys) ==>
                LockedAt(s, sym, keys) && s.r == o.r && s.refK == (n / MSG_SYMS + 1) * MSG_FRAMES - 1
    {
      hide HeardFrom, InStep, SymAt, Sub32, RightKey, Tracked, Findable, Ready, SoftScale, LockedAt, Explained, BestAt;
      if Ready(s, sym, keys, o, first, n) {
        ReadyFacts(s, sym, keys, o, first, n);
      }
      ghost var s0 := s;
      ghost var clean := Ready(s, sym, keys, o, first, n) && InStep(s, o, first, n - 1);
      FourAfter(Sub32(sym, s.refSym));
      if Sub32(sym, s.refSym) % MSG_SYMS == 0 {
        Overhear(sym, keys, o, first, n);
      } else {
        TakenHunted(s, s.r, 0, sym);
      }
      if s.locked && Sub32(Sub32(sym, s.refSym), TRACK_SPAN) % MSG_SYMS == 0 {
        ghost var s1 := s;
        Track(sym, keys);
        TrackedHunted(s0, s1, s, sym, keys);
        if clean {
          TrackedInStep(s0, s, o, first, n, keys);
          InStepHold(s0, o, first, n - 1);
        }
      }
    }

    /** A message ends at sym: if it is another over's, see whether it is accepted. */
    method Overhear(sym: nat, keys: KeyStore, ghost o: Over, ghost first: nat, ghost n: nat)
      requires Sound(s) && s.locked && sym < WORD && Sub32(sym, s.refSym) % MSG_SYMS == 0 && Explained(s, log)
      modifies this
      ensures Hunted(old(s), s) && Explained(s, log) && SameTests(old(log), log)
      ensures Ready(old(s), sym, keys, o, first, n) && InStep(old(s), o, first, n - 1) ==> s == old(s)
      ensures Weight(Present(old(s).ring, sym)) < 102 ==> s == old(s) && log == old(log)
      ensures old(s).r != o.r && Findable(old(s).ring, SoftScale(old(s).dPow), sym, o, n / MSG_SYMS, [], keys) ==>
                && LockedAt(s, sym, keys) && s.r == o.r && s.refK == (n / MSG_SYMS + 1) * MSG_FRAMES - 1
                && s.refSym < WORD && Sub32(Sub32(sym, s.refSym), TRACK_SPAN) % MSG_SYMS != 0
    {
      hide SoftBits, Present, Weight, MaximumLikelihood, HeardFrom, InStep, SymAt, Sub32, RightKey, Accepted, NonceOf,
        Findable, Ready, EndOf, IndexOf, Accepts, SoftScale, LockedAt, Hunted, Explained;
      ghost var scale := SoftScale(s.dPow);
      ghost var there := s.r != o.r && Findable(s.ring, scale, sym, o, n / MSG_SYMS, [], keys);
      TakenHunted(s, s.r, 0, sym);
      if Ready(s, sym, keys, o, first, n) {
        ReadyFacts(s, sym, keys, o, first, n);
      }
      if there {
        HaveWhole(s.ring, scale, sym, o, n / MSG_SYMS, keys);
      }
      var soft, have := RxSoft(s.ring, s.dPow, sym);
      if have < CODED_BITS / 2 {
        return;
      }
      var msg := Viterbi(soft);
      if Ready(s, sym, keys, o, first, n) && InStep(s, o, first, n - 1) {
        OwnMessage(s, o, first, n, msg);
      }
      if there {
        EndHere(sym);
        FoundAlone(s.ring, scale, sym, o, n / MSG_SYMS, keys, msg);
        TakenOver(s, msg, sym, keys, n / MSG_SYMS);
      }
      if NonceOf(msg) != s.r {
        AcceptedHunted(s, msg, sym, [], keys);
        var ok := Accept(msg, sym, [], keys);
      }
    }

    /** Not locked: search where the messages end, or everywhere. */
    method HuntUnlocked(sym: nat, haveKey: bool, keys: KeyStore, ghost o: Over, ghost j: nat)
      requires Sound(s) && !s.locked && sym < WORD && Explained(s, log)
      modifies this
      ensures Hunted(old(s), s) && Explained(s, log) && SameTests(old(log), log)
      ensures s.locked ==> LockedAt(s, sym, keys)
      ensures && old(s).encSeen && (!old(s).aligned || Sub32(sym, old(s).alignSym) % MSG_SYMS == 0)
              && Findable(old(s).ring, SoftScale(old(s).dPow), sym, o, j, [], keys) ==>
                s.locked && s.r == o.r && s.refK == (j + 1) * MSG_FRAMES - 1
      ensures !old(s).encSeen ==> s == old(s)
      ensures && old(s).encSeen && old(s).aligned && Sub32(sym, old(s).alignSym) % MSG_SYMS == 0
              && s.msgs == old(s).msgs && s.msgsBad == old(s).msgsBad && !s.locked ==>
                if old(s).alignMiss + 1 >= 3 then !s.aligned && s.alignMiss == 0 else s.alignMiss == old(s).alignMiss + 1
      ensures old(s).encSeen && old(s).aligned && Sub32(sym, old(s).alignSym) % MSG_SYMS != 0 ==> s == old(s)
    {
      hide Findable, SoftScale, Sub32, TwoWrong, Taken, Absent, Missed;
      ghost var s0 := s;
      if s.encSeen && !s.aligned {
        TryMessage(sym, haveKey, keys, o, j, []);
        SearchedHunted(s0, s, sym, keys);
      } else if s.encSeen && Sub32(sym, s.alignSym) % MSG_SYMS == 0 {
        var seen := s.msgs + s.msgsBad;
        TryMessage(sym, haveKey, keys, o, j, []);
        SearchedHunted(s0, s, sym, keys);
        if s.msgs + s.msgsBad != seen {
          s := s.(alignMiss := 0);
        } else {
          s := s.(alignMiss := s.alignMiss + 1);
          if s.alignMiss >= TRACK_LOST && !s.locked {
            s := s.(aligned := false, alignMiss := 0);
          }
        }
      }
    }

    /** Follow or search at a symbol just taken in. */
    method Hunt(sym: nat, haveKey: bool, keys: KeyStore, ghost o: Over, ghost first: nat, ghost n: nat)
      requires Sound(s) && sym < WORD && Explained(s, log)
      modifies this
      ensures Hunted(old(s), s) && Explained(s, log) && SameTests(old(log), log)
      ensures !old(s).locked && s.locked ==> LockedAt(s, sym, keys)
      ensures Ready(old(s), sym, keys, o, first, n) ==> InStep(s, o, first, n)
      ensures !old(s).locked && !old(s).encSeen ==> s == old(s)
    {
      hide Ready, Findable, Sub32, Sound, LockedAt, InStep, SoftScale, Explained;
      ghost var s0 := s;
      ghost var ready := Ready(s, sym, keys, o, first, n);
      if ready {
        ReadyFacts(s, sym, keys, o, first, n);
      }
      ghost var kept := ready && InStep(s, o, first, n - 1);
      if ready && !kept {
        ReadySeeks(s, sym, keys, o, first, n);
        ReadyFindable(s, sym, keys, o, first, n);
      }
      if kept {
        StepLocked(s, o, first, n - 1);
      }
      if s.locked {
        HuntLocked(sym, keys, o, first, n);
      } else {
        HuntUnlocked(sym, haveKey, keys, o, n / MSG_SYMS);
      }
      if kept {
        ReadyFacts(s0, sym, keys, o, first, n);
        KeptStep(s0, s, o, first, n);
      } else if ready {
        FoundStep(s0, s, sym, keys, o, first, n);
      }
    }

    /** One call of the receiver: the frame's two symbols, sym the number of the newer one. 1 when
        locked and the two are a frame (z is then unmixed), 0 when locked and they are not, -1 when
        not locked. */
    method Symbol(z: array<Complex>, aux: seq<Complex>, sym: nat, auxOn: bool, haveKey: bool, keys: KeyStore, an: Analog,
                  ghost o: Over, ghost first: nat, ghost n: nat)
      returns (align: int)
      requires Sound(s) && StatusRight(s) && Told(s, log) && z.Length == LATENT && |aux| == AUX && sym < WORD
      modifies this, z
      ensures Sound(s) && StatusRight(s) && Told(s, log) && s.any && s.lastSym == sym
      ensures Repeat(old(s), sym) ==> log == old(log)
      ensures !Repeat(old(s), sym) ==>
        && log.haveKey == haveKey
        && log.tests == (if old(s).any && (sym + WORD - old(s).lastSym) % WORD > 100 then [] else old(log).tests) + [auxOn]
      ensures old(s).msgs > 0 && !Gap(old(s), sym) ==> s.msgs >= old(s).msgs
      ensures Repeat(old(s), sym) ==> align == -1 && s == old(s)
      ensures !Repeat(old(s), sym) ==>
        align == if !s.locked then -1 else if Sub32(sym, s.refSym) % 2 == 1 then 0 else 1
      ensures align == 1 ==>
        FrameKey(keys, s.r, FrameAt(s, sym)).Some? &&
        Scrambled(z[..], old(z[..]), FrameKey(keys, s.r, FrameAt(s, sym)).value, true, an)
      ensures align == 1 ==>
        var k := FrameAt(s, sym);
        MixedUnder(z[..], old(z[..]), keys, [(s.r, 4 * k % WORD), (s.r, (4 * k + 1) % WORD), (s.r, (4 * k + 2) % WORD),
                                             (s.r, (4 * k + 3) % WORD)], true, an)
      ensures align != 1 ==> z[..] == old(z[..])
      ensures Hears(old(s), aux, sym, o, first, n) ==> HeardFrom(s.ring, o, first, n)
      ensures CleanCall(old(s), aux, sym, auxOn, keys, o, first, n) ==>
                InStep(s, o, first, n) && (n % 2 == 1 ==> align == 1 && FrameAt(s, sym) == n / 2)
      ensures !Gap(old(s), sym) && !Repeat(old(s), sym) && !old(s).locked && !EncWith(old(s), auxOn) ==>
                s == WithStatus(TookIn(old(s), aux, sym, auxOn, an.sqrt), haveKey)
    {
      hide Hears, CleanCall, HeardFrom, Told, MixedUnder;
      if Gap(s, sym) {
        HearsAfresh(s, aux, sym, o, first, n);
        NoCleanGap(s, aux, sym, auxOn, keys, o, first, n);
        s, log := Reset(), NoLog();
        ResetTold();
      }
      if Repeat(s, sym) {
        HearsRepeat(s, aux, sym, auxOn, keys, o, first, n);
        return -1;
      }
      align := NewSymbol(z, aux, sym, auxOn, haveKey, keys, an, o, first, n);
    }

    /** A new symbol is taken in, the search or the tracking goes on, and the status follows. */
    method Advance(aux: seq<Complex>, sym: nat, auxOn: bool, haveKey: bool, keys: KeyStore, an: Analog,
                   ghost o: Over, ghost first: nat, ghost n: nat)
      requires Sound(s) && Told(s, log) && |aux| == AUX && sym < WORD
      modifies this
      ensures Sound(s) && StatusRight(s) && Told(s, log) && s.any && s.lastSym == sym && s.msgs >= old(s).msgs
      ensures log.haveKey == haveKey && log.tests == old(log).tests + [auxOn]
      ensures Hears(old(s), aux, sym, o, first, n) ==> HeardFrom(s.ring, o, first, n)
      ensures CleanCall(old(s), aux, sym, auxOn, keys, o, first, n) ==> InStep(s, o, first, n)
      ensures !old(s).locked && !EncWith(old(s), auxOn) ==>
                s == WithStatus(TookIn(old(s), aux, sym, auxOn, an.sqrt), haveKey) && !s.locked
    {
      hide CleanCall, Ready, HeardFrom, InStep, Sub32, TookIn, WithStatus, Hears, Explained, Tested, Shown;
      ghost var seen := log.tests;
      TookInTested(s, aux, sym, auxOn, an.sqrt, seen);
      TookInExplained(s, aux, sym, auxOn, an.sqrt, log);
      TookInMsgs(s, aux, sym, auxOn, an.sqrt);
      if Hears(s, aux, sym, o, first, n) {
        TookInHeard(s, aux, sym, auxOn, an.sqrt, o, first, n);
      }
      if CleanCall(s, aux, sym, auxOn, keys, o, first, n) {
        CleanReady(s, aux, sym, auxOn, keys, an.sqrt, o, first, n);
      }
      Receive(aux, sym, auxOn, an);
      log := log.(tests := seen + [auxOn]);
      ghost var in0 := s;
      Hunt(sym, haveKey, keys, o, first, n);
      HuntedTested(in0, s, log.tests, seen);
      KeyNoted(s, log, haveKey);
      log := log.(haveKey := haveKey);
      assert log.tests[..|log.tests| - 1] == seen;
      StatusTold(s, haveKey, log, seen);
      StatusHolds(s, haveKey);
      StatusKeepsStep(s, haveKey, o, first, n);
      UpdateStatus(haveKey);
    }

    /** The key went away: the lock is given up. */
    method LoseKey(haveKey: bool)
      requires Sound(s) && StatusRight(s) && Told(s, log) && s.locked && log.haveKey == haveKey && log.tests != []
      modifies this`s
      ensures Sound(s) && StatusRight(s) && Told(s, log) && !s.locked
      ensures s.any == old(s).any && s.lastSym == old(s).lastSym && s.msgs == old(s).msgs && s.ring == old(s).ring
    {
      hide WithStatus, Explained, Tested, Shown;
      LockLost(s, log);
      s := s.(locked := false);
      StatusTold(s, haveKey, log, log.tests);
      StatusHolds(s, haveKey);
      UpdateStatus(haveKey);
    }

    method NewSymbol(z: array<Complex>, aux: seq<Complex>, sym: nat, auxOn: bool, haveKey: bool, keys: KeyStore,
                     an: Analog, ghost o: Over, ghost first: nat, ghost n: nat)
      returns (align: int)
      requires Sound(s) && Told(s, log) && z.Length == LATENT && |aux| == AUX && sym < WORD
      modifies this, z
      ensures Sound(s) && StatusRight(s) && Told(s, log) && s.any && s.lastSym == sym
      ensures log.haveKey == haveKey && log.tests == old(log).tests + [auxOn]
      ensures s.msgs >= old(s).msgs
      ensures align == if !s.locked then -1 else if Sub32(sym, s.refSym) % 2 == 1 then 0 else 1
      ensures align == 1 ==>
        FrameKey(keys, s.r, FrameAt(s, sym)).Some? &&
        Scrambled(z[..], old(z[..]), FrameKey(keys, s.r, FrameAt(s, sym)).value, true, an)
      ensures align == 1 ==>
        var k := FrameAt(s, sym);
        MixedUnder(z[..], old(z[..]), keys, [(s.r, 4 * k % WORD), (s.r, (4 * k + 1) % WORD), (s.r, (4 * k + 2) % WORD),
                                             (s.r, (4 * k + 3) % WORD)], true, an)
      ensures align != 1 ==> z[..] == old(z[..])
      ensures Hears(old(s), aux, sym, o, first, n) ==> HeardFrom(s.ring, o, first, n)
      ensures CleanCall(old(s), aux, sym, auxOn, keys, o, first, n) ==>
                InStep(s, o, first, n) && (n % 2 == 1 ==> align == 1 && FrameAt(s, sym) == n / 2)
      ensures !old(s).locked && !EncWith(old(s), auxOn) ==>
                s == WithStatus(TookIn(old(s), aux, sym, auxOn, an.sqrt), haveKey)
    {
      hide CleanCall, HeardFrom, FrameKey, Scrambled, InStep, Sub32, FrameAt, TookIn, WithStatus, Hears, Told, MixedUnder;
      ghost var clean := CleanCall(s, aux, sym, auxOn, keys, o, first, n);
      if clean {
        CleanFacts(s, aux, sym, auxOn, keys, o, first, n);
      }
      Advance(aux, sym, auxOn, haveKey, keys, an, o, first, n);
      if clean {
        StepFrame(s, o, first, n, sym);
      }
      if !s.locked {
        return -1;
      }
      if Sub32(sym, s.refSym) % 2 == 1 {
        return 0;
      }
      var k := FrameAt(s, sym);
      var ok := Scramble(z, keys, s.r, k, true, an);
      if !ok {
        LoseKey(haveKey);
        return -1;
      }
      FrameBlocksAre(s.r, k);
      MixedBlocks(z[..], old(z[..]), keys, s.r, k, [(s.r, 4 * k % WORD), (s.r, (4 * k + 1) % WORD), (s.r, (4 * k + 2) % WORD),
                                                    (s.r, (4 * k + 3) % WORD)], true, an);
      return 1;
    }
  }

  /** The tests, and whether there was a key, are as they were. */
  ghost predicate SameTests(a: Log, b: Log) {
    a.tests == b.tests && a.haveKey == b.haveKey
  }

  lemma KeyNoted(s: RxState, log: Log, haveKey: bool)
    requires Explained(s, log)
    ensures Explained(s, log.(haveKey := haveKey))
  {
  }

  /** A lock given up for want of a key. */
  lemma LockLost(s: RxState, log: Log)
    requires Sound(s) && Told(s, log) && s.locked
    ensures var t := s.(locked := false); Sound(t) && t.msgs > 0 && Explained(t, log) && Tested(t, log.tests, log.tests)
  {
  }

  /** Four symbols after a whole number of messages, by the 32-bit count. */
  lemma FourAfter(d: nat)
    requires d < WORD
    ensures Sub32(d, TRACK_SPAN) % MSG_SYMS == 0 && d % MSG_SYMS != 0 ==> d % MSG_SYMS == 4
    ensures d % MSG_SYMS == 4 ==> Sub32(d, TRACK_SPAN) % MSG_SYMS == 0
  {
  }

  lemma FrameBlocksAre(r: Nonce, k: nat)
    ensures BlocksOf([(r, 4 * k % WORD), (r, (4 * k + 1) % WORD), (r, (4 * k + 2) % WORD), (r, (4 * k + 3) % WORD)], r, k)
  {
  }

  /** Taking a symbol in does not touch the lock or the search. */
  lemma TookInStep(s: RxState, aux: seq<Complex>, sym: nat, auxOn: bool, sqrt: real -> real, o: Over, first: nat, n: nat)
    requires Sound(s) && sym < WORD && |aux| == AUX && n >= 1
    ensures var t := TookIn(s, aux, sym, auxOn, sqrt);
      && Sound(t)
      && (InStep(s, o, first, n - 1) ==> InStep(t, o, first, n - 1))
      && (Seeking(s, sym, auxOn, o) ==> Seeking(t, sym, t.encSeen, o) && t.encSeen)
  {
    hide Product, Norm, SymAt;
  }

  lemma CleanFacts(s: RxState, aux: seq<Complex>, sym: nat, auxOn: bool, keys: KeyStore, o: Over, first: nat, n: nat)
    requires Sound(s) && sym < WORD && |aux| == AUX && CleanCall(s, aux, sym, auxOn, keys, o, first, n)
    ensures sym == SymAt(o, n) && FrameKey(keys, o.r, n / 2).Some?
  {
    hide HeardFrom, FrameKey, Seeking, InStep, CleanCell, Product;
  }

  lemma HearsAfresh(s: RxState, aux: seq<Complex>, sym: nat, o: Over, first: nat, n: nat)
    requires Sound(s) && sym < WORD && |aux| == AUX && Gap(s, sym)
    ensures Hears(s, aux, sym, o, first, n) ==> Hears(Reset(), aux, sym, o, first, n)
  {
    hide HeardFrom, CleanCell, Product, SymAt;
  }

  lemma NoCleanGap(s: RxState, aux: seq<Complex>, sym: nat, auxOn: bool, keys: KeyStore, o: Over, first: nat, n: nat)
    requires Sound(s) && sym < WORD && |aux| == AUX && Gap(s, sym)
    ensures !CleanCall(s, aux, sym, auxOn, keys, o, first, n)
  {
  }

  lemma HearsRepeat(s: RxState, aux: seq<Complex>, sym: nat, auxOn: bool, keys: KeyStore, o: Over, first: nat, n: nat)
    requires Sound(s) && sym < WORD && |aux| == AUX && Repeat(s, sym)
    ensures !Hears(s, aux, sym, o, first, n) && !CleanCall(s, aux, sym, auxOn, keys, o, first, n)
  {
  }

  lemma ReadyFacts(s: RxState, sym: nat, keys: KeyStore, o: Over, first: nat, n: nat)
    requires Sound(s) && sym < WORD && Ready(s, sym, keys, o, first, n)
    ensures 1 <= n < 2 * LAST_FRAME && sym == SymAt(o, n) && HeardFrom(s.ring, o, first, n) && RightKey(keys, o)
  {
  }

  lemma ReadySeeks(s: RxState, sym: nat, keys: KeyStore, o: Over, first: nat, n: nat)
    requires Sound(s) && sym < WORD && Ready(s, sym, keys, o, first, n) && !InStep(s, o, first, n - 1)
    ensures EndsWhole(first, n)
    ensures s.locked ==> s.r != o.r && Sub32(sym, s.refSym) % MSG_SYMS == 0
    ensures !s.locked ==> s.encSeen && (!s.aligned || Sub32(sym, s.alignSym) % MSG_SYMS == 0)
  {
    hide HeardFrom, InStep, SymAt, RightKey;
  }

  lemma StepLocked(s: RxState, o: Over, first: nat, n: nat)
    requires InStep(s, o, first, n)
    ensures s.locked
  {
  }

  lemma EndHere(sym: nat)
    requires sym < WORD
    ensures EndOf(sym, 0) == sym
  {
  }

  lemma HaveWhole(ring: seq<Cell>, scale: real, sym: nat, o: Over, j: nat, keys: KeyStore)
    requires |ring| == RING && sym < WORD && Findable(ring, scale, sym, o, j, [], keys)
    ensures Weight(Present(ring, sym)) >= CODED_BITS / 2
  {
    hide Findable, Present, Weight, EndOf;
    EndHere(sym);
    FoundHave(ring, scale, sym, o, j, [], keys);
  }

  /** An accepted message takes the lock, and there is nothing to track at its own end. */
  lemma TakenOver(s: RxState, msg: seq<bool>, sym: nat, keys: KeyStore, j: nat)
    requires Sound(s) && |msg| == MSG_BITS && sym < WORD && Accepts(msg, [], keys) && IndexOf(msg, []) == Some(j)
    ensures var t := Accepted(s, msg, sym, [], keys);
      && LockedAt(t, sym, keys) && t.r == NonceOf(msg) && t.refK == (j + 1) * MSG_FRAMES - 1
      && t.refSym < WORD && Sub32(Sub32(sym, t.refSym), TRACK_SPAN) % MSG_SYMS != 0
  {
    assert j < J_COUNT;
    hide IndexOf, Message, NonceOf, CheckOf, CheckFrom, Sub32, Pattern;
    NothingToTrack(sym);
  }

  lemma NothingToTrack(sym: nat)
    requires sym < WORD
    ensures Sub32(Sub32(sym, sym), TRACK_SPAN) % MSG_SYMS != 0
  {
    assert Sub32(sym, sym) == 0;
  }

  lemma TookInMsgs(s: RxState, aux: seq<Complex>, sym: nat, auxOn: bool, sqrt: real -> real)
    requires Sound(s) && sym < WORD && |aux| == AUX
    ensures var t := TookIn(s, aux, sym, auxOn, sqrt);
      t.msgs == s.msgs && t.any && t.lastSym == sym && t.locked == s.locked && t.encSeen == EncWith(s, auxOn)
  {
    hide Product, Norm;
  }

  lemma StatusKeepsStep(s: RxState, haveKey: bool, o: Over, first: nat, n: nat)
    ensures InStep(s, o, first, n) ==> InStep(WithStatus(s, haveKey), o, first, n)
    ensures WithStatus(s, haveKey).ring == s.ring
  {
    hide SymAt;
  }

  /** In step, the frame of an odd symbol is the transmitter's. */
  lemma StepFrame(s: RxState, o: Over, first: nat, n: nat, sym: nat)
    requires Sound(s) && sym < WORD && InStep(s, o, first, n) && sym == SymAt(o, n)
    ensures s.locked && s.r == o.r && s.refSym < WORD
    ensures Sub32(sym, s.refSym) % 2 == 1 <==> n % 2 == 0
    ensures n % 2 == 1 ==> FrameAt(s, sym) == n / 2
  {
    hide SymAt, Sub32, FrameAt;
    var m := 2 * s.refK + 1;
    SubSym(o, n, m);
    FrameHere(s, o, n);
    OddSteps(n, s.refK);
  }

  lemma OddSteps(n: nat, k: nat)
    requires n >= 2 * k + 1
    ensures (n - (2 * k + 1)) % 2 == 1 <==> n % 2 == 0
    ensures n % 2 == 1 ==> k + (n - (2 * k + 1)) / 2 == n / 2
  {
  }

  lemma InStepHold(s: RxState, o: Over, first: nat, n: nat)
    requires InStep(s, o, first, n)
    ensures s.(hold := false) == s
  {
  }

  lemma FoundHave(ring: seq<Cell>, scale: real, sym: nat, o: Over, j: nat, t: seq<nat>, keys: KeyStore)
    requires |ring| == RING && sym < WORD && Findable(ring, scale, sym, o, j, t, keys)
    ensures |t| < COMBINE
    ensures forall n :: 0 <= n <= |t| ==> Weight(Present(ring, EndOf(sym, n))) >= CODED_BITS / 2
  {
    hide Present, Weight, AllClean, Pattern, EndOf, Recent, Erased;
  }

  lemma FoundAlone(ring: seq<Cell>, scale: real, sym: nat, o: Over, j: nat, keys: KeyStore, msg: seq<bool>)
    requires |ring| == RING && sym < WORD && Findable(ring, scale, sym, o, j, [], keys)
    requires |msg| == MSG_BITS && MaximumLikelihood(msg, SoftBits(ring, scale, EndOf(sym, 0)))
    ensures Accepts(msg, [], keys) && NonceOf(msg) == o.r && IndexOf(msg, []) == Some(j)
  {
    hide SoftBits, MaximumLikelihood, Message, Weight, Present, IndexOf, Accepts;
    var v := Recent(ring, scale, sym, 1);
    assert v[0] == SoftBits(ring, scale, EndOf(sym, 0));
    assert Weight(Erased(v[0])) < 10;
    DecodesClean(msg, Message(o.r, j, o.chk), v[0]);
    TrueMessageAccepted(o.r, j, o.chk, [], keys);
  }

  lemma FoundWins(ring: seq<Cell>, scale: real, sym: nat, o: Over, j: nat, t: seq<nat>, keys: KeyStore, v: seq<Soft>)
    requires |ring| == RING && sym < WORD && Findable(ring, scale, sym, o, j, t, keys) && |t| >= 1
    requires |v| == |t| + 1
    requires forall i :: 0 <= i < |v| ==> v[i] == SoftBits(ring, scale, EndOf(sym, i))
    ensures Winning(v, t, o, j, keys)
  {
    hide SoftBits, Weight, Present, Pattern, AllClean, EndOf;
    assert v == Recent(ring, scale, sym, |t| + 1);
  }

  lemma SearchedOn(s0: RxState, s1: RxState, s2: RxState, sym: nat, keys: KeyStore)
    requires Searched(s0, s1, sym, keys) && Searched(s1, s2, sym, keys)
    ensures Searched(s0, s2, sym, keys)
  {
  }

  /** Without noise and with the right key, these soft bits decode to message j under t. */
  ghost predicate Winning(v: seq<Soft>, t: seq<nat>, o: Over, j: nat, keys: KeyStore) {
    && |v| == |t| + 1 && 1 <= |t| < COMBINE && Pattern(t, j)
    && keys(RadeSignal, o.r, 0).Some? && CheckFrom(keys(RadeSignal, o.r, 0).value) == o.chk
    && AllClean(o.r, j, o.chk, v)
    && OneNearlyWhole(v)
  }

  lemma WinningTried(v: seq<Soft>, t: seq<nat>, o: Over, j: nat, keys: KeyStore)
    requires Winning(v, t, o, j, keys)
    ensures Tried(t)
  {
    TruePatternTried(t, j);
  }

  lemma WinningAccepted(v: seq<Soft>, t: seq<nat>, o: Over, j: nat, keys: KeyStore, msg: seq<bool>)
    requires Winning(v, t, o, j, keys) && Flips(t)
    requires |msg| == MSG_BITS && MaximumLikelihood(msg, Combined(v, t))
    ensures Accepts(msg, t, keys)
  {
    hide Weight, Combined, MaximumLikelihood, Message;
    var n :| 0 <= n < |v| && Weight(Erased(v[n])) < 10;
    CombinedDecodes(msg, o.r, j, o.chk, v, t, n);
    TrueMessageAccepted(o.r, j, o.chk, t, keys);
  }

  lemma RankStart(t: seq<nat>)
    requires Tried(t)
    ensures Rank(0, 0, 0) <= RankOf(t) < Rank(J_BITS, 0, 0)
  {
    hide Tried;
    TriedFlips(t);
    assert t[0] < J_BITS && (|t| >= 2 ==> t[1] < J_BITS) && (|t| >= 3 ==> t[2] < J_BITS);
  }

  /** Patterns before t in the order are not t. */
  lemma RankNext(t: seq<nat>, a: nat, b: nat, c: nat)
    requires Tried(t) && a < J_BITS && b < J_BITS && c < J_BITS
    requires RankOf(t) >= Rank(a, b, c) && t != [a, b, c][..|t|]
    requires |t| < 2 ==> b == 0
    requires |t| < 3 ==> c == 0
    ensures RankOf(t) >= Rank(a, b, c + 1)
  {
    hide Tried;
    assert Flips(t) && 1 <= |t| <= 3 by { TriedFlips(t); }
    if |t| == 1 {
      assert t == [t[0]] && [a, b, c][..1] == [a];
    } else if |t| == 2 {
      assert t == [t[0], t[1]] && [a, b, c][..2] == [a, b];
      RankDigits(t[0], t[1], 0, a, b, c);
    } else {
      assert t == [t[0], t[1], t[2]] && [a, b, c][..3] == [a, b, c];
      RankDigits(t[0], t[1], t[2], a, b, c);
    }
  }

  lemma TriedFlips(t: seq<nat>)
    requires Tried(t)
    ensures Flips(t) && 1 <= |t| <= 3
  {
  }

  lemma RankDigits(x: nat, y: nat, z: nat, a: nat, b: nat, c: nat)
    requires x < 12 && y < 12 && z < 12 && a < 12 && b < 12 && c < 12
    ensures Rank(x, y, z) == Rank(a, b, c) ==> x == a && y == b && z == c
  {
  }

  /** The end of an inner loop is the next step of the outer one. */
  lemma RankSkip(t: seq<nat>, a: nat, b: nat)
    requires Tried(t)
    ensures RankOf(t) >= Rank(a, b, if |t| >= 3 then J_BITS else 1) ==> RankOf(t) >= Rank(a, b + 1, 0)
    ensures RankOf(t) >= Rank(a, if |t| >= 2 then J_BITS else 1, 0) ==> RankOf(t) >= Rank(a + 1, 0, 0)
  {
    hide Tried;
    TriedFlips(t);
    assert t[0] < J_BITS && (|t| >= 2 ==> t[1] < J_BITS) && (|t| >= 3 ==> t[2] < J_BITS);
  }

  lemma SearchedSelf(s: RxState, sym: nat, keys: KeyStore)
    requires Sound(s) && !s.locked
    ensures Searched(s, s, sym, keys)
  {
  }

  lemma SearchedSound(s: RxState, s': RxState, sym: nat, keys: KeyStore)
    requires Searched(s, s', sym, keys)
    ensures Sound(s')
  {
  }
}
