/** The D-STAR voice receiver: what it learns from headers and from the sync blocks in slow data,
    and from that whether a frame is played, and under which keystream block. */
module DstarVoiceRx {
  import opened Bits
  import opened VoiceCrypto
  import opened DstarQueue
  import opened DstarHeader
  import opened DstarVoiceTx
  import opened DstarSlow

  const SYNC_FIRST_SLOT := 17
  const SYNC_LAST_SLOT := 20
  const MAX_MISS := 8
  const LOCK_MAX_BITS := 3
  const CUSUM_UNLOCK := 100
  const BAD_BITS := 3
  const R_VOTE_CAP := 16
  const TYPE_MAX_BITS := 1
  const TYPE_CLEAR_BITS := 3
  const FILLER_MAX_BITS := 16
  const OFF_HIST := 6
  const DIST_HIST := 5
  const HALF_WORD := 0x1_0000
  const BYTE_MAX := 255

  /** Evidence for a wrong key, in tenths of a nat, of a check so many bits off. */
  const LLR: seq<int> := [-52, -20, 11, 43, 75, 107, 130, 140, 150]

  datatype Status = Clear | Decrypting | Acquiring | NoKey | BadKey

  datatype RxState = RxState(
    hdrEnc: bool, encSeen: bool, clearKnown: bool, synced: bool, r: Nonce, sf: nat,
    lastFc: nat, slow: seq<seq<Byte>>, slowMask: seq<bool>, miss: nat, localSf: nat,
    voteOne: seq<nat>, voteN: nat, offHist: seq<nat>, offN: nat, distHist: seq<nat>, distN: nat,
    lastExact: bool, lastR: Nonce, lastSf: nat, lastLocal: nat,
    badKey: bool, hdrBad: bool, hdrRValid: bool, hdrR: Nonce, frames: nat, cusum: int,
    blkChk: seq<Byte>, blkLocal: seq<nat>, blkN: nat, status: Status)

  ghost predicate SlowShape(slow: seq<seq<Byte>>, mask: seq<bool>) {
    |slow| == |mask| == 4 && forall j :: 0 <= j < 4 ==> |slow[j]| == 3
  }

  ghost predicate VoteShape(v: seq<nat>, n: nat) {
    |v| == NONCE_BITS && n <= R_VOTE_CAP && forall i :: 0 <= i < NONCE_BITS ==> v[i] <= n
  }

  /** The sizes of the arrays and the widths of the counters. */
  ghost predicate Shaped(s: RxState) {
    && SlowShape(s.slow, s.slowMask) && VoteShape(s.voteOne, s.voteN)
    && s.sf < WORD && s.lastFc < HALF_WORD && s.localSf < WORD && s.frames < WORD
    && |s.offHist| == OFF_HIST && s.offN <= BYTE_MAX
    && |s.distHist| == DIST_HIST && s.distN <= BYTE_MAX
    && |s.blkChk| == |s.blkLocal| == DIST_HIST && s.blkN <= BYTE_MAX
    && s.lastSf < HALF_WORD && s.lastLocal < WORD
  }

  /** What holds of the receiver at all times. */
  ghost predicate Sound(s: RxState) {
    && Shaped(s)
    && (s.synced ==> s.encSeen && s.miss <= MAX_MISS && 0 <= s.cusum < CUSUM_UNLOCK)
    && (s.clearKnown ==> !s.hdrEnc && !s.encSeen && !s.synced)
    && (s.hdrBad ==> s.hdrEnc && !s.synced)
    && (s.frames == 0 ==> s.miss == 0 && s.lastFc == 0)
    && s.miss <= MAX_MISS + 1
  }

  function NoBallots(): (v: seq<nat>)
    ensures VoteShape(v, 0)
  {
    seq(NONCE_BITS, _ => 0)
  }

  function ForgetVotes(s: RxState): RxState {
    s.(voteOne := NoBallots(), voteN := 0, offN := 0, distN := 0, lastExact := false, badKey := false,
       blkN := 0)
  }

  function Locked(s: RxState, r: Nonce, sf: nat): RxState {
    s.(r := r, sf := sf, synced := true, badKey := false, cusum := 0, distN := 0)
  }

  // ---- headers

  ghost predicate SaysEncrypted(h: seq<Byte>)
    requires |h| == HEADER_BYTES
  {
    h[2][0]
  }

  function HeaderNonce(h: seq<Byte>): Nonce
    requires |h| == HEADER_BYTES
  {
    NonceOf(h[HDR_R..HDR_R + NONCE_BYTES])
  }

  /** The keyed check in the header is the key's. */
  predicate KeyMatches(h: seq<Byte>, want: seq<Byte>)
    requires |h| == HEADER_BYTES
  {
    h[HDR_CHECK..HDR_CHECK + HDR_CHECK_BYTES] == want
  }

  /** The receiver after a header. */
  ghost function AfterHeader(s: RxState, h: seq<Byte>, keys: KeyStore): RxState
    requires |h| == HEADER_BYTES
  {
    if !SaysEncrypted(h) then
      ForgetVotes(s.(hdrEnc := false, clearKnown := Verified(h), synced := false, encSeen := false, hdrBad := false,
                     hdrRValid := false))
    else
      var t := s.(hdrEnc := true, clearKnown := false);
      var want := HeaderCheckOf(keys, HeaderNonce(h));
      if !Verified(h) || want.None? then t
      else if !KeyMatches(h, want.value) then
        t.(hdrBad := true, badKey := true, synced := false, hdrRValid := false)
      else
        TakenNonce(t.(hdrBad := false, badKey := false), HeaderNonce(h))
  }

  /** A header under our key gives the nonce of the over: at its start the receiver locks on it, later
      it keeps the nonce for the next sync block. */
  ghost function TakenNonce(u: RxState, r: Nonce): RxState {
    if u.synced && u.r == r then u
    else if u.frames == 0 then u.(r := r, sf := WORD - 1, synced := true, cusum := 0, distN := 0, encSeen := true)
    else u.(hdrR := r, hdrRValid := true, synced := false)
  }

  lemma HeaderSound(s: RxState, h: seq<Byte>, keys: KeyStore)
    requires Sound(s) && |h| == HEADER_BYTES
    ensures Sound(AfterHeader(s, h, keys))
  {
    hide Verified, HeaderCheckOf, HeaderNonce, KeyMatches, SaysEncrypted, SlowShape, VoteShape, ForgetVotes, TakenNonce;
    if SaysEncrypted(h) {
      NonceSound(s.(hdrEnc := true, clearKnown := false, hdrBad := false, badKey := false), HeaderNonce(h));
    } else {
      ForgetSound(s.(hdrEnc := false, clearKnown := Verified(h), synced := false, encSeen := false, hdrBad := false,
                     hdrRValid := false));
    }
  }

  lemma NonceSound(u: RxState, r: Nonce)
    requires Sound(u) && !u.hdrBad && !u.clearKnown
    ensures Sound(TakenNonce(u, r))
  {
    hide SlowShape, VoteShape;
  }

  lemma ForgetSound(s: RxState)
    requires Sound(s)
    ensures Sound(ForgetVotes(s))
  {
    hide SlowShape, VoteShape, NoBallots;
  }

  // ---- votes

  /** The counts of the vote on the nonce, aged when there are enough. */
  function Aged(v: seq<nat>, n: nat): (w: (seq<nat>, nat))
    requires VoteShape(v, n)
    ensures VoteShape(w.0, w.1) && w.1 < R_VOTE_CAP
  {
    if n >= R_VOTE_CAP then (seq(NONCE_BITS, i requires 0 <= i < |v| => (v[i] + 1) / 2), R_VOTE_CAP / 2)
    else (v, n)
  }

  /** The counts with one more ballot. */
  function WithBallot(v: seq<nat>, r: Nonce): (w: seq<nat>)
    requires |v| == NONCE_BITS
    ensures |w| == NONCE_BITS
  {
    seq(NONCE_BITS, i requires 0 <= i < NONCE_BITS => v[i] + Val(r[i]))
  }

  /** The majority of n ballots, bit by bit; a tie takes the last ballot's bit. */
  function Elected(v: seq<nat>, n: nat, r: Nonce): Nonce
    requires |v| == NONCE_BITS
  {
    seq(NONCE_BITS, i requires 0 <= i < NONCE_BITS => if 2 * v[i] > n then true else if 2 * v[i] < n then false else r[i])
  }

  function CountOf(h: seq<nat>, x: nat): (c: nat)
    ensures c <= |h|
  {
    if h == [] then 0 else CountOf(h[..|h| - 1], x) + if h[|h| - 1] == x then 1 else 0
  }

  /** The choice among the first k entries of h: the most frequent in h, the earliest of equals; off
      while none is there twice. */
  function Choice(h: seq<nat>, off: nat, k: nat): (nat, nat)
    requires k <= |h|
  {
    if k == 0 then (off, 1)
    else
      var (best, count) := Choice(h, off, k - 1);
      var c := CountOf(h, h[k - 1]);
      if c > count then (h[k - 1], c) else (best, count)
  }

  /** i is the first of the entries that are in h more often than once and than any other. */
  ghost predicate FirstMost(h: seq<nat>, i: nat, k: nat) {
    && i < k <= |h| && CountOf(h, h[i]) > 1
    && (forall j :: 0 <= j < k ==> CountOf(h, h[j]) <= CountOf(h, h[i]))
    && (forall j :: 0 <= j < i ==> CountOf(h, h[j]) < CountOf(h, h[i]))
  }

  /** best is off if none of the first k entries is in h twice, else the first most frequent. */
  ghost predicate MostOf(h: seq<nat>, off: nat, k: nat, best: nat, count: nat)
    requires k <= |h|
  {
    || (best == off && count == 1 && forall j :: 0 <= j < k ==> CountOf(h, h[j]) <= 1)
    || exists i: nat :: FirstMost(h, i, k) && best == h[i] && count == CountOf(h, h[i])
  }

  lemma {:induction false} ChoiceIsMost(h: seq<nat>, off: nat, k: nat)
    requires k <= |h|
    ensures MostOf(h, off, k, Choice(h, off, k).0, Choice(h, off, k).1)
  {
    hide CountOf, MostOf;
    if k == 0 {
      NoneMost(h, off);
    } else {
      ChoiceIsMost(h, off, k - 1);
      MostStep(h, off, k - 1, Choice(h, off, k - 1).0, Choice(h, off, k - 1).1);
    }
  }

  lemma NoneMost(h: seq<nat>, off: nat)
    ensures MostOf(h, off, 0, off, 1)
  {
  }

  lemma MostStep(h: seq<nat>, off: nat, k: nat, best: nat, count: nat)
    requires k < |h| && MostOf(h, off, k, best, count)
    ensures var c := CountOf(h, h[k]); if c > count then MostOf(h, off, k + 1, h[k], c) else MostOf(h, off, k + 1, best, count)
  {
    hide CountOf;
    var c := CountOf(h, h[k]);
    if c > count {
      assert FirstMost(h, k, k + 1);
    } else if exists i: nat :: FirstMost(h, i, k) && best == h[i] && count == CountOf(h, h[i]) {
      var i: nat :| FirstMost(h, i, k) && best == h[i] && count == CountOf(h, h[i]);
      assert FirstMost(h, i, k + 1);
    }
  }

  /** When every entry is off, off is chosen. */
  lemma {:induction false} ChoiceOfOne(h: seq<nat>, off: nat, k: nat)
    requires k <= |h| && forall i :: 0 <= i < |h| ==> h[i] == off
    ensures Choice(h, off, k).0 == off
  {
    if k > 0 {
      ChoiceOfOne(h, off, k - 1);
    }
  }

  // ---- the sync block

  /** How many bits two bytes differ in. */
  function BitsOff(a: Byte, b: Byte): (d: nat)
    ensures d <= 8
  {
    EightBits(Xor(a, b));
    Distance(a, b)
  }

  lemma EightBits(x: seq<bool>)
    requires |x| == 8
    ensures Weight(x) <= 8
  {
    WeightInSet(x, {0, 1, 2, 3, 4, 5, 6, 7});
  }

  /** How many bits the bytes are away from filler. */
  function FillerBits(b: seq<Byte>): nat {
    if b == [] then 0 else FillerBits(b[..|b| - 1]) + BitsOff(b[|b| - 1], FILLER)
  }

  /** The sync block in slots 17 to 20, if there is one, and the type byte that says so. */
  function SyncOf(slow: seq<seq<Byte>>): (b: seq<Byte>)
    requires SlowShape(slow, [false, false, false, false])
    ensures |b| == SYNC_BYTES
  {
    (slow[0] + slow[1])[2..] + (slow[2] + slow[3])[1..]
  }

  function Min(a: nat, b: nat): nat {
    if a <= b then a else b
  }

  function PushDist(s: RxState, d: nat): RxState
    requires |s.distHist| == DIST_HIST
  {
    s.(distHist := s.distHist[s.distN % DIST_HIST := d], distN := Min(s.distN + 1, BYTE_MAX))
  }

  /** The bits off, and the blocks far off, of the first k kept checks against a nonce and an offset;
      none if the key is gone. */
  function Score(keys: KeyStore, r: Nonce, off: nat, local: seq<nat>, chk: seq<Byte>, k: nat): Option<(nat, nat)>
    requires k <= |local| && k <= |chk|
  {
    if k == 0 then Some((0, 0))
    else match Score(keys, r, off, local, chk, k - 1)
      case None => None
      case Some((bits, bad)) =>
        match SyncCheckOf(keys, r, (local[k - 1] + off) % HALF_WORD)
        case None => None
        case Some(want) =>
          var d := BitsOff(want, chk[k - 1]);
          Some((bits + d, bad + if d >= BAD_BITS then 1 else 0))
  }

  /** The last of n offsets and those before it, as far as they are kept. */
  function Offsets(hist: seq<nat>, n: nat, off: nat): seq<nat>
    requires |hist| == OFF_HIST && n <= BYTE_MAX
  {
    hist[n % OFF_HIST := off][..Min((n + 1) % (BYTE_MAX + 1), OFF_HIST)]
  }

  /** The receiver's vote on the counter offset with one more block. */
  function VotedOffset(s: RxState, off: nat): nat
    requires |s.offHist| == OFF_HIST && s.offN <= BYTE_MAX
  {
    var h := Offsets(s.offHist, s.offN, off);
    Choice(h, off, |h|).0
  }

  /** A block joins the votes. */
  function WithBlock(s: RxState, sync: seq<Byte>): RxState
    requires Shaped(s) && |sync| == SYNC_BYTES
  {
    var (v, n) := Aged(s.voteOne, s.voteN);
    s.(voteOne := WithBallot(v, NonceOf(sync)), voteN := n + 1,
       offHist := s.offHist[s.offN % OFF_HIST := BlockOffset(s, sync)], offN := (s.offN + 1) % (BYTE_MAX + 1),
       blkChk := s.blkChk[s.blkN % DIST_HIST := sync[8]], blkLocal := s.blkLocal[s.blkN % DIST_HIST := s.localSf],
       blkN := Min(s.blkN + 1, BYTE_MAX))
  }

  /** The block's counter, less the receiver's own count. */
  function BlockOffset(s: RxState, sync: seq<Byte>): (o: nat)
    requires |sync| == SYNC_BYTES
    ensures o < HALF_WORD
  {
    (CounterOf(sync) - s.localSf % HALF_WORD) % HALF_WORD
  }

  /** The checks kept say that the key is wrong. */
  predicate SaysBad(n: nat, score: Option<(nat, nat)>) {
    score.Some? && n >= DIST_HIST && score.value.1 >= DIST_HIST - 1
  }

  /** The checks kept say that nonce and counter are right. */
  predicate SaysLock(n: nat, score: Option<(nat, nat)>) {
    score.Some? && n >= DIST_HIST && score.value.0 <= LOCK_MAX_BITS
  }

  /** The robust path: the block joins the votes, and every kept check is scored against them. */
  function Voted(s: RxState, sync: seq<Byte>, keys: KeyStore): RxState
    requires Shaped(s) && |sync| == SYNC_BYTES
  {
    var t := WithBlock(s, sync);
    var r := Elected(t.voteOne, t.voteN, NonceOf(sync));
    var off := VotedOffset(s, BlockOffset(s, sync));
    var n := Min(t.blkN, DIST_HIST);
    var score := Score(keys, r, off, t.blkLocal, t.blkChk, n);
    Settled(t, r, (t.localSf + off) % HALF_WORD, SaysLock(n, score), SaysBad(n, score))
  }

  function Settled(s: RxState, r: Nonce, sf: nat, lock: bool, bad: bool): RxState {
    if lock then Locked(s, r, sf) else s.(badKey := s.badKey || bad)
  }

  /** The evidence of a check d bits off; enough of it ends the lock. */
  function Weighed(s: RxState, d: nat): RxState
    requires |s.distHist| == DIST_HIST && d <= 8
  {
    var c := s.cusum + LLR[d];
    var t := PushDist(s, d).(cusum := if c < 0 then 0 else c);
    if c < CUSUM_UNLOCK then t else t.(synced := false, badKey := true)
  }

  /** A locked receiver judges its lock by the block; fast says the block and the one before it both
      checked and agree. */
  function Judged(s: RxState, sync: seq<Byte>, fast: bool, keys: KeyStore): RxState
    requires Shaped(s) && |sync| == SYNC_BYTES
  {
    match SyncCheckOf(keys, s.r, s.sf % HALF_WORD)
    case None => s
    case Some(want) =>
      if fast && s.r != NonceOf(sync) then Locked(ForgetVotes(s), NonceOf(sync), CounterOf(sync))
      else Weighed(if fast then s.(sf := CounterOf(sync)) else s, BitsOff(want, sync[8]))
  }

  /** Two consecutive blocks that check, of one nonce, as far apart as the receiver counted. */
  predicate Fast(s: RxState, sync: seq<Byte>, exact: bool)
    requires |sync| == SYNC_BYTES
  {
    && exact && s.lastExact && s.lastR == NonceOf(sync)
    && (CounterOf(sync) - s.lastSf) % HALF_WORD == (s.localSf - s.lastLocal) % HALF_WORD
  }

  /** A sync block was seen, and the key gives its check. */
  function Seen(s: RxState, sync: seq<Byte>, check: Byte, keys: KeyStore): RxState
    requires Shaped(s) && |sync| == SYNC_BYTES && CounterOf(sync) < HALF_WORD
  {
    var exact := check == sync[8];
    var fast := Fast(s, sync, exact);
    var u := s.(lastExact := exact, lastR := NonceOf(sync), lastSf := CounterOf(sync), lastLocal := s.localSf);
    if !u.synced && u.hdrBad then u
    else if !u.synced && u.hdrRValid then
      if SyncCheckOf(keys, u.hdrR, CounterOf(sync)) == Some(sync[8]) then
        Locked(ForgetVotes(u), u.hdrR, CounterOf(sync))
      else u
    else if u.synced then Judged(u, sync, fast, keys)
    else if fast then Locked(u, NonceOf(sync), CounterOf(sync))
    else Voted(u, sync, keys)
  }

  /** Slots 17 to 20 are in: what the receiver makes of them. */
  function Tried(s: RxState, keys: KeyStore): RxState
    requires Shaped(s)
  {
    var sync := SyncOf(s.slow);
    var typeBits := BitsOff(s.slow[2][0], SLOW_TYPE);
    if FillerBits(sync) <= FILLER_MAX_BITS then
      if !s.hdrEnc && !s.synced then s.(encSeen := false, clearKnown := true) else s
    else if typeBits > TYPE_MAX_BITS then
      if typeBits >= TYPE_CLEAR_BITS && !s.hdrEnc && !s.synced && !s.encSeen then s.(clearKnown := true) else s
    else
      var t := s.(encSeen := true, clearKnown := false, miss := 0);
      CounterBound(sync);
      match SyncCheckOf(keys, NonceOf(sync), CounterOf(sync))
      case None => t
      case Some(check) => Seen(t, sync, check, keys)
  }

  lemma CounterBound(sync: seq<Byte>)
    requires |sync| == SYNC_BYTES
    ensures CounterOf(sync) < HALF_WORD
  {
    ValueBound(sync[6]);
    ValueBound(sync[7]);
  }

  // ---- frames

  /** How many of the last k checks were far off. */
  function BadBlocks(s: RxState, k: nat): nat
    requires |s.distHist| == DIST_HIST && k <= s.distN
  {
    if k == 0 then 0
    else BadBlocks(s, k - 1) + if s.distHist[(s.distN - k) % DIST_HIST] >= BAD_BITS then 1 else 0
  }

  function Evidence(s: RxState): RxState
    requires |s.distHist| == DIST_HIST
  {
    var n := Min(s.distN, DIST_HIST);
    if n >= DIST_HIST && BadBlocks(s, n) >= DIST_HIST - 1 then s.(badKey := true) else s
  }

  /** The status of a receiver that has no keystream. */
  function Unsynced(s: RxState, haveKey: bool): RxState
    requires |s.distHist| == DIST_HIST
  {
    if !s.hdrEnc && !s.encSeen then s.(status := if s.clearKnown then Clear else Acquiring)
    else if !haveKey then s.(status := NoKey)
    else
      var t := Evidence(s);
      t.(status := if t.badKey then BadKey else Acquiring)
  }

  /** A superframe begins; a missed data sync lets the frame index run past 20. */
  function NewSuperframe(s: RxState): RxState {
    var elapsed := s.lastFc / SF_FRAMES + 1;
    var u := s.(localSf := (s.localSf + elapsed) % WORD, slowMask := [false, false, false, false]);
    if !s.synced then u
    else
      var v := u.(sf := (s.sf + elapsed) % WORD, miss := s.miss + 1);
      if v.miss > MAX_MISS then ForgetVotes(v.(synced := false, encSeen := false)) else v
  }

  /** A frame with index fc begins. */
  function Counted(s: RxState, fc: nat): RxState {
    var t := if fc != 0 then s else NewSuperframe(s);
    t.(lastFc := fc, frames := Min(s.frames + 1, WORD - 1))
  }

  /** The slow data of a frame is kept, and looked at when the last slot is in. */
  function Gathered(s: RxState, slowBytes: seq<Byte>, fc: nat, keys: KeyStore): RxState
    requires Shaped(s) && |slowBytes| == 3
  {
    if SYNC_FIRST_SLOT <= fc <= SYNC_LAST_SLOT then
      var j := fc - SYNC_FIRST_SLOT;
      var t := s.(slow := s.slow[j := XorBytes(slowBytes, SLOW_SCRAMBLE)], slowMask := s.slowMask[j := true]);
      if fc == SYNC_LAST_SLOT && t.slowMask == [true, true, true, true] then Tried(t, keys) else t
    else s
  }

  /** The voice bits of a frame, whether they are to be played, and the receiver after it. */
  function Opened(s: RxState, e: seq<bool>, fc: nat, keys: KeyStore, haveKey: bool): (RxState, seq<bool>, bool)
    requires |s.distHist| == DIST_HIST && |e| == AMBE_BITS
  {
    var ks := if s.synced then keys(Voice, s.r, (SF_FRAMES * s.sf + fc) % WORD) else None;
    if ks.Some? then (s.(status := Decrypting), Masked(e, ks.value), true)
    else
      var t := Unsynced(s.(synced := false), haveKey);
      (t, e, t.status == Clear)
  }

  // ---- what every step keeps

  lemma VotedSound(s: RxState, sync: seq<Byte>, keys: KeyStore)
    requires Sound(s) && |sync| == SYNC_BYTES && !s.synced && s.encSeen && !s.hdrBad && s.miss == 0
    ensures Sound(Voted(s, sync, keys)) && !Voted(s, sync, keys).hdrBad
  {
    hide SlowShape, VoteShape, Score, Elected, VotedOffset, Aged, WithBallot, NonceOf, CounterOf;
    BallotShape(s.voteOne, s.voteN, NonceOf(sync));
    var off := VotedOffset(s, BlockOffset(s, sync));
    assert (s.localSf + off) % HALF_WORD < WORD;
  }

  lemma BallotShape(v: seq<nat>, n: nat, r: Nonce)
    requires VoteShape(v, n)
    ensures var (w, m) := Aged(v, n); VoteShape(WithBallot(w, r), m + 1)
  {
  }

  lemma JudgedSound(s: RxState, sync: seq<Byte>, fast: bool, keys: KeyStore)
    requires Sound(s) && |sync| == SYNC_BYTES && CounterOf(sync) < HALF_WORD && s.synced
    ensures Sound(Judged(s, sync, fast, keys)) && !Judged(s, sync, fast, keys).hdrBad
  {
    hide SlowShape, VoteShape, SyncCheckOf, NonceOf, CounterOf, NoBallots, BitsOff;
  }

  lemma SeenSound(s: RxState, sync: seq<Byte>, check: Byte, keys: KeyStore)
    requires Sound(s) && |sync| == SYNC_BYTES && CounterOf(sync) < HALF_WORD && s.encSeen && s.miss == 0
    ensures var t := Seen(s, sync, check, keys); Sound(t) && (s.hdrBad ==> t.hdrBad)
  {
    hide SlowShape, VoteShape, SyncCheckOf, NonceOf, CounterOf, NoBallots, BitsOff, Judged, Voted, Fast;
    var exact := check == sync[8];
    var u := s.(lastExact := exact, lastR := NonceOf(sync), lastSf := CounterOf(sync), lastLocal := s.localSf);
    if u.synced {
      JudgedSound(u, sync, Fast(s, sync, exact), keys);
    } else if !u.hdrBad {
      VotedSound(u, sync, keys);
    }
  }

  lemma TriedSound(s: RxState, keys: KeyStore)
    requires Sound(s)
    ensures Sound(Tried(s, keys)) && (s.hdrBad ==> Tried(s, keys).hdrBad)
  {
    hide VoteShape, SyncCheckOf, NonceOf, CounterOf, FillerBits, BitsOff, Seen;
    var sync := SyncOf(s.slow);
    CounterBound(sync);
    var t := s.(encSeen := true, clearKnown := false, miss := 0);
    var check := SyncCheckOf(keys, NonceOf(sync), CounterOf(sync));
    if check.Some? {
      SeenSound(t, sync, check.value, keys);
    }
  }

  lemma CountedSound(s: RxState, fc: nat)
    requires Sound(s) && fc < HALF_WORD
    ensures Sound(Counted(s, fc)) && (s.hdrBad ==> Counted(s, fc).hdrBad)
  {
    hide VoteShape, NoBallots;
  }

  lemma GatheredSound(s: RxState, b: seq<Byte>, fc: nat, keys: KeyStore)
    requires Sound(s) && |b| == 3
    ensures Sound(Gathered(s, b, fc, keys)) && (s.hdrBad ==> Gathered(s, b, fc, keys).hdrBad)
  {
    hide VoteShape, Tried, XorBytes;
    if SYNC_FIRST_SLOT <= fc <= SYNC_LAST_SLOT {
      var j := fc - SYNC_FIRST_SLOT;
      var t := s.(slow := s.slow[j := XorBytes(b, SLOW_SCRAMBLE)], slowMask := s.slowMask[j := true]);
      hide SlowShape;
      TriedSound(t, keys);
    }
  }

  /** Putting the keystream on a frame keeps the receiver sound, and plays nothing if the key is wrong. */
  lemma OpenedSound(s: RxState, e: seq<bool>, fc: nat, keys: KeyStore, haveKey: bool)
    requires Sound(s) && |e| == AMBE_BITS
    ensures var (t, d, play) := Opened(s, e, fc, keys, haveKey); Sound(t) && (s.hdrBad ==> t.hdrBad && !play)
  {
    hide SlowShape, VoteShape, Masked, BadBlocks;
  }

  // ---- whole runs

  datatype Event =
    | Reset
    | Header(h: seq<Byte>, keys: KeyStore)
    | Frame(f: seq<Byte>, fc: nat, keys: KeyStore, haveKey: bool)

  ghost predicate Proper(ev: Event) {
    match ev
    case Reset => true
    case Header(h, _) => |h| == HEADER_BYTES
    case Frame(f, fc, _, _) => |f| == FRAME_BYTES && fc < HALF_WORD
  }

  function Start(): RxState {
    var zero := [false, false, false, false, false, false, false, false];
    RxState(false, false, false, false, Zeros(NONCE_BITS), 0, 0,
            [[zero, zero, zero], [zero, zero, zero], [zero, zero, zero], [zero, zero, zero]],
            [false, false, false, false], 0, 0, NoBallots(), 0, [0, 0, 0, 0, 0, 0], 0, [0, 0, 0, 0, 0], 0,
            false, Zeros(NONCE_BITS), 0, 0, false, false, false, Zeros(NONCE_BITS), 0, 0,
            [zero, zero, zero, zero, zero], [0, 0, 0, 0, 0], 0, Clear)
  }

  /** The receiver when the keystream is put on a frame: its superframe counted, its slow data seen. */
  function Ready(s: RxState, f: seq<Byte>, fc: nat, keys: KeyStore): RxState
    requires Sound(s) && |f| == FRAME_BYTES && fc < HALF_WORD
  {
    CountedSound(s, fc);
    Gathered(Counted(s, fc), f[AMBE_BYTES..], fc, keys)
  }

  ghost function Received(s: RxState, f: seq<Byte>, fc: nat, keys: KeyStore, haveKey: bool, c: Codec): (RxState, seq<bool>, bool)
    requires Sound(s) && |f| == FRAME_BYTES && fc < HALF_WORD && Faithful(c)
  {
    CountedSound(s, fc);
    GatheredSound(Counted(s, fc), f[AMBE_BYTES..], fc, keys);
    Opened(Ready(s, f, fc, keys), c.decode(f[..AMBE_BYTES]), fc, keys, haveKey)
  }

  ghost function After(s: RxState, ev: Event, c: Codec): RxState
    requires Sound(s) && Proper(ev) && Faithful(c)
  {
    match ev
    case Reset => Start()
    case Header(h, keys) => AfterHeader(s, h, keys)
    case Frame(f, fc, keys, haveKey) => Received(s, f, fc, keys, haveKey, c).0
  }

  lemma AfterSound(s: RxState, ev: Event, c: Codec)
    requires Sound(s) && Proper(ev) && Faithful(c)
    ensures Sound(After(s, ev, c))
  {
    hide Shaped, AfterHeader, Gathered, Counted, Opened, Faithful;
    match ev
    case Reset => StartSound();
    case Header(h, keys) => HeaderSound(s, h, keys);
    case Frame(f, fc, keys, haveKey) => ReceivedSound(s, f, fc, keys, haveKey, c);
  }

  lemma StartSound()
    ensures Sound(Start())
  {
  }

  lemma ReceivedSound(s: RxState, f: seq<Byte>, fc: nat, keys: KeyStore, haveKey: bool, c: Codec)
    requires Sound(s) && |f| == FRAME_BYTES && fc < HALF_WORD && Faithful(c)
    ensures var (t, d, play) := Received(s, f, fc, keys, haveKey, c);
      Sound(t) && (s.hdrBad ==> t.hdrBad && !play)
  {
    hide Shaped, Gathered, Counted, Opened, Masked;
    CountedSound(s, fc);
    GatheredSound(Counted(s, fc), f[AMBE_BYTES..], fc, keys);
    OpenedSound(Ready(s, f, fc, keys), c.decode(f[..AMBE_BYTES]), fc, keys, haveKey);
  }

  ghost predicate AllProper(run: seq<Event>) {
    forall i :: 0 <= i < |run| ==> Proper(run[i])
  }

  /** The receiver after a run of events from its reset. */
  ghost function Run(run: seq<Event>, c: Codec): (s: RxState)
    requires AllProper(run) && Faithful(c)
    ensures Sound(s)
  {
    if run == [] then StartSound(); Start()
    else
      var s := Run(run[..|run| - 1], c);
      AfterSound(s, run[|run| - 1], c);
      After(s, run[|run| - 1], c)
  }

  /** Frame i of the run is played. */
  ghost predicate Played(run: seq<Event>, i: nat, c: Codec)
    requires AllProper(run) && Faithful(c) && i < |run| && run[i].Frame?
  {
    Received(Run(run[..i], c), run[i].f, run[i].fc, run[i].keys, run[i].haveKey, c).2
  }

  /** Event i is a header that checks and was made with another key. */
  ghost predicate ProvesWrong(ev: Event)
    requires Proper(ev)
  {
    && ev.Header? && SaysEncrypted(ev.h) && Verified(ev.h)
    && var want := HeaderCheckOf(ev.keys, HeaderNonce(ev.h)); want.Some? && !KeyMatches(ev.h, want.value)
  }

  /** Whatever headers, frames and key changes come: after a header that proves the key wrong, no
      frame is played until the next header or reset. */
  lemma {:induction false} WrongKeyMuted(run: seq<Event>, i: nat, j: nat, c: Codec)
    requires AllProper(run) && Faithful(c) && i < j < |run| && ProvesWrong(run[i])
    requires forall k :: i < k <= j ==> run[k].Frame?
    ensures !Played(run, j, c) && Run(run[..j], c).hdrBad
  {
    hide After, AfterHeader, Received, ProvesWrong, Faithful, Sound;
    var p := run[..j];
    assert p[..j - 1] == run[..j - 1] && p[j - 1] == run[j - 1];
    var s := Run(run[..j - 1], c);
    if j == i + 1 {
      BadHeader(s, run[i], c);
    } else {
      WrongKeyMuted(run, i, j - 1, c);
      StillBad(s, run[j - 1], c);
    }
    StillBad(Run(p, c), run[j], c);
  }

  lemma BadHeader(s: RxState, ev: Event, c: Codec)
    requires Sound(s) && Proper(ev) && Faithful(c) && ProvesWrong(ev)
    ensures After(s, ev, c).hdrBad
  {
    hide Sound, Verified, HeaderCheckOf, KeyMatches, HeaderNonce;
  }

  lemma StillBad(s: RxState, ev: Event, c: Codec)
    requires Sound(s) && Proper(ev) && Faithful(c) && ev.Frame? && s.hdrBad
    ensures After(s, ev, c).hdrBad && !Received(s, ev.f, ev.fc, ev.keys, ev.haveKey, c).2
  {
    hide Sound, Received, Faithful;
    ReceivedSound(s, ev.f, ev.fc, ev.keys, ev.haveKey, c);
  }

  // ---- what shows an over to be clear

  /** The last header since the last reset said that the over is encrypted. */
  ghost predicate SaidEncrypted(run: seq<Event>)
    requires AllProper(run)
  {
    if run == [] then false
    else match run[|run| - 1]
      case Reset => false
      case Header(h, _) => SaysEncrypted(h)
      case Frame(_, _, _, _) => SaidEncrypted(run[..|run| - 1])
  }

  /** What came in slots 17 to 20 since the last data sync. */
  ghost function SlotsOf(run: seq<Event>): (s: seq<Option<seq<Byte>>>)
    requires AllProper(run)
    ensures |s| == 4 && forall j :: 0 <= j < 4 && s[j].Some? ==> |s[j].value| == 3
  {
    if run == [] then [None, None, None, None]
    else
      var before := SlotsOf(run[..|run| - 1]);
      match run[|run| - 1]
      case Reset => [None, None, None, None]
      case Header(_, _) => before
      case Frame(f, fc, _, _) =>
        if fc == 0 then [None, None, None, None]
        else if SYNC_FIRST_SLOT <= fc <= SYNC_LAST_SLOT then
          before[fc - SYNC_FIRST_SLOT := Some(XorBytes(f[AMBE_BYTES..], SLOW_SCRAMBLE))]
        else before
  }

  /** What slots 17 to 20 are taken for: a clear over's filler, a sync block, other slow data, or neither. */
  datatype Reading = Filler | Block | Other | Neither

  function ReadingOf(slow: seq<seq<Byte>>): Reading
    requires SlowShape(slow, [true, true, true, true])
  {
    var typeBits := BitsOff(slow[2][0], SLOW_TYPE);
    if FillerBits(SyncOf(slow)) <= FILLER_MAX_BITS then Filler
    else if typeBits <= TYPE_MAX_BITS then Block
    else if typeBits >= TYPE_CLEAR_BITS then Other
    else Neither
  }

  /** The run ends with slot 20 of a superframe whose slots 17 to 20 all came, and they read so. */
  ghost predicate EndsReading(run: seq<Event>, what: Reading)
    requires AllProper(run)
  {
    && run != [] && run[|run| - 1].Frame? && run[|run| - 1].fc == SYNC_LAST_SLOT
    && var s := SlotsOf(run);
       s[0].Some? && s[1].Some? && s[2].Some? && s[3].Some?
       && ReadingOf([s[0].value, s[1].value, s[2].value, s[3].value]) == what
  }

  /** The last event of the run shows the over to be clear: a header that checks and says so, or, when no
      header said otherwise and the receiver has no keystream, filler; or other slow data, when no sync
      block was seen. */
  ghost predicate ShowsClear(run: seq<Event>, c: Codec)
    requires AllProper(run) && Faithful(c) && run != []
  {
    var before := run[..|run| - 1];
    || (run[|run| - 1].Header? && !SaysEncrypted(run[|run| - 1].h) && Verified(run[|run| - 1].h))
    || (!SaidEncrypted(before) && !Run(before, c).synced &&
          (EndsReading(run, Filler) || (EndsReading(run, Other) && !Run(before, c).encSeen)))
  }

  /** The last event of the run takes that back: a reset, a header that says encrypted or does not check,
      or a sync block. */
  ghost predicate TakesBack(run: seq<Event>)
    requires AllProper(run) && run != []
  {
    match run[|run| - 1]
    case Reset => true
    case Header(h, _) => SaysEncrypted(h) || !Verified(h)
    case Frame(_, _, _, _) => EndsReading(run, Block)
  }

  /** Event k showed the over to be clear, and nothing took it back since. */
  ghost predicate ShownAt(run: seq<Event>, k: nat, c: Codec)
    requires AllProper(run) && Faithful(c)
  {
    k < |run| && ShowsClear(run[..k + 1], c) && forall j: nat :: k + 1 < j <= |run| ==> !TakesBack(run[..j])
  }

  ghost predicate ShownClear(run: seq<Event>, c: Codec)
    requires AllProper(run) && Faithful(c)
  {
    exists k: nat :: ShownAt(run, k, c)
  }

  /** The receiver's own record of what came is right. */
  ghost predicate Recalls(hdrEnc: bool, slow: seq<seq<Byte>>, mask: seq<bool>, run: seq<Event>)
    requires AllProper(run)
  {
    && hdrEnc == SaidEncrypted(run) && SlowShape(slow, mask)
    && forall j :: 0 <= j < 4 ==> SlotHeld(slow[j], mask[j], SlotsOf(run)[j])
  }

  ghost predicate Remembers(s: RxState, run: seq<Event>)
    requires AllProper(run)
  {
    Recalls(s.hdrEnc, s.slow, s.slowMask, run)
  }

  predicate SlotHeld(b: seq<Byte>, have: bool, slot: Option<seq<Byte>>) {
    if have then slot == Some(b) else slot.None?
  }

  /** Whatever a sync block does, it does not touch what was said and heard. */
  ghost predicate SameRecord(s: RxState, t: RxState) {
    && t.hdrEnc == s.hdrEnc && t.slow == s.slow && t.slowMask == s.slowMask && t.clearKnown == s.clearKnown
    && t.hdrBad == s.hdrBad
  }

  lemma SeenRecord(s: RxState, sync: seq<Byte>, check: Byte, keys: KeyStore)
    requires Shaped(s) && |sync| == SYNC_BYTES && CounterOf(sync) < HALF_WORD
    ensures SameRecord(s, Seen(s, sync, check, keys))
  {
    hide SlowShape, VoteShape, SyncCheckOf, NonceOf, CounterOf, BitsOff, Judged, Voted, Fast, Locked, ForgetVotes;
    var exact := check == sync[8];
    var u := s.(lastExact := exact, lastR := NonceOf(sync), lastSf := CounterOf(sync), lastLocal := s.localSf);
    LockRecord(u, u.hdrR, CounterOf(sync));
    LockRecord(u, NonceOf(sync), CounterOf(sync));
    JudgedRecord(u, sync, Fast(s, sync, exact), keys);
    VotedRecord(u, sync, keys);
  }

  lemma LockRecord(s: RxState, r: Nonce, sf: nat)
    ensures SameRecord(s, Locked(s, r, sf)) && SameRecord(s, ForgetVotes(s)) && SameRecord(s, Locked(ForgetVotes(s), r, sf))
  {
    hide NoBallots;
  }

  lemma WeighedRecord(s: RxState, d: nat)
    requires |s.distHist| == DIST_HIST && d <= 8
    ensures SameRecord(s, Weighed(s, d))
  {
    PushRecord(s, d);
    hide PushDist;
    EndRecord(PushDist(s, d), s.cusum + LLR[d]);
  }

  lemma PushRecord(s: RxState, d: nat)
    requires |s.distHist| == DIST_HIST
    ensures SameRecord(s, PushDist(s, d))
  {
  }

  lemma EndRecord(s: RxState, c: int)
    ensures var t := s.(cusum := if c < 0 then 0 else c); SameRecord(s, t) && SameRecord(s, t.(synced := false, badKey := true))
  {
  }

  lemma JudgedRecord(s: RxState, sync: seq<Byte>, fast: bool, keys: KeyStore)
    requires Shaped(s) && |sync| == SYNC_BYTES
    ensures SameRecord(s, Judged(s, sync, fast, keys))
  {
    hide SlowShape, VoteShape, SyncCheckOf, NonceOf, CounterOf, BitsOff, Weighed, Locked, ForgetVotes, SameRecord;
    LockRecord(s, NonceOf(sync), CounterOf(sync));
    SfRecord(s, CounterOf(sync));
    var want := SyncCheckOf(keys, s.r, s.sf % HALF_WORD);
    if want.Some? && !(fast && s.r != NonceOf(sync)) {
      var u := if fast then s.(sf := CounterOf(sync)) else s;
      var d := BitsOff(want.value, sync[8]);
      WeighedRecord(u, d);
      RecordOn(s, u, Weighed(u, d));
    }
  }

  lemma SfRecord(s: RxState, sf: nat)
    ensures SameRecord(s, s.(sf := sf)) && SameRecord(s, s)
  {
  }

  lemma RecordOn(s: RxState, u: RxState, t: RxState)
    requires SameRecord(s, u) && SameRecord(u, t)
    ensures SameRecord(s, t)
  {
  }

  lemma VotedRecord(s: RxState, sync: seq<Byte>, keys: KeyStore)
    requires Shaped(s) && |sync| == SYNC_BYTES
    ensures SameRecord(s, Voted(s, sync, keys))
  {
    hide SlowShape, VoteShape, Score, Elected, VotedOffset, Aged, WithBallot, NonceOf, CounterOf, SaysBad, SaysLock;
    BallotShape(s.voteOne, s.voteN, NonceOf(sync));
  }

  /** What slots 17 to 20 change of it. */
  lemma TriedRecord(s: RxState, keys: KeyStore)
    requires Shaped(s)
    ensures var t := Tried(s, keys);
      && t.hdrEnc == s.hdrEnc && t.slow == s.slow && t.slowMask == s.slowMask
      && t.clearKnown == match ReadingOf(s.slow)
           case Filler => s.clearKnown || (!s.hdrEnc && !s.synced)
           case Block => false
           case Other => s.clearKnown || (!s.hdrEnc && !s.synced && !s.encSeen)
           case Neither => s.clearKnown
  {
    hide VoteShape, SyncCheckOf, NonceOf, CounterOf, FillerBits, BitsOff, Seen;
    var sync := SyncOf(s.slow);
    CounterBound(sync);
    var t := s.(encSeen := true, clearKnown := false, miss := 0);
    var check := SyncCheckOf(keys, NonceOf(sync), CounterOf(sync));
    if check.Some? {
      SeenRecord(t, sync, check.value, keys);
    }
  }

  lemma CountedRecord(s: RxState, fc: nat)
    ensures var t := Counted(s, fc);
      && t.hdrEnc == s.hdrEnc && t.slow == s.slow && t.clearKnown == s.clearKnown
      && t.slowMask == (if fc == 0 then [false, false, false, false] else s.slowMask)
      && (fc != 0 ==> t.synced == s.synced && t.encSeen == s.encSeen)
  {
    hide NoBallots;
  }

  lemma OpenedRecord(s: RxState, e: seq<bool>, fc: nat, keys: KeyStore, haveKey: bool)
    requires |s.distHist| == DIST_HIST && |e| == AMBE_BITS
    ensures SameRecord(s, Opened(s, e, fc, keys, haveKey).0)
  {
    hide BadBlocks, Masked;
  }

  lemma HeaderRecord(s: RxState, h: seq<Byte>, keys: KeyStore)
    requires |h| == HEADER_BYTES
    ensures var t := AfterHeader(s, h, keys);
      && t.hdrEnc == SaysEncrypted(h) && t.clearKnown == (!SaysEncrypted(h) && Verified(h))
      && t.slow == s.slow && t.slowMask == s.slowMask
  {
    hide Verified, HeaderCheckOf, HeaderNonce, KeyMatches, ForgetVotes, SaysEncrypted;
    if SaysEncrypted(h) {
      hide AfterHeader;
      EncryptedRecord(s, h, keys);
    } else {
      LockRecord(s.(hdrEnc := false, clearKnown := Verified(h), synced := false, encSeen := false, hdrBad := false,
                    hdrRValid := false), s.r, 0);
    }
  }

  lemma EncryptedRecord(s: RxState, h: seq<Byte>, keys: KeyStore)
    requires |h| == HEADER_BYTES && SaysEncrypted(h)
    ensures var t := AfterHeader(s, h, keys);
      t.hdrEnc && !t.clearKnown && t.slow == s.slow && t.slowMask == s.slowMask
  {
    hide Verified, HeaderCheckOf, HeaderNonce, KeyMatches, ForgetVotes, SaysEncrypted, TakenNonce;
    NonceRecord(s.(hdrEnc := true, clearKnown := false, hdrBad := false, badKey := false), HeaderNonce(h));
  }

  lemma NonceRecord(u: RxState, r: Nonce)
    ensures var t := TakenNonce(u, r);
      t.hdrEnc == u.hdrEnc && t.clearKnown == u.clearKnown && t.slow == u.slow && t.slowMask == u.slowMask
  {
  }

  // ---- event by event

  /** The clear flag follows what shows the over to be clear and what takes it back. */
  ghost predicate ClearFollows(s: RxState, t: RxState, run: seq<Event>, c: Codec)
    requires AllProper(run) && Faithful(c) && run != []
  {
    t.clearKnown <==> ShowsClear(run, c) || (s.clearKnown && !TakesBack(run))
  }

  lemma HeaderStep(s: RxState, run: seq<Event>, c: Codec)
    requires AllProper(run) && Faithful(c) && run != [] && run[|run| - 1].Header?
    requires Sound(s) && Remembers(s, run[..|run| - 1])
    ensures var t := After(s, run[|run| - 1], c); Remembers(t, run) && ClearFollows(s, t, run, c)
  {
    hide Sound, Verified, AfterHeader, Run, Faithful;
    HeaderRecord(s, run[|run| - 1].h, run[|run| - 1].keys);
  }

  lemma ResetStep(s: RxState, run: seq<Event>, c: Codec)
    requires AllProper(run) && Faithful(c) && run != [] && run[|run| - 1].Reset? && Sound(s)
    ensures var t := After(s, run[|run| - 1], c); Remembers(t, run) && ClearFollows(s, t, run, c)
  {
    hide Run, Faithful;
  }

  /** The slots as the receiver holds them before it looks at them. */
  lemma SlotsHeld(hdrEnc: bool, slow: seq<seq<Byte>>, mask: seq<bool>, run: seq<Event>)
    requires AllProper(run) && run != [] && run[|run| - 1].Frame? && Recalls(hdrEnc, slow, mask, run[..|run| - 1])
    ensures var ev := run[|run| - 1];
      var m := if ev.fc == 0 then [false, false, false, false] else mask;
      if SYNC_FIRST_SLOT <= ev.fc <= SYNC_LAST_SLOT then
        var j := ev.fc - SYNC_FIRST_SLOT;
        Recalls(hdrEnc, slow[j := XorBytes(ev.f[AMBE_BYTES..], SLOW_SCRAMBLE)], m[j := true], run)
      else Recalls(hdrEnc, slow, m, run)
  {
    hide XorBytes, SaysEncrypted;
  }

  /** What the gathering of a frame's slow data does to the record. */
  lemma GatheredStep(s: RxState, run: seq<Event>, c: Codec)
    requires AllProper(run) && Faithful(c) && run != [] && run[|run| - 1].Frame?
    requires Sound(s) && s == Run(run[..|run| - 1], c) && Remembers(s, run[..|run| - 1])
    ensures var ev := run[|run| - 1]; var t := Ready(s, ev.f, ev.fc, ev.keys);
      Remembers(t, run) && ClearFollows(s, t, run, c)
  {
    hide Sound, XorBytes, Counted, Tried, Run, Faithful, SaysEncrypted, SlotsOf, ReadingOf, Recalls, SaidEncrypted;
    var ev := run[|run| - 1];
    var u := Counted(s, ev.fc);
    CountedSound(s, ev.fc);
    CountedRecord(s, ev.fc);
    SlotsHeld(s.hdrEnc, s.slow, s.slowMask, run);
    SoundShaped(u);
    if SYNC_FIRST_SLOT <= ev.fc <= SYNC_LAST_SLOT {
      var j := ev.fc - SYNC_FIRST_SLOT;
      var w := u.(slow := u.slow[j := XorBytes(ev.f[AMBE_BYTES..], SLOW_SCRAMBLE)], slowMask := u.slowMask[j := true]);
      WholeMask(w, run);
      SaidBefore(run);
      if ev.fc == SYNC_LAST_SLOT && w.slowMask == [true, true, true, true] {
        TriedRecord(w, ev.keys);
      }
    }
  }

  lemma SaidBefore(run: seq<Event>)
    requires AllProper(run) && run != [] && run[|run| - 1].Frame?
    ensures SaidEncrypted(run) == SaidEncrypted(run[..|run| - 1])
  {
    hide SaysEncrypted;
  }

  lemma SoundShaped(s: RxState)
    requires Sound(s)
    ensures Shaped(s)
  {
  }

  /** All four slots came exactly if the mask is full, and then they are the ones held. */
  lemma WholeMask(s: RxState, run: seq<Event>)
    requires AllProper(run) && Remembers(s, run)
    ensures s.hdrEnc == SaidEncrypted(run)
    ensures var r := SlotsOf(run);
      (s.slowMask == [true, true, true, true] <==> r[0].Some? && r[1].Some? && r[2].Some? && r[3].Some?)
      && (s.slowMask == [true, true, true, true] ==>
            s.slow == [r[0].value, r[1].value, r[2].value, r[3].value])
  {
    hide SlotsOf, SaidEncrypted;
    var r := SlotsOf(run);
    assert forall j :: 0 <= j < 4 ==> SlotHeld(s.slow[j], s.slowMask[j], r[j]);
  }

  lemma FrameStep(s: RxState, run: seq<Event>, c: Codec)
    requires AllProper(run) && Faithful(c) && run != [] && run[|run| - 1].Frame?
    requires Sound(s) && s == Run(run[..|run| - 1], c) && Remembers(s, run[..|run| - 1])
    ensures var t := After(s, run[|run| - 1], c); Remembers(t, run) && ClearFollows(s, t, run, c)
  {
    hide Shaped, Run, Faithful, Gathered, Counted, Opened, Recalls, ShowsClear, TakesBack;
    var ev := run[|run| - 1];
    GatheredStep(s, run, c);
    CountedSound(s, ev.fc);
    GatheredSound(Counted(s, ev.fc), ev.f[AMBE_BYTES..], ev.fc, ev.keys);
    var t := Ready(s, ev.f, ev.fc, ev.keys);
    DistShape(t);
    DecodedBits(ev.f[..AMBE_BYTES], c);
    OpenedRecord(t, c.decode(ev.f[..AMBE_BYTES]), ev.fc, ev.keys, ev.haveKey);
  }

  lemma DistShape(s: RxState)
    requires Sound(s)
    ensures |s.distHist| == DIST_HIST
  {
  }

  lemma {:induction false} RunRemembers(run: seq<Event>, c: Codec)
    requires AllProper(run) && Faithful(c)
    ensures Remembers(Run(run, c), run)
    ensures run != [] ==> ClearFollows(Run(run[..|run| - 1], c), Run(run, c), run, c)
    ensures run == [] ==> !Run(run, c).clearKnown
  {
    hide After, Remembers, ClearFollows, Faithful, Sound;
    if run == [] {
      FirstRemembers();
    } else {
      var before := run[..|run| - 1];
      RunRemembers(before, c);
      match run[|run| - 1]
      case Reset => ResetStep(Run(before, c), run, c);
      case Header(_, _) => HeaderStep(Run(before, c), run, c);
      case Frame(_, _, _, _) => FrameStep(Run(before, c), run, c);
    }
  }

  lemma FirstRemembers()
    ensures Remembers(Start(), []) && !Start().clearKnown
  {
  }

  /** The receiver takes an over for clear exactly when an event showed it to be and none took it back. */
  lemma {:induction false} ClearExactly(run: seq<Event>, c: Codec)
    requires AllProper(run) && Faithful(c)
    ensures Run(run, c).clearKnown <==> ShownClear(run, c)
  {
    hide Run, ShowsClear, TakesBack, Faithful, Remembers;
    RunRemembers(run, c);
    if run != [] {
      var n := |run| - 1;
      ClearExactly(run[..n], c);
      ShownNext(run, c);
    }
  }

  lemma ShownNext(run: seq<Event>, c: Codec)
    requires AllProper(run) && Faithful(c) && run != []
    ensures ShownClear(run, c) <==> ShowsClear(run, c) || (ShownClear(run[..|run| - 1], c) && !TakesBack(run))
  {
    hide Run, ShowsClear, TakesBack, Faithful;
    var n := |run| - 1;
    var before := run[..n];
    assert run[..n + 1] == run;
    assert forall j: nat :: j <= n ==> before[..j] == run[..j];
    if ShowsClear(run, c) {
      assert ShownAt(run, n, c);
    }
    if ShownClear(before, c) && !TakesBack(run) {
      var k: nat :| ShownAt(before, k, c);
      assert ShownAt(run, k, c);
    }
    if ShownClear(run, c) && !ShowsClear(run, c) {
      var k: nat :| ShownAt(run, k, c);
      assert k < n;
      assert ShownAt(before, k, c);
    }
  }

  /** In every sequence of headers, frames, resets and key changes: a frame is played if and only if the
      receiver has the keystream of its own count, which then decrypts it, or an event showed the over to
      be clear and none took it back; then it is played as it came. */
  lemma PlayedExactly(run: seq<Event>, i: nat, c: Codec)
    requires AllProper(run) && Faithful(c) && i < |run| && run[i].Frame?
    ensures Proper(run[i])
    ensures var ev := run[i];
      var s := Run(run[..i], c);
      var u := Ready(s, ev.f, ev.fc, ev.keys);
      var ks := if u.synced then ev.keys(Voice, u.r, (SF_FRAMES * u.sf + ev.fc) % WORD) else None;
      var d, e := Received(s, ev.f, ev.fc, ev.keys, ev.haveKey, c).1, c.decode(ev.f[..AMBE_BYTES]);
      && (Played(run, i, c) <==> ks.Some? || ShownClear(run[..i + 1], c))
      && (ks.Some? ==> |e| == AMBE_BITS && d == Masked(e, ks.value) && !ShownClear(run[..i + 1], c))
      && (ShownClear(run[..i + 1], c) ==> d == e)
  {
    hide ShownClear, Counted, Gathered, Faithful, Masked, Run;
    var ev := run[i];
    var s := Run(run[..i], c);
    ClearExactly(run[..i + 1], c);
    RunStep(run, i, c);
    CountedSound(s, ev.fc);
    GatheredSound(Counted(s, ev.fc), ev.f[AMBE_BYTES..], ev.fc, ev.keys);
    DecodedBits(ev.f[..AMBE_BYTES], c);
    OpenedExactly(Ready(s, ev.f, ev.fc, ev.keys), c.decode(ev.f[..AMBE_BYTES]), ev.fc, ev.keys, ev.haveKey);
  }

  lemma DecodedBits(b: seq<Byte>, c: Codec)
    requires Faithful(c) && |b| == AMBE_BYTES
    ensures |c.decode(b)| == AMBE_BITS
  {
  }

  lemma RunStep(run: seq<Event>, i: nat, c: Codec)
    requires AllProper(run) && Faithful(c) && i < |run|
    ensures Run(run[..i + 1], c) == After(Run(run[..i], c), run[i], c)
  {
    hide After, Faithful;
    assert run[..i + 1][..i] == run[..i];
  }

  lemma OpenedExactly(s: RxState, e: seq<bool>, fc: nat, keys: KeyStore, haveKey: bool)
    requires Sound(s) && |e| == AMBE_BITS
    ensures var (t, d, play) := Opened(s, e, fc, keys, haveKey);
      var ks := if s.synced then keys(Voice, s.r, (SF_FRAMES * s.sf + fc) % WORD) else None;
      && (play <==> ks.Some? || t.clearKnown)
      && (ks.Some? ==> d == Masked(e, ks.value) && !t.clearKnown) && (ks.None? ==> d == e)
  {
    hide SlowShape, VoteShape, Masked, BadBlocks;
  }

  // ---- the loops

  method CountFiller(b: seq<Byte>) returns (n: nat)
    ensures n == FillerBits(b)
  {
    hide BitsOff;
    n := 0;
    for i := 0 to |b|
      invariant n == FillerBits(b[..i])
    {
      assert b[..i + 1][..i] == b[..i];
      n := n + BitsOff(b[i], FILLER);
    }
    assert b[..|b|] == b;
  }

  method AgeVotes(v: seq<nat>, n: nat) returns (w: seq<nat>, m: nat)
    requires VoteShape(v, n)
    ensures (w, m) == Aged(v, n)
  {
    w, m := v, n;
    if n >= R_VOTE_CAP {
      w := [];
      for i := 0 to NONCE_BITS
        invariant |w| == i && forall j :: 0 <= j < i ==> w[j] == (v[j] + 1) / 2
      {
        w := w + [(v[i] + 1) / 2];
      }
      assert w == Aged(v, n).0;
      m := R_VOTE_CAP / 2;
    }
  }

  /** One ballot more, and the majority. */
  method VoteNonce(v: seq<nat>, n: nat, r: Nonce) returns (w: seq<nat>, m: nat, out: Nonce)
    requires VoteShape(v, n)
    ensures w == WithBallot(Aged(v, n).0, r) && m == Aged(v, n).1 + 1 && out == Elected(w, m, r)
  {
    var kept: seq<nat>;
    kept, m := AgeVotes(v, n);
    m := m + 1;
    w := [];
    var o := [];
    for i := 0 to NONCE_BITS
      invariant |w| == |o| == i
      invariant forall j :: 0 <= j < i ==> w[j] == kept[j] + Val(r[j])
      invariant forall j :: 0 <= j < i ==> o[j] == if 2 * w[j] > m then true else if 2 * w[j] < m then false else r[j]
    {
      var ones := kept[i] + Val(r[i]);
      w := w + [ones];
      o := o + [if 2 * ones > m then true else if 2 * ones < m then false else r[i]];
    }
    out := o;
  }

  method Count(h: seq<nat>, x: nat) returns (c: nat)
    ensures c == CountOf(h, x)
  {
    c := 0;
    for j := 0 to |h|
      invariant c == CountOf(h[..j], x)
    {
      assert h[..j + 1][..j] == h[..j];
      if h[j] == x {
        c := c + 1;
      }
    }
    assert h[..|h|] == h;
  }

  method VoteOffset(h: seq<nat>, off: nat) returns (best: nat)
    ensures best == Choice(h, off, |h|).0
  {
    hide CountOf;
    best := off;
    var bestCount := 1;
    for i := 0 to |h|
      invariant (best, bestCount) == Choice(h, off, i)
    {
      var c := Count(h, h[i]);
      if c > bestCount {
        best, bestCount := h[i], c;
      }
    }
  }

  method ScoreBlocks(keys: KeyStore, r: Nonce, off: nat, local: seq<nat>, chk: seq<Byte>, n: nat)
    returns (score: Option<(nat, nat)>)
    requires n <= |local| && n <= |chk|
    ensures score == Score(keys, r, off, local, chk, n)
  {
    hide BitsOff, SyncCheckOf;
    var bits, bad := 0, 0;
    for i := 0 to n
      invariant Score(keys, r, off, local, chk, i) == Some((bits, bad))
    {
      var want := SyncCheckOf(keys, r, (local[i] + off) % HALF_WORD);
      if want.None? {
        ScoreGone(keys, r, off, local, chk, i + 1, n);
        return None;
      }
      var d := BitsOff(want.value, chk[i]);
      bits := bits + d;
      if d >= BAD_BITS {
        bad := bad + 1;
      }
    }
    return Some((bits, bad));
  }

  lemma {:induction false} ScoreGone(keys: KeyStore, r: Nonce, off: nat, local: seq<nat>, chk: seq<Byte>, i: nat, n: nat)
    requires i <= n <= |local| && n <= |chk| && Score(keys, r, off, local, chk, i) == None
    ensures Score(keys, r, off, local, chk, n) == None
    decreases n - i
  {
    hide BitsOff, SyncCheckOf;
    if i < n {
      ScoreGone(keys, r, off, local, chk, i + 1, n);
    }
  }

  method CountBad(s: RxState, last: nat) returns (bad: nat)
    requires |s.distHist| == DIST_HIST && last <= s.distN
    ensures bad == BadBlocks(s, last)
  {
    bad := 0;
    for k := 1 to last + 1
      invariant bad == BadBlocks(s, k - 1)
    {
      if s.distHist[(s.distN - k) % DIST_HIST] >= BAD_BITS {
        bad := bad + 1;
      }
    }
  }

  // ---- the receiver

  class VoiceRx {
    var s: RxState

    constructor ()
      ensures s == Start() && Sound(s)
    {
      s := Start();
      StartSound();
    }

    method Reset()
      modifies this
      ensures s == Start() && Sound(s)
    {
      s := Start();
      StartSound();
    }

    method Header(h: seq<Byte>, keys: KeyStore)
      requires Sound(s) && |h| == HEADER_BYTES
      modifies this
      ensures s == AfterHeader(old(s), h, keys) && Sound(s)
    {
      hide Sound, Flatten, HeaderCheckOf, HeaderNonce, KeyMatches, ForgetVotes;
      HeaderSound(s, h, keys);
      var crcOk := Checksum(Flatten(h));
      if !h[2][0] {
        s := s.(hdrEnc := false, clearKnown := crcOk, synced := false, encSeen := false, hdrBad := false,
                hdrRValid := false);
        s := ForgetVotes(s);
        return;
      }
      s := s.(hdrEnc := true, clearKnown := false);
      var want := HeaderCheckOf(keys, HeaderNonce(h));
      if !crcOk || want.None? {
        return;
      }
      if !KeyMatches(h, want.value) {
        s := s.(hdrBad := true, badKey := true, synced := false, hdrRValid := false);
        return;
      }
      s := s.(hdrBad := false, badKey := false);
      if s.synced && s.r == HeaderNonce(h) {
        return;
      }
      if s.frames == 0 {
        s := s.(r := HeaderNonce(h), sf := WORD - 1, synced := true, cusum := 0, distN := 0, encSeen := true);
      } else {
        s := s.(hdrR := HeaderNonce(h), hdrRValid := true, synced := false);
      }
    }

    method Vote(sync: seq<Byte>, keys: KeyStore)
      requires Shaped(s) && |sync| == SYNC_BYTES
      modifies this
      ensures s == Voted(old(s), sync, keys)
    {
      hide VoteShape, SlowShape, Elected, VotedOffset, BlockOffset, WithBlock, Score, NonceOf, Locked, SaysBad, SaysLock;
      var vr, best := AddBlock(sync);
      var n := Min(s.blkN, DIST_HIST);
      var score := ScoreBlocks(keys, vr, best, s.blkLocal, s.blkChk, n);
      var t := s;
      if SaysBad(n, score) {
        t := t.(badKey := true);
        LockClears(s, vr, (s.localSf + best) % HALF_WORD);
      }
      if SaysLock(n, score) {
        t := Locked(t, vr, (t.localSf + best) % HALF_WORD);
      }
      s := t;
    }

    /** The block joins the votes on the nonce and the offset, which give what they now say. */
    method AddBlock(sync: seq<Byte>) returns (vr: Nonce, best: nat)
      requires Shaped(s) && |sync| == SYNC_BYTES
      modifies this
      ensures s == WithBlock(old(s), sync) && |s.voteOne| == NONCE_BITS && |s.blkChk| == |s.blkLocal| == DIST_HIST
      ensures vr == Elected(s.voteOne, s.voteN, NonceOf(sync))
      ensures best == VotedOffset(old(s), BlockOffset(old(s), sync))
    {
      hide VoteShape, SlowShape, Aged, WithBallot, Elected, Choice, NonceOf, BlockOffset, Offsets;
      var off := BlockOffset(s, sync);
      var h := Offsets(s.offHist, s.offN, off);
      best := VoteOffset(h, off);
      var w, m, out := VoteNonce(s.voteOne, s.voteN, NonceOf(sync));
      vr := out;
      s := s.(voteOne := w, voteN := m,
              offHist := s.offHist[s.offN % OFF_HIST := off], offN := (s.offN + 1) % (BYTE_MAX + 1),
              blkChk := s.blkChk[s.blkN % DIST_HIST := sync[8]], blkLocal := s.blkLocal[s.blkN % DIST_HIST := s.localSf],
              blkN := Min(s.blkN + 1, BYTE_MAX));
    }

    method Judge(sync: seq<Byte>, fast: bool, keys: KeyStore)
      requires Shaped(s) && |sync| == SYNC_BYTES
      modifies this
      ensures s == Judged(old(s), sync, fast, keys)
    {
      hide NonceOf, CounterOf, SyncCheckOf, BitsOff, ForgetVotes, Locked, SlowShape, VoteShape, Weighed;
      var want := SyncCheckOf(keys, s.r, s.sf % HALF_WORD);
      if want.None? {
        return;
      }
      var same := s.r == NonceOf(sync);
      if fast && !same {
        s := Locked(ForgetVotes(s), NonceOf(sync), CounterOf(sync));
        return;
      }
      if fast {
        s := s.(sf := CounterOf(sync));
      }
      Weigh(BitsOff(want.value, sync[8]));
    }

    method Weigh(d: nat)
      requires |s.distHist| == DIST_HIST && d <= 8
      modifies this
      ensures s == Weighed(old(s), d)
    {
      var t := PushDist(s, d);
      hide PushDist;
      var c := s.cusum + LLR[d];
      t := t.(cusum := if c < 0 then 0 else c);
      if t.cusum >= CUSUM_UNLOCK {
        t := t.(synced := false, badKey := true);
      }
      s := t;
    }

    method TrySync(keys: KeyStore)
      requires Shaped(s)
      modifies this
      ensures s == Tried(old(s), keys)
    {
      hide VoteShape, NonceOf, CounterOf, SyncCheckOf, BitsOff, ForgetVotes, Locked, Judged, Voted, FillerBits, SyncOf;
      var sync := SyncOf(s.slow);
      var filler := CountFiller(sync);
      var typeBits := BitsOff(s.slow[2][0], SLOW_TYPE);
      if filler <= FILLER_MAX_BITS {
        if !s.hdrEnc && !s.synced {
          s := s.(encSeen := false, clearKnown := true);
        }
        return;
      }
      if typeBits > TYPE_MAX_BITS {
        if typeBits >= TYPE_CLEAR_BITS && !s.hdrEnc && !s.synced && !s.encSeen {
          s := s.(clearKnown := true);
        }
        return;
      }
      s := s.(encSeen := true, clearKnown := false, miss := 0);
      CounterBound(sync);
      var check := SyncCheckOf(keys, NonceOf(sync), CounterOf(sync));
      if check.Some? {
        hide SlowShape;
        SeeBlock(sync, check.value, keys);
      }
    }

    method SeeBlock(sync: seq<Byte>, check: Byte, keys: KeyStore)
      requires Shaped(s) && |sync| == SYNC_BYTES && CounterOf(sync) < HALF_WORD
      modifies this
      ensures s == Seen(old(s), sync, check, keys)
    {
      hide VoteShape, SlowShape, NonceOf, CounterOf, SyncCheckOf, BitsOff, ForgetVotes, Locked, Judged, Voted, Fast;
      var exact := check == sync[8];
      var fast := Fast(s, sync, exact);
      s := s.(lastExact := exact, lastR := NonceOf(sync), lastSf := CounterOf(sync), lastLocal := s.localSf);
      if !s.synced && s.hdrBad {
        return;
      }
      if !s.synced && s.hdrRValid {
        var c := SyncCheckOf(keys, s.hdrR, CounterOf(sync));
        if c.Some? && c.value == sync[8] {
          s := Locked(ForgetVotes(s), s.hdrR, CounterOf(sync));
        }
        return;
      }
      if s.synced {
        Judge(sync, fast, keys);
      } else if fast {
        s := Locked(s, NonceOf(sync), CounterOf(sync));
      } else {
        Vote(sync, keys);
      }
    }

    /** One frame: its voice bits and whether to play them. */
    method Frame(f: seq<Byte>, fc: nat, keys: KeyStore, haveKey: bool, c: Codec) returns (d: seq<bool>, play: bool)
      requires Sound(s) && |f| == FRAME_BYTES && fc < HALF_WORD && Faithful(c)
      modifies this
      ensures Sound(s) && (s, d, play) == Received(old(s), f, fc, keys, haveKey, c)
      ensures old(s.hdrBad) ==> !play && s.hdrBad
    {
      hide Counted, Gathered, Opened;
      ReceivedSound(s, f, fc, keys, haveKey, c);
      CountedSound(s, fc);
      Arrive(fc);
      KeepSlow(f[AMBE_BYTES..], fc, keys);
      d := c.decode(f[..AMBE_BYTES]);
      d, play := Open(d, fc, keys, haveKey);
    }

    method Arrive(fc: nat)
      requires s.frames < WORD
      modifies this
      ensures s == Counted(old(s), fc)
    {
      hide NewSuperframe;
      ghost var b := s;
      if fc == 0 {
        BeginSuperframe();
        SameFrames(b);
      }
      s := s.(lastFc := fc);
      if s.frames < WORD - 1 {
        s := s.(frames := s.frames + 1);
      }
    }

    method BeginSuperframe()
      modifies this
      ensures s == NewSuperframe(old(s))
    {
      hide ForgetVotes;
      var t := s;
      var elapsed := t.lastFc / SF_FRAMES + 1;
      t := t.(localSf := (t.localSf + elapsed) % WORD, slowMask := [false, false, false, false]);
      if t.synced {
        t := t.(sf := (t.sf + elapsed) % WORD, miss := t.miss + 1);
        if t.miss > MAX_MISS {
          t := ForgetVotes(t.(synced := false, encSeen := false));
        }
      }
      s := t;
    }

    method KeepSlow(b: seq<Byte>, fc: nat, keys: KeyStore)
      requires Sound(s) && |b| == 3
      modifies this
      ensures s == Gathered(old(s), b, fc, keys) && Sound(s)
    {
      hide VoteShape, Tried, XorBytes;
      GatheredSound(s, b, fc, keys);
      if SYNC_FIRST_SLOT <= fc <= SYNC_LAST_SLOT {
        var j := fc - SYNC_FIRST_SLOT;
        s := s.(slow := s.slow[j := XorBytes(b, SLOW_SCRAMBLE)], slowMask := s.slowMask[j := true]);
        if fc == SYNC_LAST_SLOT && s.slowMask == [true, true, true, true] {
          TrySync(keys);
        }
      }
    }

    method Open(e: seq<bool>, fc: nat, keys: KeyStore, haveKey: bool) returns (d: seq<bool>, play: bool)
      requires Sound(s) && |e| == AMBE_BITS
      modifies this
      ensures (s, d, play) == Opened(old(s), e, fc, keys, haveKey)
    {
      hide SlowShape, VoteShape, Masked, Evidence;
      if s.synced {
        var ks := keys(Voice, s.r, (SF_FRAMES * s.sf + fc) % WORD);
        if ks.Some? {
          s := s.(status := Decrypting);
          return Masked(e, ks.value), true;
        }
        s := s.(synced := false);
      }
      SetStatus(haveKey);
      return e, s.status == Clear;
    }

    method SetStatus(haveKey: bool)
      requires |s.distHist| == DIST_HIST
      modifies this
      ensures s == Unsynced(old(s), haveKey)
    {
      hide BadBlocks;
      if !s.hdrEnc && !s.encSeen {
        s := s.(status := if s.clearKnown then Clear else Acquiring);
      } else if !haveKey {
        s := s.(status := NoKey);
      } else {
        var n := Min(s.distN, DIST_HIST);
        var bad := CountBad(s, n);
        if n >= DIST_HIST && bad >= DIST_HIST - 1 {
          s := s.(badKey := true);
        }
        s := s.(status := if s.badKey then BadKey else Acquiring);
      }
    }
  }

  lemma SameFrames(s: RxState)
    ensures NewSuperframe(s).frames == s.frames
  {
  }

  lemma LockClears(s: RxState, r: Nonce, sf: nat)
    ensures Locked(s.(badKey := true), r, sf) == Locked(s, r, sf)
  {
  }
}
