/** A D-STAR voice receiver listening to an encrypted over: the keystream position it follows is the
    transmitter's, whichever data syncs it misses, whether it heard the header or joined late. */
module DstarVoiceLink {
  import opened Bits
  import GrayCode
  import opened VoiceCrypto
  import opened DstarQueue
  import opened DstarHeader
  import opened DstarVoiceTx
  import opened DstarSlow
  import opened DstarVoiceRx

  /** An encrypted over: its header, its nonce, and the key both ends have. */
  datatype Over = Over(h: seq<Byte>, r: Nonce, keys: KeyStore)

  ghost predicate Good(o: Over) {
    && KeysFor(o.keys, o.r) && HeaderCheckOf(o.keys, o.r).Some?
    && |o.h| == HEADER_BYTES && Verified(o.h) && SaysEncrypted(o.h) && HeaderNonce(o.h) == o.r
    && KeyMatches(o.h, HeaderCheckOf(o.keys, o.r).value)
  }

  /** The sync block of superframe b. */
  ghost function BlockOf(o: Over, b: nat): (s: seq<Byte>)
    requires KeysFor(o.keys, o.r)
    ensures |s| == SYNC_BYTES
  {
    SyncBlock(o.r, b, SyncCheckOf(o.keys, o.r, b).value)
  }

  /** The slow data of slot j of superframe b. */
  ghost function SlowSent(o: Over, b: nat, j: nat): (s: seq<Byte>)
    requires KeysFor(o.keys, o.r) && |o.h| == HEADER_BYTES && j < SF_FRAMES
    ensures |s| == 3
  {
    SlowBytes(o.h, BlockOf(o, b), true, j)
  }

  // ---- the sync block in slow data

  /** What the receiver keeps of slots 17 to 20 is what superframe b sent there. */
  ghost predicate SlowRight(slow: seq<seq<Byte>>, mask: seq<bool>, o: Over, b: nat)
    requires KeysFor(o.keys, o.r) && |o.h| == HEADER_BYTES && |slow| == |mask| == 4
  {
    forall j :: 0 <= j < 4 && mask[j] ==> slow[j] == XorBytes(SlowSent(o, b, SYNC_FIRST_SLOT + j), SLOW_SCRAMBLE)
  }

  /** The sync block read from slots 17 to 20 is the one put there, marked with its type. */
  lemma SyncRead(slow: seq<seq<Byte>>, o: Over, b: nat)
    requires KeysFor(o.keys, o.r) && |o.h| == HEADER_BYTES
    requires SlowShape(slow, [true, true, true, true]) && SlowRight(slow, [true, true, true, true], o, b)
    ensures SyncOf(slow) == BlockOf(o, b) && slow[2][0] == SLOW_TYPE
  {
    hide KeysFor, BlockOf, XorBytes, SlowBytes;
    var sync := BlockOf(o, b);
    var ua, ub := SlowUnit(o.h, sync, true, SYNC_UNIT_A), SlowUnit(o.h, sync, true, SYNC_UNIT_B);
    Descrambled(o.h, sync, true, 17);
    Descrambled(o.h, sync, true, 18);
    Descrambled(o.h, sync, true, 19);
    Descrambled(o.h, sync, true, 20);
    assert slow[0] == ua[..3] && slow[1] == ua[3..] && slow[2] == ub[..3] && slow[3] == ub[3..];
    assert slow[0] + slow[1] == ua && slow[2] + slow[3] == ub;
    assert ua[2..] == sync[..4] && ub[1..] == sync[4..];
  }

  // ---- in step

  /** Every ballot so far was for r. */
  ghost predicate Unanimous(v: seq<nat>, n: nat, r: Nonce) {
    |v| == NONCE_BITS && forall i :: 0 <= i < NONCE_BITS ==> v[i] == if r[i] then n else 0
  }

  ghost predicate SameOffset(hist: seq<nat>, n: nat, off: nat) {
    |hist| == OFF_HIST && forall i :: 0 <= i < OFF_HIST && i < n ==> hist[i] == off
  }

  /** The receiver has heard the over up to frame 21 * b + lastFc; b is the superframe of the last data
      sync it saw, and off what its own count of superframes lacks. If it has the keystream, it is at
      the transmitter's place in it. */
  ghost predicate InStep(s: RxState, o: Over, b: nat, off: nat)
    requires KeysFor(o.keys, o.r) && |o.h| == HEADER_BYTES
  {
    && Sound(s) && s.frames > 0
    && SF_FRAMES * b + s.lastFc < SF_FRAMES * SF_COUNT
    && (s.synced ==> s.r == o.r && s.sf == b)
    && off == (b - s.localSf) % HALF_WORD
    && (s.hdrRValid ==> s.hdrR == o.r)
    && SlowRight(s.slow, s.slowMask, o, b)
    && Unanimous(s.voteOne, s.voteN, o.r)
    && SameOffset(s.offHist, s.offN, off)
  }

  /** fc can be the index of the next frame: one more, or, where a superframe starts, 0. */
  ghost predicate NextIndex(lastFc: nat, fc: nat) {
    fc < HALF_WORD && (fc == lastFc + 1 || (fc == 0 && (lastFc + 1) % SF_FRAMES == 0))
  }

  /** The superframe of the last data sync, after a frame of index fc. */
  function NextBase(b: nat, lastFc: nat, fc: nat): nat {
    if fc == 0 then b + lastFc / SF_FRAMES + 1 else b
  }

  /** The transmitter's count and the receiver's go on together. */
  lemma NextFrame(b: nat, lastFc: nat, fc: nat)
    requires NextIndex(lastFc, fc)
    ensures SF_FRAMES * NextBase(b, lastFc, fc) + fc == SF_FRAMES * b + lastFc + 1
  {
  }

  lemma OffsetKept(b: nat, local: nat, elapsed: nat)
    ensures (b + elapsed - (local + elapsed) % WORD) % HALF_WORD == (b - local) % HALF_WORD
  {
    var q := (local + elapsed) / WORD;
    assert (local + elapsed) % WORD == local + elapsed - q * WORD;
    ModShift(b - local, q * HALF_WORD);
    assert q * WORD == q * HALF_WORD * HALF_WORD;
  }

  lemma ModShift(x: int, q: int)
    ensures (x + q * HALF_WORD) % HALF_WORD == x % HALF_WORD
  {
  }

  // ---- a frame is counted

  lemma CountedInStep(s: RxState, o: Over, b: nat, off: nat, fc: nat)
    requires KeysFor(o.keys, o.r) && |o.h| == HEADER_BYTES && InStep(s, o, b, off) && NextIndex(s.lastFc, fc)
    requires SF_FRAMES * b + s.lastFc + 1 < SF_FRAMES * SF_COUNT
    ensures InStep(Counted(s, fc), o, NextBase(b, s.lastFc, fc), off)
    ensures Counted(s, fc).lastFc == fc
  {
    hide KeysFor, VoteShape, SlowShape, SlowRight, Unanimous, SameOffset, NewSuperframe, NextIndex;
    FrameIndexBound(s.lastFc, fc);
    CountedSound(s, fc);
    NextFrame(b, s.lastFc, fc);
    if fc == 0 {
      OffsetKept(b, s.localSf, s.lastFc / SF_FRAMES + 1);
      Superframes(b, s.lastFc);
      SuperframeKeeps(s, o, b + s.lastFc / SF_FRAMES + 1, off);
    }
  }

  lemma FrameIndexBound(lastFc: nat, fc: nat)
    requires NextIndex(lastFc, fc)
    ensures fc < HALF_WORD && (fc != 0 ==> fc == lastFc + 1)
  {
  }

  lemma SuperframeKeeps(s: RxState, o: Over, b: nat, off: nat)
    requires KeysFor(o.keys, o.r) && |o.h| == HEADER_BYTES && Shaped(s)
    requires Unanimous(s.voteOne, s.voteN, o.r) && SameOffset(s.offHist, s.offN, off)
    ensures var t := NewSuperframe(s);
      && (t.synced ==> s.synced && t.r == s.r && t.sf == (s.sf + s.lastFc / SF_FRAMES + 1) % WORD)
      && t.localSf == (s.localSf + (s.lastFc / SF_FRAMES + 1)) % WORD && t.frames == s.frames
      && t.hdrRValid == s.hdrRValid && t.hdrR == s.hdrR
      && |t.slow| == |t.slowMask| == 4 && SlowRight(t.slow, t.slowMask, o, b)
      && Unanimous(t.voteOne, t.voteN, o.r) && SameOffset(t.offHist, t.offN, off)
  {
    hide KeysFor, VoteShape, SlowSent, Unanimous, SameOffset, NoBallots;
    ForgottenVotes(o.r, off, s.offHist);
  }

  lemma Superframes(b: nat, lastFc: nat)
    requires SF_FRAMES * b + lastFc + 1 < SF_FRAMES * SF_COUNT
    ensures b + lastFc / SF_FRAMES + 1 < WORD
  {
  }

  // ---- its slow data is kept

  lemma GatheredInStep(s: RxState, o: Over, b: nat, off: nat, j: nat)
    requires KeysFor(o.keys, o.r) && |o.h| == HEADER_BYTES && InStep(s, o, b, off)
    requires j < SF_FRAMES && j == s.lastFc % SF_FRAMES
    ensures var t := Gathered(s, SlowSent(o, b + s.lastFc / SF_FRAMES, j), s.lastFc, o.keys);
      InStep(t, o, b, off) && t.lastFc == s.lastFc && (s.synced ==> t.synced)
  {
    hide KeysFor, VoteShape, SlowSent, SlowRight, Tried, XorBytes, Unanimous, SameOffset;
    var fc := s.lastFc;
    var sent := SlowSent(o, b + fc / SF_FRAMES, j);
    GatheredSound(s, sent, fc, o.keys);
    if SYNC_FIRST_SLOT <= fc <= SYNC_LAST_SLOT {
      var k := fc - SYNC_FIRST_SLOT;
      var t := s.(slow := s.slow[k := XorBytes(sent, SLOW_SCRAMBLE)], slowMask := s.slowMask[k := true]);
      assert fc / SF_FRAMES == 0 && j == SYNC_FIRST_SLOT + k;
      SlowKept(s.slow, s.slowMask, o, b, k);
      if fc == SYNC_LAST_SLOT && t.slowMask == [true, true, true, true] {
        TriedInStep(t, o, b, off);
      }
    }
  }

  lemma SlowKept(slow: seq<seq<Byte>>, mask: seq<bool>, o: Over, b: nat, k: nat)
    requires KeysFor(o.keys, o.r) && |o.h| == HEADER_BYTES && |slow| == |mask| == 4 && k < 4 && SlowRight(slow, mask, o, b)
    ensures SlowRight(slow[k := XorBytes(SlowSent(o, b, SYNC_FIRST_SLOT + k), SLOW_SCRAMBLE)], mask[k := true], o, b)
  {
    hide KeysFor, SlowSent, XorBytes;
  }

  // ---- the sync block is seen

  lemma TriedInStep(s: RxState, o: Over, b: nat, off: nat)
    requires KeysFor(o.keys, o.r) && |o.h| == HEADER_BYTES && InStep(s, o, b, off)
    requires s.slowMask == [true, true, true, true] && s.lastFc == SYNC_LAST_SLOT
    ensures var t := Tried(s, o.keys);
      && InStep(t, o, b, off) && t.lastFc == s.lastFc && (s.synced ==> t.synced) && t.slowMask == s.slowMask
      && t.miss == (if FillerBits(BlockOf(o, b)) <= FILLER_MAX_BITS then s.miss else 0)
  {
    hide KeysFor, VoteShape, SlowSent, SlowRight, Seen, FillerBits, SyncCheckOf, Unanimous, SameOffset, SyncOf, BlockOf,
         NonceOf, CounterOf;
    TriedSound(s, o.keys);
    SyncRead(s.slow, o, b);
    NoBitsOff(SLOW_TYPE);
    var sync := BlockOf(o, b);
    BlockFields(o, b);
    if FillerBits(sync) > FILLER_MAX_BITS {
      var t := s.(encSeen := true, clearKnown := false, miss := 0);
      SeenInStep(t, o, b, off);
    }
  }

  lemma NoBitsOff(x: Byte)
    ensures BitsOff(x, x) == 0
  {
    WeightInSet(Xor(x, x), {});
  }

  lemma BlockFields(o: Over, b: nat)
    requires KeysFor(o.keys, o.r) && b < SF_COUNT
    ensures var sync := BlockOf(o, b);
      NonceOf(sync) == o.r && CounterOf(sync) == b && SyncCheckOf(o.keys, o.r, b) == Some(sync[8])
  {
    hide SyncBlock, NonceOf, CounterOf, SyncCheckOf;
    HasCheck(o.keys, o.r, b);
    SyncBlockFields(o.r, b, SyncCheckOf(o.keys, o.r, b).value);
  }

  lemma SeenInStep(s: RxState, o: Over, b: nat, off: nat)
    requires KeysFor(o.keys, o.r) && |o.h| == HEADER_BYTES && InStep(s, o, b, off)
    requires b < SF_COUNT && s.encSeen && s.miss == 0 && !s.clearKnown
    ensures CounterOf(BlockOf(o, b)) < HALF_WORD
    ensures var t := Seen(s, BlockOf(o, b), BlockOf(o, b)[8], o.keys);
      InStep(t, o, b, off) && t.lastFc == s.lastFc && (s.synced ==> t.synced) && t.slowMask == s.slowMask && t.miss == 0
  {
    hide KeysFor, VoteShape, SlowSent, SlowRight, SyncCheckOf, SlowShape, BlockOf, NonceOf, CounterOf, Judged, Voted, Fast,
         Unanimous, SameOffset, NoBallots, BitsOff;
    var sync := BlockOf(o, b);
    BlockFields(o, b);
    SeenSound(s, sync, sync[8], o.keys);
    var fast := Fast(s, sync, true);
    var u := s.(lastExact := true, lastR := o.r, lastSf := b, lastLocal := s.localSf);
    ForgottenVotes(o.r, off, s.offHist);
    if u.synced {
      JudgedInStep(u, o, b, fast);
    } else if !u.hdrBad && !u.hdrRValid && !fast {
      VotedInStep(u, o, b, off);
    }
  }

  lemma ForgottenVotes(r: Nonce, off: nat, hist: seq<nat>)
    requires |hist| == OFF_HIST
    ensures Unanimous(NoBallots(), 0, r) && SameOffset(hist, 0, off)
  {
  }

  /** A block that agrees with the lock leaves it as it is. */
  lemma JudgedInStep(s: RxState, o: Over, b: nat, fast: bool)
    requires KeysFor(o.keys, o.r) && b < SF_COUNT
    requires Shaped(s) && s.synced && s.r == o.r && s.sf == b && 0 <= s.cusum < CUSUM_UNLOCK
    ensures var t := Judged(s, BlockOf(o, b), fast, o.keys);
      t == s.(distHist := t.distHist, distN := t.distN, cusum := t.cusum)
  {
    hide KeysFor, VoteShape, SlowShape, SyncCheckOf, BlockOf, NonceOf, CounterOf, BitsOff;
    var sync := BlockOf(o, b);
    BlockFields(o, b);
    NoBitsOff(sync[8]);
  }

  // ---- the votes

  lemma BallotUnanimous(v: seq<nat>, n: nat, r: Nonce)
    requires VoteShape(v, n) && Unanimous(v, n, r)
    ensures var (w, m) := Aged(v, n); Unanimous(WithBallot(w, r), m + 1, r) && Elected(WithBallot(w, r), m + 1, r) == r
  {
    var (w, m) := Aged(v, n);
    assert Unanimous(w, m, r);
    var x := WithBallot(w, r);
    assert Unanimous(x, m + 1, r);
    assert Elected(x, m + 1, r) == r;
  }

  lemma OffsetUnanimous(hist: seq<nat>, n: nat, off: nat)
    requires SameOffset(hist, n, off) && n <= BYTE_MAX
    ensures SameOffset(hist[n % OFF_HIST := off], (n + 1) % (BYTE_MAX + 1), off)
    ensures var h := Offsets(hist, n, off); Choice(h, off, |h|).0 == off
  {
    hide Choice;
    var h := Offsets(hist, n, off);
    assert forall i :: 0 <= i < |h| ==> h[i] == off;
    ChoiceOfOne(h, off, |h|);
  }

  /** The votes on genuine blocks are unanimous, and a lock they give is right. */
  lemma VotedInStep(s: RxState, o: Over, b: nat, off: nat)
    requires KeysFor(o.keys, o.r) && Shaped(s) && b < SF_COUNT && off == (b - s.localSf) % HALF_WORD
    requires Unanimous(s.voteOne, s.voteN, o.r) && SameOffset(s.offHist, s.offN, off)
    ensures var t := Voted(s, BlockOf(o, b), o.keys);
      && (!s.synced && t.synced ==> t.r == o.r && t.sf == b)
      && Unanimous(t.voteOne, t.voteN, o.r) && SameOffset(t.offHist, t.offN, off)
      && t.localSf == s.localSf && t.slow == s.slow && t.slowMask == s.slowMask && t.lastFc == s.lastFc
      && t.frames == s.frames && t.hdrRValid == s.hdrRValid && t.hdrR == s.hdrR && t.miss == s.miss
  {
    hide KeysFor, VoteShape, SlowShape, SlowRight, BlockOf, NonceOf, Unanimous, SameOffset, Score, Elected, WithBlock,
         BlockOffset, VotedOffset, SaysBad, SaysLock, Settled;
    BlockFields(o, b);
    var sync := BlockOf(o, b);
    BlockJoined(s, sync, o.r, b, off);
    var w := WithBlock(s, sync);
    var n := Min(w.blkN, DIST_HIST);
    var score := Score(o.keys, o.r, off, w.blkLocal, w.blkChk, n);
    SettledKeeps(w, o.r, b, SaysLock(n, score), SaysBad(n, score));
  }

  lemma SettledKeeps(w: RxState, r: Nonce, sf: nat, lock: bool, bad: bool)
    ensures var t := Settled(w, r, sf, lock, bad);
      && t.voteOne == w.voteOne && t.voteN == w.voteN && t.offHist == w.offHist && t.offN == w.offN
      && t.localSf == w.localSf && t.slow == w.slow && t.slowMask == w.slowMask && t.lastFc == w.lastFc
      && t.frames == w.frames && t.hdrRValid == w.hdrRValid && t.hdrR == w.hdrR && t.miss == w.miss
      && (t.synced && !w.synced ==> t.r == r && t.sf == sf)
  {
  }

  /** A block of the nonce and the counter the others had joins the votes. */
  lemma BlockJoined(s: RxState, sync: seq<Byte>, r: Nonce, b: nat, off: nat)
    requires Shaped(s) && |sync| == SYNC_BYTES && NonceOf(sync) == r && CounterOf(sync) == b < HALF_WORD
    requires off == (b - s.localSf) % HALF_WORD
    requires Unanimous(s.voteOne, s.voteN, r) && SameOffset(s.offHist, s.offN, off)
    ensures var t := WithBlock(s, sync);
      && t.localSf == s.localSf && t.slow == s.slow && t.slowMask == s.slowMask && t.lastFc == s.lastFc
      && t.frames == s.frames && t.hdrRValid == s.hdrRValid && t.hdrR == s.hdrR && t.miss == s.miss && t.synced == s.synced
      && Unanimous(t.voteOne, t.voteN, r) && SameOffset(t.offHist, t.offN, off)
      && |t.voteOne| == NONCE_BITS && |t.blkLocal| == |t.blkChk| == DIST_HIST
      && Elected(t.voteOne, t.voteN, r) == r
    ensures VotedOffset(s, BlockOffset(s, sync)) == off && (s.localSf + off) % HALF_WORD == b
  {
    hide VoteShape, SlowShape, NonceOf, CounterOf, Unanimous, SameOffset, Elected, Aged, WithBallot, Choice, Offsets;
    BallotUnanimous(s.voteOne, s.voteN, r);
    OwnOffset(b, s.localSf);
    OffsetUnanimous(s.offHist, s.offN, off);
    assert BlockOffset(s, sync) == off;
    assert |WithBlock(s, sync).voteOne| == NONCE_BITS;
  }

  lemma OwnOffset(b: nat, local: nat)
    requires b < HALF_WORD
    ensures (b - local % HALF_WORD) % HALF_WORD == (b - local) % HALF_WORD
    ensures (local + (b - local) % HALF_WORD) % HALF_WORD == b
  {
    var q := local / HALF_WORD;
    assert local % HALF_WORD == local - q * HALF_WORD;
    ModShift(b - local, q);
    var x := b - local;
    var p := x / HALF_WORD;
    assert x % HALF_WORD == x - p * HALF_WORD;
    ModShift(b, -p);
  }

  // ---- one frame

  /** Frame n of the over as it goes out. */
  ghost function SentFrame(o: Over, n: nat, d: seq<bool>, c: Codec): (f: seq<Byte>)
    requires KeysFor(o.keys, o.r) && |o.h| == HEADER_BYTES && |d| == AMBE_BITS && Faithful(c)
    ensures |f| == FRAME_BYTES
  {
    c.encode(Masked(d, o.keys(Voice, o.r, n).value)) + SlowSent(o, n / SF_FRAMES, n % SF_FRAMES)
  }

  /** A frame of the over leaves the receiver in step, and what it decrypts is the voice. */
  lemma FrameInStep(s: RxState, o: Over, b: nat, off: nat, fc: nat, d: seq<bool>, haveKey: bool, c: Codec)
    requires KeysFor(o.keys, o.r) && |o.h| == HEADER_BYTES && Sound(s) && fc < HALF_WORD
    requires InStep(Counted(s, fc), o, b, off) && |d| == AMBE_BITS && Faithful(c)
    ensures var f := SentFrame(o, SF_FRAMES * b + fc, d, c);
      var (t, e, play) := Received(s, f, fc, o.keys, haveKey, c);
      && InStep(t, o, b, off) && t.lastFc == fc && (t.synced ==> play && SameVoice(e, d))
      && t.synced == Ready(s, f, fc, o.keys).synced
  {
    hide KeysFor, VoteShape, SlowShape, SlowSent, Gathered, Counted, Masked, Faithful, SlowRight, Unanimous, SameOffset,
         SameVoice, BadBlocks, Unsynced;
    var n := SF_FRAMES * b + fc;
    var f := SentFrame(o, n, d, c);
    var u := Counted(s, fc);
    CountedIndex(s, fc);
    FrameSplit(b, fc);
    FrameParts(o, n, d, c);
    GatheredInStep(u, o, b, off, n % SF_FRAMES);
    var g := Gathered(u, f[AMBE_BYTES..], fc, o.keys);
    HasBlock(o.keys, o.r, n);
    MaskTwice(d, o.keys(Voice, o.r, n).value, c);
    OpenedInStep(g, o, b, off, c.decode(f[..AMBE_BYTES]), haveKey);
  }

  lemma CountedIndex(s: RxState, fc: nat)
    ensures Counted(s, fc).lastFc == fc
  {
  }

  lemma FrameSplit(b: nat, fc: nat)
    ensures (SF_FRAMES * b + fc) % SF_FRAMES == fc % SF_FRAMES && (SF_FRAMES * b + fc) / SF_FRAMES == b + fc / SF_FRAMES
  {
  }

  lemma FrameParts(o: Over, n: nat, d: seq<bool>, c: Codec)
    requires KeysFor(o.keys, o.r) && |o.h| == HEADER_BYTES && |d| == AMBE_BITS && Faithful(c)
    ensures var f := SentFrame(o, n, d, c); var m := Masked(d, o.keys(Voice, o.r, n).value);
      f[..AMBE_BYTES] == c.encode(m) && f[AMBE_BYTES..] == SlowSent(o, n / SF_FRAMES, n % SF_FRAMES)
      && |c.decode(f[..AMBE_BYTES])| == AMBE_BITS
  {
    hide SlowSent, Masked;
  }

  lemma OpenedInStep(s: RxState, o: Over, b: nat, off: nat, e: seq<bool>, haveKey: bool)
    requires KeysFor(o.keys, o.r) && |o.h| == HEADER_BYTES && InStep(s, o, b, off) && |e| == AMBE_BITS
    ensures var (t, d, play) := Opened(s, e, s.lastFc, o.keys, haveKey);
      && InStep(t, o, b, off) && t.lastFc == s.lastFc && t.synced == s.synced && t.miss == s.miss && t.slowMask == s.slowMask
      && (t.synced ==> play && o.keys(Voice, o.r, SF_FRAMES * b + s.lastFc).Some?
                       && d == Masked(e, o.keys(Voice, o.r, SF_FRAMES * b + s.lastFc).value))
  {
    hide KeysFor, VoteShape, SlowShape, Masked, SlowRight, Unanimous, SameOffset, BadBlocks;
    HasBlock(o.keys, o.r, SF_FRAMES * b + s.lastFc);
    OpenedSound(s, e, s.lastFc, o.keys, haveKey);
  }

  // ---- headers and the first frame

  /** The header, repeated in slow data, leaves the receiver in step. */
  lemma HeaderInStep(s: RxState, o: Over, b: nat, off: nat)
    requires Good(o) && InStep(s, o, b, off)
    ensures InStep(AfterHeader(s, o.h, o.keys), o, b, off)
    ensures s.synced ==> AfterHeader(s, o.h, o.keys).synced
  {
    hide KeysFor, VoteShape, SlowShape, SlowRight, Unanimous, SameOffset, Verified, SaysEncrypted, HeaderNonce, KeyMatches,
         HeaderCheckOf;
    HeaderSound(s, o.h, o.keys);
  }

  /** A receiver that has heard nothing but the header has the keystream from the first frame. */
  lemma FromTheHeader(o: Over)
    requires Good(o)
    ensures var s := AfterHeader(Start(), o.h, o.keys);
      Sound(s) && InStep(Counted(s, 0), o, 0, HALF_WORD - 1) && Counted(s, 0).synced && Counted(s, 0).miss == 1
  {
    hide KeysFor, VoteShape, NoBallots, Verified, SaysEncrypted, HeaderNonce, KeyMatches, HeaderCheckOf, Unanimous, SameOffset;
    StartSound();
    HeaderSound(Start(), o.h, o.keys);
    CountedSound(AfterHeader(Start(), o.h, o.keys), 0);
    ForgottenVotes(o.r, HALF_WORD - 1, Start().offHist);
  }

  /** A receiver that joins at superframe b, without the header, is in step, though without the
      keystream. */
  lemma JoinedLate(o: Over, b: nat)
    requires KeysFor(o.keys, o.r) && |o.h| == HEADER_BYTES && b < SF_COUNT
    ensures InStep(Counted(Start(), 0), o, b, (b - 1) % HALF_WORD) && !Counted(Start(), 0).synced
  {
    hide KeysFor, VoteShape, NoBallots, Unanimous, SameOffset;
    StartSound();
    CountedSound(Start(), 0);
    ForgottenVotes(o.r, (b - 1) % HALF_WORD, Start().offHist);
  }

  // ---- staying in step

  /** The sync block of superframe b passes for a clear over's filler. */
  ghost predicate LikeFiller(o: Over, b: nat)
    requires KeysFor(o.keys, o.r)
  {
    FillerBits(BlockOf(o, b)) <= FILLER_MAX_BITS
  }

  /** The count of data syncs seen since a block that is not like filler, after frame n of index fc. */
  ghost function AfterBlock(o: Over, n: nat, fc: nat, m: nat): nat
    requires KeysFor(o.keys, o.r)
  {
    if fc == SYNC_LAST_SLOT && !LikeFiller(o, n / SF_FRAMES) then 0 else m
  }

  /** That count when a frame of index fc begins. */
  function AtFrame(m: nat, fc: nat): nat {
    if fc == 0 then m + 1 else m
  }

  /** The receiver has the keystream, and every frame since the last data sync it saw; n of them
      have had their slow data looked at, and m data syncs came since the last block it counted. */
  ghost predicate Tight(s: RxState, n: nat, m: nat) {
    && s.synced && |s.slowMask| == 4 && s.miss == m
    && forall j :: 0 <= j < 4 && SYNC_FIRST_SLOT + j < n ==> s.slowMask[j]
  }

  /** The receiver has just taken the over for one it no longer hears. */
  ghost predicate Dropped(s: RxState) {
    !s.synced && !s.clearKnown && s.lastFc == 0
  }

  /** Exactly the ninth data sync without a block counted ends it. */
  lemma TightCounted(s: RxState, fc: nat, m: nat)
    requires Sound(s) && Tight(s, s.lastFc + 1, m) && NextIndex(s.lastFc, fc)
    ensures AtFrame(m, fc) <= MAX_MISS ==> Tight(Counted(s, fc), fc, AtFrame(m, fc))
    ensures AtFrame(m, fc) > MAX_MISS ==> Dropped(Counted(s, fc))
  {
    hide VoteShape, SlowShape, NoBallots;
  }

  lemma TightGathered(s: RxState, o: Over, b: nat, off: nat, m: nat)
    requires KeysFor(o.keys, o.r) && |o.h| == HEADER_BYTES && InStep(s, o, b, off) && Tight(s, s.lastFc, m)
    ensures var t := Gathered(s, SlowSent(o, b + s.lastFc / SF_FRAMES, s.lastFc % SF_FRAMES), s.lastFc, o.keys);
      Tight(t, s.lastFc + 1, AfterBlock(o, SF_FRAMES * b + s.lastFc, s.lastFc, m))
  {
    hide KeysFor, VoteShape, SlowSent, SlowRight, Tried, XorBytes, Unanimous, SameOffset, FillerBits, BlockOf;
    var fc := s.lastFc;
    var sent := SlowSent(o, b + fc / SF_FRAMES, fc % SF_FRAMES);
    FrameSplit(b, fc);
    if SYNC_FIRST_SLOT <= fc <= SYNC_LAST_SLOT {
      var k := fc - SYNC_FIRST_SLOT;
      var t := s.(slow := s.slow[k := XorBytes(sent, SLOW_SCRAMBLE)], slowMask := s.slowMask[k := true]);
      assert fc / SF_FRAMES == 0 && fc % SF_FRAMES == SYNC_FIRST_SLOT + k;
      SlowKept(s.slow, s.slowMask, o, b, k);
      if fc == SYNC_LAST_SLOT {
        assert t.slowMask == [true, true, true, true];
        TriedInStep(t, o, b, off);
      }
    }
  }

  lemma TightOpened(s: RxState, o: Over, b: nat, off: nat, e: seq<bool>, haveKey: bool, m: nat)
    requires KeysFor(o.keys, o.r) && |o.h| == HEADER_BYTES && InStep(s, o, b, off) && |e| == AMBE_BITS
    requires Tight(s, s.lastFc + 1, m)
    ensures Tight(Opened(s, e, s.lastFc, o.keys, haveKey).0, s.lastFc + 1, m)
  {
    hide KeysFor, InStep, Opened;
    OpenedInStep(s, o, b, off, e, haveKey);
  }

  /** A frame leaves the keystream with a receiver that has it. */
  lemma FrameTight(s: RxState, o: Over, b: nat, off: nat, fc: nat, d: seq<bool>, haveKey: bool, c: Codec, m: nat)
    requires KeysFor(o.keys, o.r) && |o.h| == HEADER_BYTES && Sound(s) && fc < HALF_WORD
    requires InStep(Counted(s, fc), o, b, off) && |d| == AMBE_BITS && Faithful(c) && Tight(Counted(s, fc), fc, m)
    ensures var n := SF_FRAMES * b + fc;
      Tight(Received(s, SentFrame(o, n, d, c), fc, o.keys, haveKey, c).0, fc + 1, AfterBlock(o, n, fc, m))
  {
    hide KeysFor, InStep, SlowSent, Gathered, Counted, Masked, Faithful, Tight, Opened, LikeFiller;
    var n := SF_FRAMES * b + fc;
    var f := SentFrame(o, n, d, c);
    var u := Counted(s, fc);
    CountedIndex(s, fc);
    FrameSplit(b, fc);
    FrameParts(o, n, d, c);
    CountedSound(s, fc);
    GatheredInStep(u, o, b, off, n % SF_FRAMES);
    TightGathered(u, o, b, off, m);
    var g := Gathered(u, f[AMBE_BYTES..], fc, o.keys);
    TightOpened(g, o, b, off, c.decode(f[..AMBE_BYTES]), haveKey, AfterBlock(o, n, fc, m));
  }

  // ---- joining late

  /** The receiver has what it heard of slots 17 to 20 since the last data sync it saw, n frames of the
      superframe heard. */
  ghost predicate HasSlots(s: RxState, n: nat) {
    |s.slowMask| == 4 && forall j :: 0 <= j < 4 && SYNC_FIRST_SLOT + j < n ==> s.slowMask[j]
  }

  /** It has no keystream yet, but a sync block of the over. */
  ghost predicate Primed(s: RxState, o: Over, off: nat) {
    !s.synced && s.lastExact && s.lastR == o.r && (s.lastSf - s.lastLocal) % HALF_WORD == off
  }

  /** What a sync block, if one counted, makes of a receiver whose key was not found wrong. */
  ghost predicate Learnt(s: RxState, t: RxState, o: Over, off: nat, counted: bool) {
    && t.hdrBad == s.hdrBad
    && (Primed(s, o, off) || counted ==> t.synced || Primed(t, o, off))
    && (Primed(s, o, off) && counted ==> t.synced)
  }

  lemma ModSwap(a: int, b: int, c: int, d: int)
    requires (a - b) % HALF_WORD == (c - d) % HALF_WORD
    ensures (a - c) % HALF_WORD == (b - d) % HALF_WORD
  {
    var q := (a - b) / HALF_WORD - (c - d) / HALF_WORD;
    assert a - c == b - d + q * HALF_WORD;
    ModShift(b - d, q);
  }

  lemma VotedLearns(s: RxState, sync: seq<Byte>, keys: KeyStore)
    requires Shaped(s) && |sync| == SYNC_BYTES
    ensures var t := Voted(s, sync, keys);
      && t.hdrBad == s.hdrBad && t.lastExact == s.lastExact && t.lastR == s.lastR && t.lastSf == s.lastSf
      && t.lastLocal == s.lastLocal
  {
    hide Aged, WithBallot, NonceOf, BlockOffset, Elected, VotedOffset, Score, SaysLock, SaysBad, VoteShape, SlowShape;
  }

  lemma SeenLearns(s: RxState, o: Over, b: nat, off: nat)
    requires KeysFor(o.keys, o.r) && |o.h| == HEADER_BYTES && InStep(s, o, b, off)
    requires b < SF_COUNT && s.encSeen && s.miss == 0 && !s.clearKnown && !s.hdrBad
    ensures CounterOf(BlockOf(o, b)) < HALF_WORD
    ensures Learnt(s, Seen(s, BlockOf(o, b), BlockOf(o, b)[8], o.keys), o, off, true)
  {
    hide KeysFor, VoteShape, SlowSent, SlowRight, SyncCheckOf, SlowShape, BlockOf, NonceOf, CounterOf, Judged, Voted,
         Unanimous, SameOffset, NoBallots, BitsOff;
    var sync := BlockOf(o, b);
    BlockFields(o, b);
    SeenInStep(s, o, b, off);
    var u := s.(lastExact := true, lastR := o.r, lastSf := b, lastLocal := s.localSf);
    if Primed(s, o, off) {
      ModSwap(b, s.localSf, s.lastSf, s.lastLocal);
    }
    if s.synced {
      JudgedRecord(u, sync, Fast(s, sync, true), o.keys);
    } else {
      VotedLearns(u, sync, o.keys);
    }
  }

  lemma TriedLearns(s: RxState, o: Over, b: nat, off: nat)
    requires KeysFor(o.keys, o.r) && |o.h| == HEADER_BYTES && InStep(s, o, b, off) && !s.hdrBad
    requires s.slowMask == [true, true, true, true] && s.lastFc == SYNC_LAST_SLOT
    ensures Learnt(s, Tried(s, o.keys), o, off, !LikeFiller(o, b)) && Tried(s, o.keys).slowMask == s.slowMask
  {
    hide KeysFor, VoteShape, SlowSent, SlowRight, Seen, FillerBits, SyncCheckOf, Unanimous, SameOffset, SyncOf, BlockOf,
         NonceOf, CounterOf;
    TriedInStep(s, o, b, off);
    SyncRead(s.slow, o, b);
    NoBitsOff(SLOW_TYPE);
    BlockFields(o, b);
    if !LikeFiller(o, b) {
      var t := s.(encSeen := true, clearKnown := false, miss := 0);
      TriedStart(s, o, b, off);
      SeenLearns(t, o, b, off);
    }
  }

  lemma TriedStart(s: RxState, o: Over, b: nat, off: nat)
    requires KeysFor(o.keys, o.r) && |o.h| == HEADER_BYTES && InStep(s, o, b, off)
    ensures InStep(s.(encSeen := true, clearKnown := false, miss := 0), o, b, off) && b < SF_COUNT
  {
    hide KeysFor, VoteShape, SlowShape, SlowRight, Unanimous, SameOffset;
  }

  lemma GatheredLearns(s: RxState, o: Over, b: nat, off: nat)
    requires KeysFor(o.keys, o.r) && |o.h| == HEADER_BYTES && InStep(s, o, b, off) && HasSlots(s, s.lastFc) && !s.hdrBad
    ensures var t := Gathered(s, SlowSent(o, b + s.lastFc / SF_FRAMES, s.lastFc % SF_FRAMES), s.lastFc, o.keys);
      HasSlots(t, s.lastFc + 1) && Learnt(s, t, o, off, s.lastFc == SYNC_LAST_SLOT && !LikeFiller(o, b))
  {
    hide KeysFor, VoteShape, SlowSent, SlowRight, Tried, XorBytes, Unanimous, SameOffset, LikeFiller;
    var fc := s.lastFc;
    var sent := SlowSent(o, b + fc / SF_FRAMES, fc % SF_FRAMES);
    FrameSplit(b, fc);
    if SYNC_FIRST_SLOT <= fc <= SYNC_LAST_SLOT {
      var k := fc - SYNC_FIRST_SLOT;
      var t := s.(slow := s.slow[k := XorBytes(sent, SLOW_SCRAMBLE)], slowMask := s.slowMask[k := true]);
      assert fc / SF_FRAMES == 0 && fc % SF_FRAMES == SYNC_FIRST_SLOT + k;
      SlowKept(s.slow, s.slowMask, o, b, k);
      if fc == SYNC_LAST_SLOT {
        assert t.slowMask == [true, true, true, true];
        TriedLearns(t, o, b, off);
      }
    }
  }

  lemma CountedLearns(s: RxState, o: Over, off: nat, fc: nat)
    requires Sound(s) && HasSlots(s, s.lastFc + 1) && NextIndex(s.lastFc, fc)
    ensures HasSlots(Counted(s, fc), fc) && Counted(s, fc).hdrBad == s.hdrBad
    ensures Primed(s, o, off) ==> Primed(Counted(s, fc), o, off)
  {
    hide VoteShape, SlowShape, NoBallots;
  }

  lemma OpenedLearns(s: RxState, o: Over, b: nat, off: nat, e: seq<bool>, haveKey: bool)
    requires KeysFor(o.keys, o.r) && |o.h| == HEADER_BYTES && InStep(s, o, b, off) && |e| == AMBE_BITS
    ensures var t := Opened(s, e, s.lastFc, o.keys, haveKey).0;
      t.slowMask == s.slowMask && t.hdrBad == s.hdrBad && t.synced == s.synced && (Primed(s, o, off) ==> Primed(t, o, off))
  {
    hide KeysFor, VoteShape, SlowShape, SlowRight, Unanimous, SameOffset, Masked, BadBlocks;
    HasBlock(o.keys, o.r, (SF_FRAMES * s.sf + s.lastFc) % WORD);
  }

  /** A frame: the sync block it ends is learnt. */
  lemma FrameLearns(s: RxState, o: Over, b: nat, off: nat, fc: nat, d: seq<bool>, haveKey: bool, c: Codec)
    requires KeysFor(o.keys, o.r) && |o.h| == HEADER_BYTES && Sound(s) && fc < HALF_WORD
    requires InStep(Counted(s, fc), o, b, off) && |d| == AMBE_BITS && Faithful(c)
    requires HasSlots(Counted(s, fc), fc) && !Counted(s, fc).hdrBad
    ensures var t := Received(s, SentFrame(o, SF_FRAMES * b + fc, d, c), fc, o.keys, haveKey, c).0;
      HasSlots(t, fc + 1) && Learnt(Counted(s, fc), t, o, off, fc == SYNC_LAST_SLOT && !LikeFiller(o, b))
  {
    hide KeysFor, InStep, SlowSent, Gathered, Counted, Masked, Faithful, Opened, LikeFiller, Primed;
    var n := SF_FRAMES * b + fc;
    var f := SentFrame(o, n, d, c);
    var u := Counted(s, fc);
    CountedIndex(s, fc);
    FrameSplit(b, fc);
    FrameParts(o, n, d, c);
    CountedSound(s, fc);
    GatheredInStep(u, o, b, off, n % SF_FRAMES);
    GatheredLearns(u, o, b, off);
    var g := Gathered(u, f[AMBE_BYTES..], fc, o.keys);
    OpenedLearns(g, o, b, off, c.decode(f[..AMBE_BYTES]), haveKey);
  }

  /** A frame at which the over was dropped is not played. */
  lemma DroppedMuted(s: RxState, f: seq<Byte>, fc: nat, keys: KeyStore, haveKey: bool, c: Codec)
    requires Sound(s) && |f| == FRAME_BYTES && fc < HALF_WORD && Faithful(c) && Dropped(Counted(s, fc))
    ensures !Received(s, f, fc, keys, haveKey, c).2
  {
    hide Sound, Counted, Faithful, Evidence, Masked;
    CountedIndex(s, fc);
    CountedSound(s, fc);
    GatheredSound(Counted(s, fc), f[AMBE_BYTES..], fc, keys);
    assert Ready(s, f, fc, keys) == Counted(s, fc);
  }

  // ---- whole overs

  /** The transmitter is about to send frame n of the over. */
  ghost predicate Sending(t: TxState, o: Over, n: nat) {
    && t.encrypt && !t.failClosed && t.header == o.h && t.r == o.r && t.slot < SF_FRAMES
    && FrameIndex(t) == n && t.sf < SF_COUNT && SyncRight(t, o.keys)
  }

  /** What the transmitter puts out is the over's frame. */
  lemma SendsFrame(t: TxState, o: Over, n: nat, d: seq<bool>, f: seq<Byte>, c: Codec)
    requires KeysFor(o.keys, o.r) && |o.h| == HEADER_BYTES && |d| == AMBE_BITS && Faithful(c) && Sending(t, o, n)
    requires |f| == FRAME_BYTES && |t.sync| == SYNC_BYTES && VoiceSent(t, d, f[..AMBE_BYTES], o.keys, c)
    requires f[AMBE_BYTES..] == SlowBytes(t.header, t.sync, t.encrypt, t.slot)
    ensures f == SentFrame(o, n, d, c)
  {
    hide KeysFor, Faithful, SlowBytes, Masked, SyncCheckOf, SyncBlock;
    HasBlock(o.keys, o.r, n);
    FrameSplit(t.sf, t.slot);
    assert f == f[..AMBE_BYTES] + f[AMBE_BYTES..];
  }

  /** The indices a receiver gives the frames of an over it hears from a superframe's start: it sees
      the first data sync, and of the later ones whichever it does. */
  ghost predicate Indices(fcs: seq<nat>) {
    && (forall i :: 0 <= i < |fcs| ==> fcs[i] < HALF_WORD)
    && (|fcs| > 0 ==> fcs[0] == 0)
    && forall i :: 0 < i < |fcs| ==> NextIndex(fcs[i - 1], fcs[i])
  }

  /** The receiver is ready for frame n, of index fc. */
  ghost predicate Expecting(s: RxState, o: Over, n: nat, fc: nat, off: nat)
    requires KeysFor(o.keys, o.r) && |o.h| == HEADER_BYTES
  {
    && Sound(s) && fc < HALF_WORD && fc <= n && (n - fc) % SF_FRAMES == 0
    && InStep(Counted(s, fc), o, (n - fc) / SF_FRAMES, off)
  }

  /** The receiver learns from the frames it hears: its key was not found wrong. */
  ghost predicate Learns(s: RxState, n: nat) {
    HasSlots(s, n) && !s.hdrBad
  }

  /** And goes on learning when the next frame begins. */
  ghost predicate LearnsOn(s: RxState, o: Over, off: nat, next: nat) {
    Learns(Counted(s, next), next) && (Primed(s, o, off) ==> Primed(Counted(s, next), o, off))
  }

  /** Frame n, of index fc, ends a sync block that counts: whole, and not like filler. */
  ghost predicate Counts(o: Over, n: nat, fc: nat)
    requires KeysFor(o.keys, o.r)
  {
    fc == SYNC_LAST_SLOT && !LikeFiller(o, n / SF_FRAMES)
  }

  /** What a frame of the over does to a receiver that has the keystream, and to the frame after it. */
  ghost predicate Carries(s: RxState, o: Over, n: nat, fc: nat, next: nat, m: nat)
    requires KeysFor(o.keys, o.r)
  {
    var k := AtFrame(AfterBlock(o, n, fc, m), next);
    if k <= MAX_MISS then Tight(Counted(s, next), next, k) else Dropped(Counted(s, next))
  }

  /** The receiver takes frame n, and is ready for the next one. */
  method HearFrame(rx: VoiceRx, f: seq<Byte>, fc: nat, ghost o: Over, ghost n: nat, ghost off: nat, ghost d: seq<bool>,
                   keys: KeyStore, haveKey: bool, c: Codec, ghost m: nat) returns (e: seq<bool>, play: bool)
    requires KeysFor(o.keys, o.r) && |o.h| == HEADER_BYTES && |d| == AMBE_BITS && Faithful(c) && keys == o.keys
    requires Expecting(rx.s, o, n, fc, off) && f == SentFrame(o, n, d, c)
    modifies rx
    ensures Sound(rx.s) && rx.s.lastFc == fc
    ensures rx.s.synced ==> play && SameVoice(e, d)
    ensures old(Tight(Counted(rx.s, fc), fc, m)) ==> rx.s.synced
    ensures old(Dropped(Counted(rx.s, fc))) ==> !play
    ensures old(Learns(Counted(rx.s, fc), fc)) ==> Learnt(old(Counted(rx.s, fc)), rx.s, o, off, Counts(o, n, fc))
    ensures forall next :: NextIndex(fc, next) && n + 1 < SF_FRAMES * SF_COUNT ==>
      && Expecting(rx.s, o, n + 1, next, off)
      && (old(Tight(Counted(rx.s, fc), fc, m)) ==> Carries(rx.s, o, n, fc, next, m))
      && (old(Learns(Counted(rx.s, fc), fc)) ==> LearnsOn(rx.s, o, off, next))
  {
    hide KeysFor, Counted, Faithful, SameVoice, SentFrame, Received, Tight, Dropped, AfterBlock, LikeFiller, Primed, HasSlots;
    var b := (n - fc) / SF_FRAMES;
    ghost var tight := Tight(Counted(rx.s, fc), fc, m);
    FrameInStep(rx.s, o, b, off, fc, d, haveKey, c);
    if tight {
      FrameTight(rx.s, o, b, off, fc, d, haveKey, c, m);
    }
    if Dropped(Counted(rx.s, fc)) {
      DroppedMuted(rx.s, f, fc, keys, haveKey, c);
    }
    ghost var learns := Learns(Counted(rx.s, fc), fc);
    if learns {
      FrameSplit(b, fc);
      FrameLearns(rx.s, o, b, off, fc, d, haveKey, c);
    }
    e, play := rx.Frame(f, fc, keys, haveKey, c);
    ghost var t := rx.s;
    if tight {
      TightSynced(t, fc + 1, AfterBlock(o, n, fc, m));
    }
    forall next | NextIndex(fc, next) && n + 1 < SF_FRAMES * SF_COUNT
      ensures Expecting(t, o, n + 1, next, off) && (tight ==> Carries(t, o, n, fc, next, m))
      ensures learns ==> LearnsOn(t, o, off, next)
    {
      hide InStep;
      if learns {
        CountedLearns(t, o, off, next);
      }
      ReadyForNext(t, o, n, b, off, next);
      if tight {
        TightCounted(t, next, AfterBlock(o, n, fc, m));
      }
    }
  }

  lemma TightSynced(s: RxState, n: nat, m: nat)
    requires Tight(s, n, m)
    ensures s.synced
  {
  }

  lemma ReadyForNext(s: RxState, o: Over, n: nat, b: nat, off: nat, next: nat)
    requires KeysFor(o.keys, o.r) && |o.h| == HEADER_BYTES && InStep(s, o, b, off) && NextIndex(s.lastFc, next)
    requires n == SF_FRAMES * b + s.lastFc && n + 1 < SF_FRAMES * SF_COUNT
    ensures Expecting(s, o, n + 1, next, off)
  {
    hide KeysFor, SlowRight, Unanimous, SameOffset, VoteShape, SlowShape, Counted;
    CountedInStep(s, o, b, off, next);
    NextFrame(b, s.lastFc, next);
    var m := NextBase(b, s.lastFc, next);
    hide NextBase, NextIndex, InStep;
    assert n + 1 - next == SF_FRAMES * m;
  }

  /** The transmitter sends frame n. */
  method SendFrame(tx: VoiceTx, ghost o: Over, ghost n: nat, d: seq<bool>, keys: KeyStore, c: Codec) returns (f: seq<Byte>)
    requires KeysFor(o.keys, o.r) && |o.h| == HEADER_BYTES && |d| == AMBE_BITS && Faithful(c) && keys == o.keys
    requires tx.Valid() && Sending(tx.State(), o, n)
    modifies tx
    ensures tx.Valid() && f == SentFrame(o, n, d, c)
    ensures n + 1 < SF_FRAMES * SF_COUNT ==> Sending(tx.State(), o, n + 1)
  {
    hide KeysFor, Faithful, SlowBytes, VoiceSent, SyncCheckOf, SyncBlock, SentFrame, Logged, Below, SyncRight, BlockUsed;
    ghost var t := tx.State();
    f := tx.Frame(d, keys, None, c);
    SendsFrame(t, o, n, d, f, c);
    ghost var u := tx.State();
    if n + 1 < SF_FRAMES * SF_COUNT && u.slot > 0 {
      SameSync(t, u, keys);
    }
  }

  lemma SameSync(t: TxState, u: TxState, keys: KeyStore)
    requires SyncRight(t, keys) && t.r == u.r && t.sf == u.sf && t.sync == u.sync
    ensures SyncRight(u, keys)
  {
  }

  /** The data syncs seen, when frame i begins, since the last sync block not like filler: of an over
      heard from superframe b on, frame by frame under the indices fcs, with m when it began. */
  ghost function Misses(o: Over, b: nat, fcs: seq<nat>, m: nat, i: nat): nat
    requires KeysFor(o.keys, o.r) && i < |fcs|
  {
    if i == 0 then m
    else AtFrame(AfterBlock(o, SF_FRAMES * b + i - 1, fcs[i - 1], Misses(o, b, fcs, m, i - 1)), fcs[i])
  }

  /** Up to frame i there never were more than eight. */
  ghost predicate Kept(o: Over, b: nat, fcs: seq<nat>, m: nat, i: nat)
    requires KeysFor(o.keys, o.r) && i < |fcs|
  {
    forall k :: 0 <= k <= i ==> Misses(o, b, fcs, m, k) <= MAX_MISS
  }

  ghost predicate AllPlayed(played: seq<bool>, i: nat)
    requires i < |played|
  {
    forall k :: 0 <= k <= i ==> played[k]
  }

  lemma KeptNext(o: Over, b: nat, fcs: seq<nat>, m: nat, i: nat)
    requires KeysFor(o.keys, o.r) && i < |fcs|
    ensures Kept(o, b, fcs, m, i) <==> (i > 0 ==> Kept(o, b, fcs, m, i - 1)) && Misses(o, b, fcs, m, i) <= MAX_MISS
  {
    hide KeysFor, Misses;
  }

  /** Where the receiver stands when frame i begins: it has the keystream if it could keep it so far,
      and has just lost it if this frame is the first at which it could not. */
  ghost predicate Stands(s: RxState, o: Over, b: nat, fcs: seq<nat>, m: nat, i: nat)
    requires KeysFor(o.keys, o.r) && i < |fcs|
  {
    && (Kept(o, b, fcs, m, i) ==> Tight(Counted(s, fcs[i]), fcs[i], Misses(o, b, fcs, m, i)))
    && (!Kept(o, b, fcs, m, i) && (i > 0 ==> Kept(o, b, fcs, m, i - 1)) ==> Dropped(Counted(s, fcs[i])))
  }

  lemma StandsNext(s: RxState, t: RxState, o: Over, b: nat, fcs: seq<nat>, m: nat, i: nat)
    requires KeysFor(o.keys, o.r) && i + 1 < |fcs| && Stands(s, o, b, fcs, m, i)
    requires Tight(Counted(s, fcs[i]), fcs[i], Misses(o, b, fcs, m, i)) ==>
      Carries(t, o, SF_FRAMES * b + i, fcs[i], fcs[i + 1], Misses(o, b, fcs, m, i))
    ensures Stands(t, o, b, fcs, m, i + 1)
  {
    hide KeysFor, Kept, Tight, Dropped, Counted, AfterBlock;
    KeptNext(o, b, fcs, m, i + 1);
  }

  /** An over, or the rest of it from superframe b on, sent and heard under one key: whichever data
      syncs are missed, every frame decrypted is the voice that was sent, but for the spare bit; and
      a receiver that starts with the keystream plays every frame up to the i-th if and only if it
      never saw nine data syncs without a sync block not like filler. */
  method Talk(tx: VoiceTx, rx: VoiceRx, ghost o: Over, ghost b: nat, ghost off: nat, voice: seq<seq<bool>>, fcs: seq<nat>,
              keys: KeyStore, haveKey: bool, c: Codec, ghost m: nat)
    returns (heard: seq<seq<bool>>, played: seq<bool>, locked: seq<bool>)
    requires KeysFor(o.keys, o.r) && |o.h| == HEADER_BYTES && Faithful(c) && keys == o.keys
    requires |voice| == |fcs| && (forall i :: 0 <= i < |voice| ==> |voice[i]| == AMBE_BITS) && Indices(fcs)
    requires SF_FRAMES * b + |voice| <= SF_FRAMES * SF_COUNT && b < SF_COUNT
    requires tx.Valid() && Sending(tx.State(), o, SF_FRAMES * b) && Expecting(rx.s, o, SF_FRAMES * b, 0, off)
    modifies tx, rx
    ensures |heard| == |played| == |locked| == |voice|
    ensures forall i :: 0 <= i < |voice| && locked[i] ==> played[i] && SameVoice(heard[i], voice[i])
    ensures old(Tight(Counted(rx.s, 0), 0, m)) && m <= MAX_MISS ==> PlaysKept(o, b, fcs, m, voice, heard, played)
    ensures old(Learns(Counted(rx.s, 0), 0)) ==> LockedBySecond(o, b, fcs, locked)
  {
    hide Learns, LearnsOn, Learnt, LearnsNow, LockedBySecond, Counts;
    hide KeysFor, Faithful, SentFrame, SameVoice, Tight, Dropped, Counted, Sending, Expecting, NextIndex, AfterBlock, Misses,
         Kept, Carries, AllPlayed, PlaysKept, Stands;
    heard, played, locked := [], [], [];
    ghost var steady := Tight(Counted(rx.s, 0), 0, m) && m <= MAX_MISS;
    ghost var learns := Learns(Counted(rx.s, 0), 0);
    LearnsFirst(rx.s, o, b, off, fcs);
    PlaysFirst(o, b, fcs, m, voice);
    if |voice| > 0 && steady {
      StandsFirst(rx.s, o, b, fcs, m);
    }
    for i := 0 to |voice|
      invariant |heard| == |played| == |locked| == i
      invariant tx.Valid() && (i < |voice| ==>
        && Sending(tx.State(), o, SF_FRAMES * b + i)
        && Expecting(rx.s, o, SF_FRAMES * b + i, fcs[i], off)
        && (steady ==> Stands(rx.s, o, b, fcs, m, i)))
      invariant forall k :: 0 <= k < i && locked[k] ==> played[k] && SameVoice(heard[k], voice[k])
      invariant learns ==> LockedBySecond(o, b, fcs[..i], locked)
      invariant learns && i < |voice| ==> LearnsNow(rx.s, o, b, off, fcs, locked, i)
      invariant steady ==> PlaysKept(o, b, fcs, m, voice, heard, played)
    {
      ghost var n := SF_FRAMES * b + i;
      var f := SendFrame(tx, o, n, voice[i], keys, c);
      ghost var before, saw, was, s := played, heard, locked, rx.s;
      var e, play := HearFrame(rx, f, fcs[i], o, n, off, voice[i], keys, haveKey, c, Misses(o, b, fcs, m, i));
      heard, played, locked := heard + [e], played + [play], locked + [rx.s.synced];
      if steady {
        PlaysMore(o, b, fcs, m, voice, saw, before, e, play, s);
      }
      if learns {
        assert locked[..i] == was;
        LearnsMore(s, rx.s, o, b, off, fcs, locked, i);
      }
      if steady && i + 1 < |voice| {
        StandsNext(s, rx.s, o, b, fcs, m, i);
      }
    }
    assert fcs[..|voice|] == fcs;
  }

  /** Of any two frames that end sync blocks that count, the receiver has the keystream after the second,
      if it did not before. */
  ghost predicate LockedBySecond(o: Over, b: nat, fcs: seq<nat>, locked: seq<bool>)
    requires KeysFor(o.keys, o.r) && |fcs| == |locked|
  {
    forall i, j :: 0 <= i < j < |fcs| && Counts(o, SF_FRAMES * b + i, fcs[i]) && Counts(o, SF_FRAMES * b + j, fcs[j]) ==>
      exists k :: i <= k <= j && locked[k]
  }

  /** Where a receiver that learns stands when frame i begins. */
  ghost predicate LearnsNow(s: RxState, o: Over, b: nat, off: nat, fcs: seq<nat>, locked: seq<bool>, i: nat)
    requires KeysFor(o.keys, o.r) && i < |fcs| && |locked| == i
  {
    && Learns(Counted(s, fcs[i]), fcs[i])
    && forall j :: 0 <= j < i && Counts(o, SF_FRAMES * b + j, fcs[j]) ==>
         Primed(Counted(s, fcs[i]), o, off) || exists k :: j <= k < i && locked[k]
  }

  lemma LearnsFirst(s: RxState, o: Over, b: nat, off: nat, fcs: seq<nat>)
    requires KeysFor(o.keys, o.r) && Indices(fcs)
    ensures LockedBySecond(o, b, fcs[..0], [])
    ensures |fcs| > 0 && Learns(Counted(s, 0), 0) ==> LearnsNow(s, o, b, off, fcs, [], 0)
  {
  }

  lemma LearnsMore(s: RxState, t: RxState, o: Over, b: nat, off: nat, fcs: seq<nat>, locked: seq<bool>, i: nat)
    requires KeysFor(o.keys, o.r) && i < |fcs| && |locked| == i + 1 && locked[i] == t.synced
    requires LearnsNow(s, o, b, off, fcs, locked[..i], i) && LockedBySecond(o, b, fcs[..i], locked[..i])
    requires Learns(Counted(s, fcs[i]), fcs[i]) ==> Learnt(Counted(s, fcs[i]), t, o, off, Counts(o, SF_FRAMES * b + i, fcs[i]))
    requires Learns(Counted(s, fcs[i]), fcs[i]) && i + 1 < |fcs| ==> LearnsOn(t, o, off, fcs[i + 1])
    ensures LockedBySecond(o, b, fcs[..i + 1], locked)
    ensures i + 1 < |fcs| ==> LearnsNow(t, o, b, off, fcs, locked, i + 1)
  {
    hide KeysFor, Counts, Primed, Counted;
    forall j | 0 <= j < i && Counts(o, SF_FRAMES * b + j, fcs[j])
      ensures Primed(Counted(s, fcs[i]), o, off) || exists k :: j <= k < i && locked[k]
    {
      if k :| j <= k < i && locked[..i][k] {
        assert locked[k];
      }
    }
    var first := fcs[..i + 1];
    forall j, l | 0 <= j < l < |first| && Counts(o, SF_FRAMES * b + j, first[j]) && Counts(o, SF_FRAMES * b + l, first[l])
      ensures exists k :: j <= k <= l && locked[k]
    {
      if l < i {
        assert fcs[..i][j] == fcs[j] && fcs[..i][l] == fcs[l];
        var k :| j <= k <= l && locked[..i][k];
        assert locked[k];
      } else {
        assert Primed(Counted(s, fcs[i]), o, off) ==> locked[i];
      }
    }
  }

  /** The receiver has played every frame up to a k-th one exactly if it could keep the over that far, and
      what it played so is what was sent. */
  ghost predicate PlaysKept(o: Over, b: nat, fcs: seq<nat>, m: nat, voice: seq<seq<bool>>, heard: seq<seq<bool>>,
                            played: seq<bool>)
    requires KeysFor(o.keys, o.r) && |heard| == |played| <= |fcs| == |voice|
  {
    forall k :: 0 <= k < |played| ==>
      && (AllPlayed(played, k) <==> Kept(o, b, fcs, m, k))
      && (Kept(o, b, fcs, m, k) ==> SameVoice(heard[k], voice[k]))
  }

  lemma PlaysFirst(o: Over, b: nat, fcs: seq<nat>, m: nat, voice: seq<seq<bool>>)
    requires KeysFor(o.keys, o.r) && |fcs| == |voice|
    ensures PlaysKept(o, b, fcs, m, voice, [], [])
  {
  }

  lemma PlaysMore(o: Over, b: nat, fcs: seq<nat>, m: nat, voice: seq<seq<bool>>, heard: seq<seq<bool>>, played: seq<bool>,
                  e: seq<bool>, play: bool, s: RxState)
    requires KeysFor(o.keys, o.r) && |heard| == |played| < |fcs| == |voice|
    requires PlaysKept(o, b, fcs, m, voice, heard, played) && Stands(s, o, b, fcs, m, |played|)
    requires var i := |played|; var u := Counted(s, fcs[i]);
      && (Tight(u, fcs[i], Misses(o, b, fcs, m, i)) ==> play && SameVoice(e, voice[i]))
      && (Dropped(u) ==> !play)
    ensures PlaysKept(o, b, fcs, m, voice, heard + [e], played + [play])
  {
    hide KeysFor, Kept, AllPlayed, SameVoice, Tight, Dropped, Counted, Misses;
    var i := |played|;
    PlayedMore(played, play);
    KeptNext(o, b, fcs, m, i);
  }

  lemma StandsFirst(s: RxState, o: Over, b: nat, fcs: seq<nat>, m: nat)
    requires KeysFor(o.keys, o.r) && |fcs| > 0 && fcs[0] == 0 && Tight(Counted(s, 0), 0, m) && m <= MAX_MISS
    ensures Stands(s, o, b, fcs, m, 0)
  {
    hide KeysFor, Tight, Dropped, Counted;
    KeptNext(o, b, fcs, m, 0);
  }

  lemma PlayedMore(played: seq<bool>, play: bool)
    ensures forall k :: 0 <= k < |played| ==> AllPlayed(played + [play], k) == AllPlayed(played, k)
    ensures AllPlayed(played + [play], |played|) <==> (played != [] ==> AllPlayed(played, |played| - 1)) && play
  {
    var all := played + [play];
    forall k | 0 <= k < |played|
      ensures AllPlayed(all, k) == AllPlayed(played, k)
    {
      assert forall j :: 0 <= j <= k ==> all[j] == played[j];
    }
    assert forall j :: 0 <= j < |played| ==> all[j] == played[j];
    assert all[|played|] == play;
  }

  /** A receiver that joins at superframe b, without the header: it has the keystream by the second sync
      block that counts, and every frame it decrypts is the voice that was sent. */
  method LateOver(tx: VoiceTx, rx: VoiceRx, ghost o: Over, ghost b: nat, voice: seq<seq<bool>>, fcs: seq<nat>,
                  keys: KeyStore, haveKey: bool, c: Codec)
    returns (heard: seq<seq<bool>>, played: seq<bool>, locked: seq<bool>)
    requires KeysFor(o.keys, o.r) && |o.h| == HEADER_BYTES && Faithful(c) && keys == o.keys
    requires |voice| == |fcs| && (forall i :: 0 <= i < |voice| ==> |voice[i]| == AMBE_BITS) && Indices(fcs)
    requires SF_FRAMES * b + |voice| <= SF_FRAMES * SF_COUNT && b < SF_COUNT
    requires tx.Valid() && Sending(tx.State(), o, SF_FRAMES * b)
    modifies tx, rx
    ensures |heard| == |played| == |locked| == |voice|
    ensures LockedBySecond(o, b, fcs, locked)
    ensures forall i :: 0 <= i < |voice| && locked[i] ==> played[i] && SameVoice(heard[i], voice[i])
  {
    hide KeysFor, Faithful, Sending, SameVoice, LockedBySecond, Tight, Counted, Kept, AllPlayed, Indices, InStep;
    rx.Reset();
    StartsLate(o, b, rx.s);
    heard, played, locked := Talk(tx, rx, o, b, (b - 1) % HALF_WORD, voice, fcs, keys, haveKey, c, 0);
  }

  lemma StartsLate(o: Over, b: nat, s: RxState)
    requires KeysFor(o.keys, o.r) && |o.h| == HEADER_BYTES && b < SF_COUNT && s == Start()
    ensures Expecting(s, o, SF_FRAMES * b, 0, (b - 1) % HALF_WORD) && Learns(Counted(s, 0), 0)
  {
    hide KeysFor, InStep, VoteShape, NoBallots;
    JoinedLate(o, b);
    StartSound();
  }

  // ---- an over from its beginning

  /** The header of an encrypted over says so, and carries the nonce and the check. */
  lemma HeaderCarries(h: seq<Byte>, my: seq<Byte>, ur: seq<Byte>, r: Nonce, check: seq<Byte>)
    requires |h| == HEADER_BYTES && |my| == |ur| == 8 && |check| == HDR_CHECK_BYTES
    requires h[..HEADER_BYTES - 2] == HeaderText(my, ur, Some((r, check)))
    ensures SaysEncrypted(h) && HeaderNonce(h) == r && KeyMatches(h, check)
  {
    hide NonceBytes, Flatten;
    var text := HeaderText(my, ur, Some((r, check)));
    assert h[2] == text[2] == ENCRYPTED_FLAG;
    assert text[HDR_R..HDR_R + NONCE_BYTES] == NonceBytes(r);
    assert text[HDR_CHECK..HDR_CHECK + HDR_CHECK_BYTES] == check;
    assert h[HDR_R..HDR_R + NONCE_BYTES] == text[HDR_R..HDR_R + NONCE_BYTES];
    assert h[HDR_CHECK..HDR_CHECK + HDR_CHECK_BYTES] == text[HDR_CHECK..HDR_CHECK + HDR_CHECK_BYTES];
    NonceRound(r);
    assert NonceBytes(r)[..NONCE_BYTES] == NonceBytes(r);
  }

  /** Begin an encrypted over, and let a receiver that has the key hear its header and its frames:
      it plays all of it up to frame i if and only if it never sees nine data syncs without a sync
      block not like filler, and what it plays so far is the voice sent. */
  method WholeOver(tx: VoiceTx, rx: VoiceRx, my: seq<Byte>, ur: seq<Byte>, draw: Nonce, voice: seq<seq<bool>>, fcs: seq<nat>,
                   keys: KeyStore, haveKey: bool, c: Codec)
    returns (heard: seq<seq<bool>>, played: seq<bool>, ghost o: Over)
    requires tx.Valid() && draw !in tx.drawn && |my| == |ur| == 8 && KeysFor(keys, draw) && Faithful(c)
    requires |voice| == |fcs| && (forall i :: 0 <= i < |voice| ==> |voice[i]| == AMBE_BITS) && Indices(fcs)
    requires |voice| <= SF_FRAMES * SF_COUNT
    modifies tx, rx
    ensures |heard| == |played| == |voice| && o.keys == keys && o.r == draw
    ensures forall i :: 0 <= i < |voice| ==>
      && (AllPlayed(played, i) <==> Kept(o, 0, fcs, 1, i))
      && (Kept(o, 0, fcs, 1, i) ==> SameVoice(heard[i], voice[i]))
  {
    hide KeysFor, Faithful, Indices, ChecksumRight, HeaderText, SyncCheckOf, SyncRight, HeaderCheckOf, SaysEncrypted,
         HeaderNonce, KeyMatches, Tight, AfterHeader, Kept, AllPlayed, SameVoice, Logged, Below;
    HasCheck(keys, draw, 0);
    HasHeaderCheck(keys, draw);
    tx.Begin(my, ur, true, keys, true, Some(draw));
    rx.Reset();
    o := Over(tx.header, draw, keys);
    HeaderCarries(tx.header, my, ur, draw, HeaderCheckOf(keys, draw).value);
    StartsGood(o, rx.s);
    rx.Header(tx.header, keys);
    var locked;
    heard, played, locked := Talk(tx, rx, o, 0, HALF_WORD - 1, voice, fcs, keys, haveKey, c, 1);
  }

  lemma HasHeaderCheck(keys: KeyStore, r: Nonce)
    ensures KeysFor(keys, r) ==> HeaderCheckOf(keys, r).Some?
  {
  }

  lemma StartsGood(o: Over, s: RxState)
    requires KeysFor(o.keys, o.r) && HeaderCheckOf(o.keys, o.r).Some? && |o.h| == HEADER_BYTES && s == Start()
    requires ChecksumRight(Flatten(o.h)) && SaysEncrypted(o.h) && HeaderNonce(o.h) == o.r
    requires KeyMatches(o.h, HeaderCheckOf(o.keys, o.r).value)
    ensures Good(o)
    ensures var t := AfterHeader(s, o.h, o.keys); Expecting(t, o, 0, 0, HALF_WORD - 1) && Tight(Counted(t, 0), 0, 1)
  {
    hide KeysFor, ChecksumRight, Flatten, SaysEncrypted, HeaderNonce, KeyMatches, HeaderCheckOf, AfterHeader, Counted, SlowRight,
         Unanimous, SameOffset, VoteShape;
    FromTheHeader(o);
  }

  // ---- overs that are kept, and one that is lost

  /** If no sync block is like filler the receiver never loses an over, whichever data syncs it misses. */
  lemma {:induction false} DistinctKept(o: Over, b: nat, fcs: seq<nat>, m: nat, i: nat)
    requires KeysFor(o.keys, o.r) && Indices(fcs) && i < |fcs| && m <= 1 && (forall k: nat :: !LikeFiller(o, k))
    ensures Misses(o, b, fcs, m, i) <= if fcs[i] <= SYNC_LAST_SLOT then 1 else 0
    ensures Kept(o, b, fcs, m, i)
  {
    hide KeysFor, LikeFiller;
    if i > 0 {
      DistinctKept(o, b, fcs, m, i - 1);
      assert NextIndex(fcs[i - 1], fcs[i]);
      assert !LikeFiller(o, (SF_FRAMES * b + i - 1) / SF_FRAMES);
    }
    KeptNext(o, b, fcs, m, i);
  }

  /** Every data sync is seen. */
  function EverySync(n: nat): (fcs: seq<nat>)
    ensures |fcs| == n && forall i :: 0 <= i < n ==> fcs[i] == i % SF_FRAMES
  {
    seq(n, i => i % SF_FRAMES)
  }

  lemma EverySyncIndices(n: nat)
    ensures Indices(EverySync(n))
  {
    hide NextIndex, EverySync;
    forall i | 0 < i < n
      ensures NextIndex(EverySync(n)[i - 1], EverySync(n)[i])
    {
      NextSync(i);
    }
  }

  lemma NextSync(i: nat)
    requires i > 0
    ensures NextIndex((i - 1) % SF_FRAMES, i % SF_FRAMES)
  {
  }

  /** An over whose nonce is filler. */
  ghost predicate FillerNonce(r: Nonce) {
    NonceBytes(r) == [FILLER, FILLER, FILLER, FILLER, FILLER, FILLER]
  }

  /** Its first data syncs count, but for those before a sync block 1 that is not like filler. */
  lemma {:induction false} FillerMisses(o: Over, n: nat, i: nat)
    requires KeysFor(o.keys, o.r) && i < n <= SF_FRAMES * MAX_MISS + 1
    requires forall k: nat :: k < MAX_MISS && k != 1 ==> LikeFiller(o, k)
    ensures Misses(o, 0, EverySync(n), 1, i) ==
      if i < 2 * SF_FRAMES || LikeFiller(o, 1) then 1 + i / SF_FRAMES else i / SF_FRAMES - 1
  {
    hide KeysFor, LikeFiller, EverySync;
    if i > 0 {
      FillerMisses(o, n, i - 1);
      var k := (i - 1) / SF_FRAMES;
      assert (SF_FRAMES * 0 + i - 1) / SF_FRAMES == k && (k != 1 ==> LikeFiller(o, k));
    }
  }

  /** An over whose nonce is filler, under any key: heard without an error, and every data sync seen,
      it is lost at the ninth one, and not before, unless the check of its superframe 1 is
      the complement of filler. Then it is kept that far. */
  lemma LosesAnOver(o: Over)
    requires KeysFor(o.keys, o.r) && FillerNonce(o.r)
    ensures var fcs := EverySync(SF_FRAMES * MAX_MISS + 1);
      && Indices(fcs) && Kept(o, 0, fcs, 1, SF_FRAMES * MAX_MISS - 1)
      && (Kept(o, 0, fcs, 1, SF_FRAMES * MAX_MISS) <==> SyncCheckOf(o.keys, o.r, 1) == Some(Xor(FILLER, ONES_BYTE)))
  {
    hide KeysFor, LikeFiller, EverySync, Misses, Indices, SyncCheckOf, Xor, FillerNonce;
    var n := SF_FRAMES * MAX_MISS + 1;
    EverySyncIndices(n);
    forall k: nat | k < MAX_MISS
      ensures LikeFiller(o, k) <==> k != 1 || SyncCheckOf(o.keys, o.r, 1) != Some(Xor(FILLER, ONES_BYTE))
    {
      FillerBlocks(o, k);
    }
    forall i: nat | i < n
      ensures Misses(o, 0, EverySync(n), 1, i) ==
        if i < 2 * SF_FRAMES || LikeFiller(o, 1) then 1 + i / SF_FRAMES else i / SF_FRAMES - 1
    {
      FillerMisses(o, n, i);
    }
    assert Misses(o, 0, EverySync(n), 1, SF_FRAMES * MAX_MISS) == if LikeFiller(o, 1) then 1 + MAX_MISS else MAX_MISS - 1;
  }

  /** There is such a nonce. */
  lemma SomeFillerNonce() returns (r: Nonce)
    ensures FillerNonce(r)
  {
    hide Chop, Flatten;
    var six := [FILLER, FILLER, FILLER, FILLER, FILLER, FILLER];
    r := Flatten(six);
    ChopFlatten(six);
  }

  const ONES_BYTE: Byte := [true, true, true, true, true, true, true, true]

  /** Of its first sync blocks only block 1 may not pass for filler, by its check alone. */
  lemma FillerBlocks(o: Over, b: nat)
    requires KeysFor(o.keys, o.r) && FillerNonce(o.r) && b < 8
    ensures LikeFiller(o, b) <==> b != 1 || SyncCheckOf(o.keys, o.r, 1) != Some(Xor(FILLER, ONES_BYTE))
  {
    hide BitsOff, ByteOf, KeysFor, SyncCheckOf, Xor;
    HasCheck(o.keys, o.r, b);
    var x, y, z := ByteOf(0), ByteOf(b), SyncCheckOf(o.keys, o.r, b).value;
    var six := [FILLER, FILLER, FILLER, FILLER, FILLER, FILLER];
    assert b / 256 % 256 == 0 && b % 256 == b;
    assert BlockOf(o, b) == six + [x, y, z];
    FillerBitsSnoc(six + [x, y], z);
    assert six + [x] + [y] == six + [x, y] && six + [x, y] + [z] == six + [x, y, z];
    FillerBitsSnoc(six + [x], y);
    FillerBitsSnoc(six, x);
    NoFillerBits(six);
    CounterBits(0);
    CounterBits(b);
    AllBitsOff(z, FILLER);
  }

  /** How far the counter's low byte is from filler. */
  lemma CounterBits(k: nat)
    requires k < 8
    ensures BitsOff(ByteOf(k), FILLER) == 2 + k % 2 + (1 - k / 2 % 2) + (1 - k / 4 % 2)
  {
    CounterByte(k);
    var x := Xor(ByteOf(k), FILLER);
    assert x == [k % 2 == 1, k / 2 % 2 == 0, k / 4 % 2 == 0, false, false, true, true, false];
    EightWeight(x);
  }

  lemma CounterByte(k: nat)
    requires k < 8
    ensures ByteOf(k) == [k % 2 == 1, k / 2 % 2 == 1, k / 4 % 2 == 1, false, false, false, false, false]
  {
    assert GrayCode.Field(0, 5) == [false, false, false, false, false] by {
      assert GrayCode.Field(0, 3) == [false, false, false];
    }
    assert GrayCode.Field(k / 2 / 2 / 2, 5) == GrayCode.Field(0, 5);
    assert GrayCode.Field(k / 2, 7) == GrayCode.Field(k / 2 / 2, 6) + [k / 2 % 2 == 1];
    assert GrayCode.Field(k, 8) == [false, false, false, false, false, k / 4 % 2 == 1, k / 2 % 2 == 1, k % 2 == 1];
  }

  lemma EightWeight(x: seq<bool>)
    requires |x| == 8
    ensures Weight(x) == Val(x[0]) + Val(x[1]) + Val(x[2]) + Val(x[3]) + Val(x[4]) + Val(x[5]) + Val(x[6]) + Val(x[7])
  {
    hide Weight;
    TwoMore(x);
    TwoMore(x[..6]);
    TwoMore(x[..4]);
    TwoMore(x[..2]);
    assert x[..6][..4] == x[..4] && x[..4][..2] == x[..2] && x[..2][..0] == [];
  }

  lemma TwoMore(x: seq<bool>)
    requires |x| >= 2
    ensures Weight(x) == Weight(x[..|x| - 2]) + Val(x[|x| - 2]) + Val(x[|x| - 1]) && Weight([]) == 0
  {
    assert x[..|x| - 1][..|x| - 2] == x[..|x| - 2];
  }

  /** All eight bits are off just in the complement. */
  lemma AllBitsOff(x: Byte, y: Byte)
    ensures BitsOff(x, y) == 8 <==> x == Xor(y, ONES_BYTE)
  {
    var d := Xor(x, y);
    EightWeight(d);
    assert d == ONES_BYTE <==> forall i :: 0 <= i < 8 ==> d[i];
    if d == ONES_BYTE {
      assert forall i :: 0 <= i < 8 ==> x[i] == Xor(y, ONES_BYTE)[i];
    }
  }

  lemma FillerBitsSnoc(b: seq<Byte>, x: Byte)
    ensures FillerBits(b + [x]) == FillerBits(b) + BitsOff(x, FILLER)
  {
    assert (b + [x])[..|b|] == b;
  }

  lemma {:induction false} NoFillerBits(b: seq<Byte>)
    requires forall i :: 0 <= i < |b| ==> b[i] == FILLER
    ensures FillerBits(b) == 0
  {
    hide BitsOff;
    if b != [] {
      NoBitsOff(FILLER);
      NoFillerBits(b[..|b| - 1]);
    }
  }
}
