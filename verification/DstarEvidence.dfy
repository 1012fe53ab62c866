/** What the D-STAR voice receiver concludes from the checks of the sync blocks: when the votes lock, when a lock is
    given up, and what status it shows. */
module DstarEvidence {
  import opened VoiceCrypto
  import opened DstarQueue
  import opened DstarSlow
  import opened DstarVoiceTx
  import opened DstarVoiceRx

  // ---- the votes

  /** Of two ballots for the nonce the newer is elected, of three each bit's majority. */
  lemma FewBallots(a: Nonce, b: Nonce, c: Nonce)
    ensures Elected(WithBallot(WithBallot(NoBallots(), a), b), 2, b) == b
    ensures var e := Elected(WithBallot(WithBallot(WithBallot(NoBallots(), a), b), c), 3, c);
      forall i :: 0 <= i < 48 ==> e[i] == ((a[i] && b[i]) || (b[i] && c[i]) || (a[i] && c[i]))
  {
  }

  /** When sixteen ballots are aged to eight, a bit that nine or more were for keeps its majority, and so does one that
      six or fewer were for. */
  lemma AgedMajority(v: seq<nat>, i: nat)
    requires VoteShape(v, 16) && i < NONCE_BITS
    ensures var (w, n) := Aged(v, 16); n == 8 && (v[i] >= 9 ==> 2 * w[i] > n) && (v[i] <= 6 ==> 2 * w[i] < n)
  {
  }

  /** How far check i of those kept is off, under a nonce and an offset; none without the key. */
  function CheckOff(keys: KeyStore, r: Nonce, off: nat, local: seq<nat>, chk: seq<Byte>, i: nat): Option<nat>
    requires i < |local| && i < |chk|
  {
    match SyncCheckOf(keys, r, (local[i] + off) % 65536)
    case None => None
    case Some(want) => Some(BitsOff(want, chk[i]))
  }

  /** All five checks kept can be judged, and are d bits off. */
  ghost predicate ChecksOff(keys: KeyStore, r: Nonce, off: nat, s: RxState, d: seq<nat>)
    requires |s.blkLocal| == |s.blkChk| == 5
  {
    |d| == 5 && forall i :: 0 <= i < 5 ==> CheckOff(keys, r, off, s.blkLocal, s.blkChk, i) == Some(d[i])
  }

  /** At least four of five are three bits off or more. */
  ghost predicate FourFarOff(d: seq<nat>) {
    |d| == 5 && forall i, j :: 0 <= i < j < 5 ==> d[i] >= 3 || d[j] >= 3
  }

  /** The score of the five checks kept: none exactly if one of them cannot be judged. */
  lemma ScoreIs(keys: KeyStore, r: Nonce, off: nat, s: RxState)
    requires |s.blkLocal| == |s.blkChk| == 5
    ensures var score := Score(keys, r, off, s.blkLocal, s.blkChk, 5);
      && (forall d :: ChecksOff(keys, r, off, s, d) ==>
            score.Some? && score.value.0 == d[0] + d[1] + d[2] + d[3] + d[4] && (score.value.1 >= 4 <==> FourFarOff(d)))
      && (score.Some? ==> exists d :: ChecksOff(keys, r, off, s, d))
  {
    hide SyncCheckOf, BitsOff;
    var l, c := s.blkLocal, s.blkChk;
    ScoreStep(keys, r, off, l, c, 0);
    ScoreStep(keys, r, off, l, c, 1);
    ScoreStep(keys, r, off, l, c, 2);
    ScoreStep(keys, r, off, l, c, 3);
    ScoreStep(keys, r, off, l, c, 4);
    hide Score, CheckOff;
    forall d | ChecksOff(keys, r, off, s, d)
      ensures var score := Score(keys, r, off, l, c, 5);
        score.Some? && score.value.0 == d[0] + d[1] + d[2] + d[3] + d[4] && (score.value.1 >= 4 <==> FourFarOff(d))
    {
      assert CheckOff(keys, r, off, l, c, 0) == Some(d[0]) && CheckOff(keys, r, off, l, c, 1) == Some(d[1]);
      assert CheckOff(keys, r, off, l, c, 2) == Some(d[2]) && CheckOff(keys, r, off, l, c, 3) == Some(d[3]);
      assert CheckOff(keys, r, off, l, c, 4) == Some(d[4]);
      FourOfFive(d);
    }
    if Score(keys, r, off, l, c, 5).Some? {
      var d := [CheckOff(keys, r, off, l, c, 0).value, CheckOff(keys, r, off, l, c, 1).value,
                CheckOff(keys, r, off, l, c, 2).value, CheckOff(keys, r, off, l, c, 3).value,
                CheckOff(keys, r, off, l, c, 4).value];
      assert ChecksOff(keys, r, off, s, d);
    }
  }

  lemma ScoreStep(keys: KeyStore, r: Nonce, off: nat, local: seq<nat>, chk: seq<Byte>, k: nat)
    requires k < |local| && k < |chk|
    ensures Score(keys, r, off, local, chk, 0) == Some((0, 0))
    ensures var before, d := Score(keys, r, off, local, chk, k), CheckOff(keys, r, off, local, chk, k);
      Score(keys, r, off, local, chk, k + 1) ==
        if before.None? || d.None? then None
        else Some((before.value.0 + d.value, before.value.1 + if d.value >= 3 then 1 else 0))
  {
    hide SyncCheckOf, BitsOff;
  }

  function Far(d: nat): nat {
    if d >= 3 then 1 else 0
  }

  lemma FourOfFive(d: seq<nat>)
    requires |d| == 5
    ensures FourFarOff(d) <==> Far(d[0]) + Far(d[1]) + Far(d[2]) + Far(d[3]) + Far(d[4]) >= 4
  {
  }

  /** A block that joins the votes of a receiver without keystream. It locks, on the nonce and the counter voted, if
      and only if five checks are kept and are at most three bits off in all; else the key
      counts as wrong if it did, or if four of the five are three bits off or more. */
  lemma VotedExactly(s: RxState, sync: seq<Byte>, keys: KeyStore)
    requires Shaped(s) && |sync| == SYNC_BYTES && !s.synced
    ensures var t, u := WithBlock(s, sync), Voted(s, sync, keys);
      var r, off := Elected(t.voteOne, t.voteN, NonceOf(sync)), VotedOffset(s, BlockOffset(s, sync));
      && |t.blkLocal| == |t.blkChk| == 5
      && (u.synced <==> t.blkN >= 5 && exists d :: ChecksOff(keys, r, off, t, d) && d[0] + d[1] + d[2] + d[3] + d[4] <= 3)
      && (u.synced ==> u.r == r && u.sf == (s.localSf + off) % 65536)
      && (!u.synced ==> (u.badKey <==> s.badKey || (t.blkN >= 5 && exists d :: ChecksOff(keys, r, off, t, d) && FourFarOff(d))))
  {
    hide Elected, VotedOffset, BlockOffset, NonceOf, WithBlock, Score, ChecksOff, FourFarOff, VoteShape, SlowShape, Settled;
    var t := WithBlock(s, sync);
    BlockKept(s, sync);
    var r, off := Elected(t.voteOne, t.voteN, NonceOf(sync)), VotedOffset(s, BlockOffset(s, sync));
    ScoreIs(keys, r, off, t);
    if t.blkN >= 5 && Score(keys, r, off, t.blkLocal, t.blkChk, 5).Some? {
      var d :| ChecksOff(keys, r, off, t, d);
    }
    var n := Min(t.blkN, 5);
    var score := Score(keys, r, off, t.blkLocal, t.blkChk, n);
    SettledIs(t, r, (t.localSf + off) % HALF_WORD, SaysLock(n, score), SaysBad(n, score));
  }

  lemma SettledIs(t: RxState, r: Nonce, sf: nat, lock: bool, bad: bool)
    requires !t.synced
    ensures var u := Settled(t, r, sf, lock, bad);
      && u.synced == lock && (lock ==> u.r == r && u.sf == sf) && (!lock ==> u.badKey == (t.badKey || bad))
  {
  }

  lemma BlockKept(s: RxState, sync: seq<Byte>)
    requires Shaped(s) && |sync| == SYNC_BYTES
    ensures var t := WithBlock(s, sync);
      && |t.blkLocal| == |t.blkChk| == 5 && |t.voteOne| == NONCE_BITS
      && t.synced == s.synced && t.badKey == s.badKey && t.localSf == s.localSf
  {
    hide BlockOffset, NonceOf, Aged, WithBallot;
  }

  // ---- the lock and its evidence

  /** The evidence of some checks, each so many bits off. */
  function Weight(ds: seq<nat>): int
    requires forall i :: 0 <= i < |ds| ==> ds[i] <= 8
  {
    if ds == [] then 0 else Weight(ds[..|ds| - 1]) + LLR[ds[|ds| - 1]]
  }

  ghost predicate Checks(ds: seq<nat>) {
    forall i :: 0 <= i < |ds| ==> ds[i] <= 8
  }

  /** The receiver after the checks ds. */
  function Weighs(s: RxState, ds: seq<nat>): (t: RxState)
    requires |s.distHist| == DIST_HIST && forall i :: 0 <= i < |ds| ==> ds[i] <= 8
    ensures |t.distHist| == DIST_HIST
  {
    if ds == [] then s else Weighed(Weighs(s, ds[..|ds| - 1]), ds[|ds| - 1])
  }

  /** The last of the checks, from some one on, weigh ten nats together: the key is wrong. */
  ghost predicate Convicts(ds: seq<nat>)
    requires Checks(ds)
  {
    exists i :: 0 <= i < |ds| && Weight(ds[i..]) >= 100
  }

  /** The sum kept is the greatest evidence of the checks from some one on, or none. */
  ghost predicate Greatest(c: int, ds: seq<nat>)
    requires Checks(ds)
  {
    && c >= 0 && (forall i :: 0 <= i <= |ds| ==> Weight(ds[i..]) <= c)
    && exists i :: 0 <= i <= |ds| && Weight(ds[i..]) == c
  }

  lemma GreatestNext(c: int, ds: seq<nat>, d: nat)
    requires Checks(ds) && d <= 8 && Greatest(c, ds)
    ensures Checks(ds + [d]) && Greatest(if c + LLR[d] < 0 then 0 else c + LLR[d], ds + [d])
  {
    var all := ds + [d];
    forall i | 0 <= i <= |ds|
      ensures Weight(all[i..]) == Weight(ds[i..]) + LLR[d]
    {
      assert all[i..] == ds[i..] + [d] && (ds[i..] + [d])[..|ds[i..]|] == ds[i..];
    }
    assert all[|all|..] == [];
    var k :| 0 <= k <= |ds| && Weight(ds[k..]) == c;
    assert Weight(all[k..]) == c + LLR[d];
    forall i | 0 <= i <= |all|
      ensures Weight(all[i..]) <= if c + LLR[d] < 0 then 0 else c + LLR[d]
    {
      if i <= |ds| {
        assert Weight(ds[i..]) <= c;
      }
    }
  }

  lemma {:induction false} SumKept(s: RxState, ds: seq<nat>)
    requires |s.distHist| == DIST_HIST && s.synced && s.cusum == 0 && Checks(ds)
    requires forall n :: 0 <= n <= |ds| ==> !Convicts(ds[..n])
    ensures Weighs(s, ds).synced && Greatest(Weighs(s, ds).cusum, ds)
  {
    hide Greatest, Convicts, Weighed, Weight;
    if ds == [] {
      NoEvidence();
    } else {
      var n := |ds| - 1;
      assert forall m :: 0 <= m <= n ==> ds[..n][..m] == ds[..m];
      SumKept(s, ds[..n]);
      GreatestNext(Weighs(s, ds[..n]).cusum, ds[..n], ds[n]);
      assert ds[..n] + [ds[n]] == ds && ds[..|ds|] == ds;
      WeighedOnce(Weighs(s, ds[..n]), ds[n]);
      Convicted(Weighs(s, ds[..n]).cusum + LLR[ds[n]], ds);
    }
  }

  lemma NoEvidence()
    ensures Greatest(0, [])
  {
    var none: seq<nat> := [];
    assert none[0..] == none && Weight(none) == 0;
  }

  lemma WeighedOnce(s: RxState, d: nat)
    requires |s.distHist| == DIST_HIST && d <= 8
    ensures var t := Weighed(s, d);
      t.cusum == (if s.cusum + LLR[d] < 0 then 0 else s.cusum + LLR[d]) && t.synced == (s.synced && s.cusum + LLR[d] < 100)
  {
  }

  lemma Convicted(c: int, ds: seq<nat>)
    requires Checks(ds) && Greatest(if c < 0 then 0 else c, ds)
    ensures Convicts(ds) <==> c >= 100
  {
    assert ds[|ds|..] == [] && Weight([]) == 0;
    if c >= 100 {
      var i :| 0 <= i <= |ds| && Weight(ds[i..]) == c;
      assert i < |ds|;
    }
  }

  /** A lock is given up at a check if and only if the checks from some one on, this the last of them, weigh ten nats,
      as none did before. */
  lemma LockLostExactly(s: RxState, ds: seq<nat>)
    requires |s.distHist| == DIST_HIST && s.synced && s.cusum == 0 && Checks(ds) && ds != []
    requires forall n :: 0 <= n < |ds| ==> !Convicts(ds[..n])
    ensures Weighs(s, ds).synced <==> !Convicts(ds)
    ensures !Weighs(s, ds).synced ==> Weighs(s, ds).badKey
  {
    hide Greatest, Convicts, Weight;
    var n := |ds| - 1;
    assert forall m :: 0 <= m <= n ==> ds[..n][..m] == ds[..m];
    hide Weighed;
    SumKept(s, ds[..n]);
    GreatestNext(Weighs(s, ds[..n]).cusum, ds[..n], ds[n]);
    assert ds[..n] + [ds[n]] == ds;
    WeighedOnce(Weighs(s, ds[..n]), ds[n]);
    WeighedBad(Weighs(s, ds[..n]), ds[n]);
    Convicted(Weighs(s, ds[..n]).cusum + LLR[ds[n]], ds);
  }

  lemma WeighedBad(s: RxState, d: nat)
    requires |s.distHist| == DIST_HIST && d <= 8 && s.synced
    ensures !Weighed(s, d).synced ==> Weighed(s, d).badKey
  {
  }

  // ---- what a header says of the key

  /** The flag is the lowest bit of the header's third byte. One that says clear drops the lock and every verdict; one
      that says encrypted, and checks, gives a verdict if there is a key: wrong, and the lock is dropped, or right. */
  lemma HeaderVerdict(s: RxState, h: seq<Byte>, keys: KeyStore)
    requires Sound(s) && |h| == HEADER_BYTES
    ensures var t := AfterHeader(s, h, keys);
      var judged := Verified(h) && HeaderCheckOf(keys, HeaderNonce(h)).Some?;
      var right := judged && h[9..17] == HeaderCheckOf(keys, HeaderNonce(h)).value;
      if !h[2][0] then !t.hdrEnc && !t.synced && !t.encSeen && !t.hdrBad && !t.badKey && t.clearKnown == Verified(h)
      else
        && t.hdrEnc && !t.clearKnown
        && t.hdrBad == (if judged then !right else s.hdrBad) && t.badKey == (if judged then !right else s.badKey)
        && (judged && !right ==> !t.synced)
        && (right && s.frames == 0 ==> t.synced && t.r == HeaderNonce(h) && t.encSeen)
        && (!judged ==> t.synced == s.synced)
  {
    hide Verified, HeaderCheckOf, HeaderNonce, NoBallots, TakenNonce, VoteShape, SlowShape;
    if h[2][0] {
      NonceVerdict(s.(hdrEnc := true, clearKnown := false, hdrBad := false, badKey := false), HeaderNonce(h));
    }
  }

  lemma NonceVerdict(u: RxState, r: Nonce)
    requires u.synced ==> u.encSeen
    ensures var t := TakenNonce(u, r);
      && t.hdrEnc == u.hdrEnc && t.clearKnown == u.clearKnown && t.hdrBad == u.hdrBad && t.badKey == u.badKey
      && (u.frames == 0 ==> t.synced && t.r == r && t.encSeen)
  {
  }

  /** A ninth data sync without a block that counts ends the lock and forgets the verdict with the votes. */
  lemma DropForgets(s: RxState)
    ensures var t := NewSuperframe(s);
      if s.synced && s.miss + 1 > 8 then !t.synced && !t.encSeen && !t.badKey && t.voteN == 0 && t.blkN == 0 && !t.lastExact
      else t.synced == s.synced && t.encSeen == s.encSeen && t.badKey == s.badKey && t.voteN == s.voteN && t.blkN == s.blkN
  {
    hide NoBallots;
  }

  // ---- the status

  /** Four of the last five checks are three bits off or more. */
  lemma BadBlocksAre(s: RxState)
    requires |s.distHist| == DIST_HIST && s.distN >= 5
    ensures BadBlocks(s, 5) >= 4 <==> FourFarOff(s.distHist)
  {
    var n, h := s.distN, s.distHist;
    assert BadBlocks(s, 1) == Far(h[(n - 1) % 5]);
    assert BadBlocks(s, 2) == BadBlocks(s, 1) + Far(h[(n - 2) % 5]);
    assert BadBlocks(s, 3) == BadBlocks(s, 2) + Far(h[(n - 3) % 5]);
    assert BadBlocks(s, 4) == BadBlocks(s, 3) + Far(h[(n - 4) % 5]);
    assert BadBlocks(s, 5) == BadBlocks(s, 4) + Far(h[(n - 5) % 5]);
    hide BadBlocks;
    AllFive(n, h);
    FourOfFive(h);
  }

  /** Five places on end in a ring of five are all its places. */
  lemma AllFive(n: nat, h: seq<nat>)
    requires |h| == 5 && n >= 5
    ensures Far(h[(n - 1) % 5]) + Far(h[(n - 2) % 5]) + Far(h[(n - 3) % 5]) + Far(h[(n - 4) % 5]) + Far(h[(n - 5) % 5]) ==
            Far(h[0]) + Far(h[1]) + Far(h[2]) + Far(h[3]) + Far(h[4])
  {
    hide Far;
  }

  /** The status after a frame: decrypting exactly if the keystream block of the receiver's own count is to be had;
      else clear exactly if nothing said encrypted and the over is known to be clear, no key or bad key
      exactly if something did and there is no key or the checks speak against it. */
  lemma StatusExactly(s: RxState, f: seq<Byte>, fc: nat, keys: KeyStore, haveKey: bool, c: Codec)
    requires Sound(s) && |f| == FRAME_BYTES && fc < HALF_WORD && Faithful(c)
    ensures var u, t := Ready(s, f, fc, keys), Received(s, f, fc, keys, haveKey, c).0;
      var ks := if u.synced then keys(Voice, u.r, (21 * u.sf + fc) % 0x1_0000_0000) else None;
      var encrypted := u.hdrEnc || u.encSeen;
      && (t.status == Decrypting <==> ks.Some?)
      && (t.status == Clear <==> ks.None? && !encrypted && u.clearKnown)
      && (t.status == NoKey <==> ks.None? && encrypted && !haveKey)
      && (t.status == BadKey <==>
            ks.None? && encrypted && haveKey && (u.badKey || (u.distN >= 5 && FourFarOff(u.distHist))))
  {
    hide Counted, Gathered, Masked, BadBlocks, Faithful, FourFarOff;
    CountedSound(s, fc);
    GatheredSound(Counted(s, fc), f[AMBE_BYTES..], fc, keys);
    var u := Ready(s, f, fc, keys);
    hide Ready;
    DecodedBits(f[..AMBE_BYTES], c);
    if u.distN >= 5 {
      BadBlocksAre(u);
    }
    OpenedStatus(u, c.decode(f[..AMBE_BYTES]), fc, keys, haveKey);
  }

  lemma OpenedStatus(u: RxState, e: seq<bool>, fc: nat, keys: KeyStore, haveKey: bool)
    requires |u.distHist| == DIST_HIST && |e| == AMBE_BITS
    ensures var t := Opened(u, e, fc, keys, haveKey).0;
      var ks := if u.synced then keys(Voice, u.r, (21 * u.sf + fc) % 0x1_0000_0000) else None;
      var encrypted := u.hdrEnc || u.encSeen;
      t.status == if ks.Some? then Decrypting else if !encrypted then (if u.clearKnown then Clear else Acquiring)
                  else if !haveKey then NoKey
                  else if u.badKey || (u.distN >= 5 && BadBlocks(u, 5) >= 4) then BadKey else Acquiring
  {
    hide Masked, BadBlocks;
    SameBlocks(u, 5);
  }

  lemma {:induction false} SameBlocks(u: RxState, k: nat)
    requires |u.distHist| == DIST_HIST
    ensures k <= u.distN ==> BadBlocks(u.(synced := false), k) == BadBlocks(u, k)
  {
    if 0 < k <= u.distN {
      SameBlocks(u, k - 1);
    }
  }
}
