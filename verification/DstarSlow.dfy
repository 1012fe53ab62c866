/** The receiver's reassembly of the header from slow data: three bytes a frame, six bytes a unit,
    nine units a header, taken by position; a corrupt header goes into a bit-by-bit vote. */
module DstarSlow {
  import opened Bits
  import opened VoiceCrypto
  import opened DstarFec
  import opened DstarHeader
  import opened DstarQueue
  import opened DstarVoiceTx

  const VOTE_CAP := 32
  const VOTE_MIN := 3

  // ---- the vote

  /** The votes on one bit: how many are for it, of how many. */
  datatype Poll = Poll(ones: nat, n: nat)

  /** One more vote; of a full poll half the votes are kept. */
  function Polled(p: Poll, x: bool): Poll {
    if p.n >= VOTE_CAP then Poll(p.ones / 2 + Val(x), p.n / 2 + 1) else Poll(p.ones + Val(x), p.n + 1)
  }

  /** All repeats are whole headers. */
  predicate Headers(repeats: seq<seq<bool>>) {
    forall j :: 0 <= j < |repeats| ==> |repeats[j]| == HEADER_BITS
  }

  /** The poll of the repeats on bit i. */
  function Count(repeats: seq<seq<bool>>, i: nat): (p: Poll)
    requires Headers(repeats) && i < HEADER_BITS
    ensures p.ones <= p.n <= VOTE_CAP && (repeats != [] ==> p.n > 0)
  {
    if repeats == [] then Poll(0, 0) else Polled(Count(repeats[..|repeats| - 1], i), repeats[|repeats| - 1][i])
  }

  lemma CountSnoc(repeats: seq<seq<bool>>, x: seq<bool>, i: nat)
    requires Headers(repeats) && |x| == HEADER_BITS && i < HEADER_BITS
    ensures Count(repeats + [x], i) == Polled(Count(repeats, i), x[i])
  {
    assert (repeats + [x])[..|repeats|] == repeats;
  }

  /** How many of the repeats have bit i set. */
  function Ones(repeats: seq<seq<bool>>, i: nat): (n: nat)
    requires Headers(repeats) && i < HEADER_BITS
    ensures n <= |repeats|
  {
    if repeats == [] then 0 else Ones(repeats[..|repeats| - 1], i) + Val(repeats[|repeats| - 1][i])
  }

  /** Up to 32 repeats all votes are counted. */
  lemma {:induction false} CountedPlain(repeats: seq<seq<bool>>, i: nat)
    requires Headers(repeats) && i < HEADER_BITS && |repeats| <= VOTE_CAP
    ensures Count(repeats, i) == Poll(Ones(repeats, i), |repeats|)
  {
    if repeats != [] {
      CountedPlain(repeats[..|repeats| - 1], i);
    }
  }

  // ---- a new header takes over

  const TAKES_OVER := 18

  /** k more votes, all alike. */
  function Again(p: Poll, x: bool, k: nat): Poll {
    if k == 0 then p else Polled(Again(p, x, k - 1), x)
  }

  lemma {:induction false} AgainUnaged(p: Poll, x: bool, k: nat)
    requires p.n + k <= VOTE_CAP
    ensures Again(p, x, k) == Poll(if x then p.ones + k else p.ones, p.n + k)
  {
    if k > 0 {
      AgainUnaged(p, x, k - 1);
    }
  }

  lemma {:induction false} AgainThen(p: Poll, x: bool, j: nat, k: nat)
    ensures Again(Again(p, x, j), x, k) == Again(p, x, j + k)
  {
    if k > 0 {
      AgainThen(p, x, j, k - 1);
    }
  }

  predicate Says(p: Poll, x: bool) {
    x <==> 2 * p.ones > p.n
  }

  lemma {:induction false} SaysOn(p: Poll, x: bool, k: nat)
    requires p.ones <= p.n <= VOTE_CAP && Says(p, x)
    ensures var q := Again(p, x, k); q.ones <= q.n <= VOTE_CAP && Says(q, x)
  {
    if k > 0 {
      SaysOn(p, x, k - 1);
    }
  }

  /** Eighteen votes alike decide a poll, whatever it was. */
  lemma EighteenDecide(p: Poll, x: bool)
    requires p.ones <= p.n <= VOTE_CAP
    ensures var q := Again(p, x, TAKES_OVER); q.ones <= q.n <= VOTE_CAP && Says(q, x)
  {
    hide Again;
    if p.n + TAKES_OVER <= VOTE_CAP {
      AgainUnaged(p, x, TAKES_OVER);
    } else {
      var k := VOTE_CAP - p.n;
      AgainUnaged(p, x, k);
      var full := Again(p, x, k);
      var half := Polled(full, x);
      AgainOnce(full, x);
      AgainThen(p, x, k, 1);
      var more := if k >= 2 then TAKES_OVER - k - 1 else VOTE_CAP / 2 - 1;
      AgainUnaged(half, x, more);
      AgainThen(p, x, k + 1, more);
      if k < 2 {
        var again := Again(half, x, more);
        AgainOnce(again, x);
        AgainThen(p, x, k + 1 + more, 1);
        SaysOn(Polled(again, x), x, 1 - k);
        AgainThen(p, x, k + 2 + more, 1 - k);
      }
    }
  }

  /** Seventeen need not: 31 votes against stand before them. */
  lemma SeventeenDoNot()
    ensures !Says(Again(Poll(0, VOTE_CAP - 1), true, TAKES_OVER - 1), true)
  {
    hide Again;
    var p := Poll(0, VOTE_CAP - 1);
    AgainOnce(p, true);
    var full := Again(p, true, 1);
    AgainOnce(full, true);
    AgainThen(p, true, 1, 1);
    AgainUnaged(Polled(full, true), true, TAKES_OVER - 3);
    AgainThen(p, true, 2, TAKES_OVER - 3);
  }

  lemma AgainOnce(p: Poll, x: bool)
    ensures Again(p, x, 1) == Polled(p, x)
  {
    assert Again(p, x, 0) == p;
  }

  /** A bit the last eighteen repeats agree on is what they say, whatever came before them. */
  lemma TakesOver(repeats: seq<seq<bool>>, i: nat, x: bool)
    requires Headers(repeats) && i < HEADER_BITS && |repeats| >= TAKES_OVER
    requires forall j :: |repeats| - TAKES_OVER <= j < |repeats| ==> repeats[j][i] == x
    ensures Says(Count(repeats, i), x)
  {
    var n := |repeats| - TAKES_OVER;
    EighteenDecide(Count(repeats[..n], i), x);
    AgainCounts(repeats, i, x, n, |repeats|);
    assert repeats[..|repeats|] == repeats;
  }

  lemma {:induction false} AgainCounts(repeats: seq<seq<bool>>, i: nat, x: bool, n: nat, m: nat)
    requires Headers(repeats) && i < HEADER_BITS && n <= m <= |repeats|
    requires forall j :: n <= j < m ==> repeats[j][i] == x
    ensures Count(repeats[..m], i) == Again(Count(repeats[..n], i), x, m - n)
  {
    if m > n {
      AgainCounts(repeats, i, x, n, m - 1);
      assert repeats[..m][..m - 1] == repeats[..m - 1];
    }
  }

  /** A bit all repeats agree on is what they say. */
  lemma {:induction false} AllAgree(repeats: seq<seq<bool>>, i: nat, x: bool)
    requires Headers(repeats) && i < HEADER_BITS && repeats != []
    requires forall j :: 0 <= j < |repeats| ==> repeats[j][i] == x
    ensures Says(Count(repeats, i), x)
  {
    AgainCounts(repeats, i, x, 0, |repeats|);
    assert repeats[..|repeats|] == repeats && repeats[..0] == [];
    AgainAlike(x, |repeats|);
  }

  lemma {:induction false} AgainAlike(x: bool, k: nat)
    requires k > 0
    ensures var q := Again(Poll(0, 0), x, k); q.ones == (if x then q.n else 0) && q.n > 0
  {
    if k > 1 {
      AgainAlike(x, k - 1);
    } else {
      AgainOnce(Poll(0, 0), x);
    }
  }

  // ---- the counts

  /** Each bit of x is set exactly if more than half of the votes of the repeats are for it. */
  ghost predicate Majority(x: seq<bool>, repeats: seq<seq<bool>>)
    requires Headers(repeats)
  {
    |x| == HEADER_BITS && forall i :: 0 <= i < HEADER_BITS ==> Says(Count(repeats, i), x[i])
  }

  ghost predicate Bounded(vote: seq<nat>, n: nat) {
    |vote| == HEADER_BITS && forall i :: 0 <= i < HEADER_BITS ==> vote[i] <= n
  }

  /** The counts kept are the polls of the repeats. */
  ghost predicate Tallied(vote: seq<nat>, n: nat, repeats: seq<seq<bool>>) {
    && Headers(repeats) && n <= VOTE_CAP && Bounded(vote, n)
    && forall i :: 0 <= i < HEADER_BITS ==> Count(repeats, i) == Poll(vote[i], n)
  }

  method Fold(vote: seq<nat>, x: seq<bool>, n: nat) returns (w: seq<nat>)
    requires |x| == HEADER_BITS && Bounded(vote, n)
    ensures Bounded(w, n + 1) && forall i :: 0 <= i < HEADER_BITS ==> w[i] == vote[i] + Val(x[i])
  {
    w := [];
    for i := 0 to HEADER_BITS
      invariant |w| == i && forall j :: 0 <= j < i ==> w[j] == vote[j] + Val(x[j])
    {
      w := w + [vote[i] + Val(x[i])];
    }
  }

  /** Counts halved if they were full, and one repeat more. */
  lemma OneMore(vote: seq<nat>, n: nat, repeats: seq<seq<bool>>, x: seq<bool>, w: seq<nat>)
    requires Tallied(vote, n, repeats) && |x| == HEADER_BITS && |w| == HEADER_BITS
    requires forall i :: 0 <= i < HEADER_BITS ==> w[i] == (if n >= VOTE_CAP then vote[i] / 2 else vote[i]) + Val(x[i])
    ensures Tallied(w, (if n >= VOTE_CAP then n / 2 else n) + 1, repeats + [x])
  {
    hide Count;
    forall i | 0 <= i < HEADER_BITS
      ensures Count(repeats + [x], i) == Poll(w[i], (if n >= VOTE_CAP then n / 2 else n) + 1)
    {
      CountSnoc(repeats, x, i);
    }
  }

  method Halve(vote: seq<nat>, n: nat) returns (w: seq<nat>)
    requires Bounded(vote, n)
    ensures Bounded(w, n / 2) && forall i :: 0 <= i < HEADER_BITS ==> w[i] == vote[i] / 2
  {
    w := [];
    for i := 0 to HEADER_BITS
      invariant |w| == i && forall j :: 0 <= j < i ==> w[j] == vote[j] / 2 <= n / 2
    {
      w := w + [vote[i] / 2];
    }
  }

  method Winner(vote: seq<nat>, n: nat, ghost repeats: seq<seq<bool>>) returns (x: seq<bool>)
    requires Tallied(vote, n, repeats)
    ensures Majority(x, repeats)
  {
    x := [];
    for i := 0 to HEADER_BITS
      invariant |x| == i && forall j :: 0 <= j < i ==> (x[j] <==> 2 * vote[j] > n)
    {
      x := x + [2 * vote[i] > n];
    }
  }

  // ---- reassembly

  ghost predicate Verified(h: seq<Byte>) {
    |h| == HEADER_BYTES && ChecksumRight(Flatten(h))
  }

  function NoVotes(): seq<nat> {
    seq(HEADER_BITS, _ => 0)
  }

  /** A whole unit u was taken: its data joined the header, and a header that became whole was
      judged. */
  ghost predicate Took(hdr: seq<Byte>, last: Option<seq<Byte>>, u: seq<Byte>, after: seq<Byte>, announced: Option<seq<Byte>>)
    requires |u| == 6 && |hdr| < HEADER_BYTES
  {
    var need := HEADER_BYTES - |hdr|;
    if need > 5 then after == hdr + u[1..] && announced == last
    else after == [] && (Verified(hdr + u[1..1 + need]) ==> announced == Some(hdr + u[1..1 + need]))
  }

  class SlowRx {
    var unit: seq<Byte>
    var hdr: seq<Byte>
    var vote: seq<nat>
    var voteN: nat
    var last: Option<seq<Byte>>           // the last header announced

    ghost var repeats: seq<seq<bool>>     // the corrupt headers since the last one that checked

    ghost predicate Valid()
      reads this
    {
      && (unit == [] || |unit| == 3) && |hdr| < HEADER_BYTES
      && Tallied(vote, voteN, repeats)
    }

    constructor ()
      ensures Valid() && last == None && repeats == []
    {
      unit, hdr, vote, voteN, last, repeats := [], [], NoVotes(), 0, None, [];
    }

    method Reset()
      requires Valid()
      modifies this`unit, this`hdr
      ensures Valid() && unit == [] && hdr == []
    {
      unit, hdr := [], [];
    }

    /** A header that does not check: fold it into the vote and try the majority. */
    method Elect(x: seq<bool>) returns (y: Option<seq<bool>>)
      requires Valid() && |x| == HEADER_BITS
      modifies this`vote, this`voteN, this`repeats
      ensures Valid() && repeats == old(repeats) + [x] && voteN > 0
      ensures y.Some? ==> |repeats| >= VOTE_MIN && Majority(y.value, repeats) && ChecksumRight(y.value)
      ensures y.None? ==> |repeats| < VOTE_MIN || forall z :: Majority(z, repeats) ==> !ChecksumRight(z)
    {
      hide ChecksumRight, Count;
      ghost var was, n := vote, voteN;
      if voteN >= VOTE_CAP {
        vote := Halve(vote, voteN);
        voteN := voteN / 2;
      }
      vote := Fold(vote, x, voteN);
      voteN := voteN + 1;
      OneMore(was, n, repeats, x, vote);
      repeats := repeats + [x];
      Votes(repeats, vote, voteN);
      if voteN < VOTE_MIN {
        return None;
      }
      var z := Winner(vote, voteN, repeats);
      var ok := Checksum(z);
      forall w | Majority(w, repeats)
        ensures w == z
      {
        OneMajority(w, z, repeats);
      }
      return if ok then Some(z) else None;
    }

    /** A whole header arrived: announce what checks, once. */
    method Judge(h: seq<Byte>) returns (found: Option<seq<Byte>>)
      requires Valid() && |h| == HEADER_BYTES
      modifies this`vote, this`voteN, this`repeats, this`last
      ensures Valid()
      ensures found.Some? ==> Verified(found.value)
      ensures found.Some? ==> last == found && last != old(last)
      ensures found.None? ==> last == old(last)
      ensures Verified(h) ==> last == Some(h) && repeats == []
    {
      hide ChecksumRight, Flatten, Chop, Count, Bounded;
      var x := Flatten(h);
      var ok := Checksum(x);
      var good := h;
      if !ok {
        var y := Elect(x);
        if y.None? {
          return None;
        }
        good := Chop(y.value);
        FlattenChop(y.value);
      }
      vote, voteN, repeats := NoVotes(), 0, [];
      NoCounts();
      if last == Some(good) {
        return None;
      }
      last := Some(good);
      return last;
    }

    /** A unit is complete: its five data bytes go where its place in the superframe says, whatever
        its type byte. */
    method Unit(u: seq<Byte>) returns (found: Option<seq<Byte>>)
      requires Valid() && |u| == 6
      modifies this`hdr, this`vote, this`voteN, this`repeats, this`last
      ensures Valid()
      ensures found.Some? ==> Verified(found.value) && last == found && last != old(last)
      ensures found.None? ==> last == old(last)
      ensures Took(old(hdr), old(last), u, hdr, last)
    {
      hide Verified, Flatten, Tallied, XorBytes;
      ghost var was := hdr;
      for i := 0 to 5
        invariant hdr == was + u[1..1 + if i < HEADER_BYTES - |was| then i else HEADER_BYTES - |was|]
        invariant unchanged(`unit) && unchanged(`vote) && unchanged(`voteN) && unchanged(`last)
        invariant unchanged(`repeats)
      {
        if |hdr| < HEADER_BYTES {
          hdr := hdr + [u[1 + i]];
        }
      }
      if |hdr| < HEADER_BYTES {
        return None;
      }
      var h := hdr;
      hdr := [];
      found := Judge(h);
    }

    /** The slow data of one frame. */
    method Feed(b: seq<Byte>, slot: nat) returns (found: Option<seq<Byte>>)
      requires Valid() && |b| == 3
      modifies this
      ensures Valid()
      ensures found.Some? ==> Verified(found.value) && last == found && last != old(last)
      ensures found.None? ==> last == old(last)
      ensures slot == 0 ==> unit == [] && hdr == [] && found == None
      ensures slot > 0 && old(unit) == [] ==> unit == XorBytes(b, SLOW_SCRAMBLE) && hdr == old(hdr) && found == None
      ensures slot > 0 && old(unit) != [] ==>
        unit == [] && Took(old(hdr), old(last), old(unit) + XorBytes(b, SLOW_SCRAMBLE), hdr, last)
    {
      hide Verified, Flatten, Tallied, XorBytes;
      if slot == 0 {
        Reset();
        return None;
      }
      unit := unit + XorBytes(b, SLOW_SCRAMBLE);
      if |unit| < 6 {
        return None;
      }
      var u := unit;
      unit := [];
      found := Unit(u);
    }
  }

  lemma NoCounts()
    ensures Tallied(NoVotes(), 0, [])
  {
  }

  /** There are three votes at least exactly if there were three repeats. */
  lemma Votes(repeats: seq<seq<bool>>, vote: seq<nat>, n: nat)
    requires Tallied(vote, n, repeats)
    ensures n >= VOTE_MIN <==> |repeats| >= VOTE_MIN
  {
    VotesOf(repeats);
  }

  lemma {:induction false} VotesOf(repeats: seq<seq<bool>>)
    requires Headers(repeats)
    ensures Count(repeats, 0).n >= VOTE_MIN <==> |repeats| >= VOTE_MIN
    ensures |repeats| <= VOTE_MIN ==> Count(repeats, 0).n == |repeats|
  {
    if repeats != [] {
      VotesOf(repeats[..|repeats| - 1]);
    }
  }

  lemma OneMajority(a: seq<bool>, b: seq<bool>, repeats: seq<seq<bool>>)
    requires Headers(repeats) && Majority(a, repeats) && Majority(b, repeats)
    ensures a == b
  {
    hide Count;
    forall i | 0 <= i < HEADER_BITS
      ensures a[i] == b[i]
    {
      assert Says(Count(repeats, i), a[i]) && Says(Count(repeats, i), b[i]);
    }
  }

  // ---- the round trip

  /** Undoing the scrambling gives the half of the unit that was sent. */
  lemma Descrambled(h: seq<Byte>, sync: seq<Byte>, encrypt: bool, slot: nat)
    requires |h| == HEADER_BYTES && |sync| == SYNC_BYTES && 0 < slot < SF_FRAMES
    ensures XorBytes(SlowBytes(h, sync, encrypt, slot), SLOW_SCRAMBLE) ==
            var u := SlowUnit(h, sync, encrypt, (slot - 1) / 2); if slot % 2 == 1 then u[..3] else u[3..]
  {
    hide SlowUnit, XorBytes;
    var u := SlowUnit(h, sync, encrypt, (slot - 1) / 2);
    if slot % 2 == 1 {
      XorBytesTwice(u[..3], SLOW_SCRAMBLE);
    } else {
      XorBytesTwice(u[3..], SLOW_SCRAMBLE);
    }
  }

  /** The data bytes of the first nine units are the header, and one more place of the ninth. */
  lemma UnitData(h: seq<Byte>, sync: seq<Byte>, encrypt: bool, unit: nat)
    requires |h| == HEADER_BYTES && |sync| == SYNC_BYTES && unit <= 8
    ensures var u := SlowUnit(h, sync, encrypt, unit);
      if unit < 8 then u[1..] == h[5 * unit..5 * unit + 5] else u[1..2] == h[40..]
  {
    var u := SlowUnit(h, sync, encrypt, unit);
    if unit < 8 {
      assert u[1..] == h[5 * unit..5 * unit + 5];
    } else {
      assert u[1] == h[40];
    }
  }

  /** What a receiver holds after a slot of a superframe. */
  ghost predicate Placed(unit: seq<Byte>, hdr: seq<Byte>, h: seq<Byte>, sync: seq<Byte>, encrypt: bool, slot: nat)
    requires |h| == HEADER_BYTES && |sync| == SYNC_BYTES && slot < SF_FRAMES
  {
    && unit == (if slot % 2 == 1 then SlowUnit(h, sync, encrypt, (slot - 1) / 2)[..3] else [])
    && (slot < 18 ==> hdr == h[..5 * (slot / 2)])
    && (18 <= slot < 20 ==> hdr == [])
  }

  /** The next frame of a superframe, fed to the receiver. */
  method NextSlot(rx: SlowRx, h: seq<Byte>, sync: seq<Byte>, encrypt: bool, slot: nat) returns (found: Option<seq<Byte>>)
    requires rx.Valid() && |h| == HEADER_BYTES && |sync| == SYNC_BYTES && slot < SF_FRAMES
    requires slot > 0 ==> Placed(rx.unit, rx.hdr, h, sync, encrypt, slot - 1)
    modifies rx
    ensures rx.Valid() && Placed(rx.unit, rx.hdr, h, sync, encrypt, slot)
    ensures slot == 18 && Verified(h) ==> rx.last == Some(h)
    ensures slot != 18 ==> rx.last == old(rx.last)
    ensures found == if rx.last == old(rx.last) then None else rx.last
  {
    hide Verified, SlowUnit, SlowBytes, XorBytes, Tallied;
    ghost var u := SlowUnit(h, sync, encrypt, if slot == 0 then 0 else (slot - 1) / 2);
    if slot > 0 {
      Descrambled(h, sync, encrypt, slot);
      if slot <= 18 {
        UnitData(h, sync, encrypt, (slot - 1) / 2);
      }
      assert u[..3] + u[3..] == u;
      assert slot % 2 == 0 ==> slot / 2 == (slot - 1) / 2 + 1 && (slot - 2) / 2 == (slot - 1) / 2;
      assert slot % 2 == 1 ==> slot / 2 == (slot - 1) / 2;
    }
    found := rx.Feed(SlowBytes(h, sync, encrypt, slot), slot);
    if slot == 18 {
      assert h[..40] + u[1..2] == h;
    }
  }

  /** A superframe whose data sync was seen: whatever the receiver held before, its reassembly is
      the transmitter's header, announced once if it is new. */
  method Superframe(rx: SlowRx, h: seq<Byte>, sync: seq<Byte>, encrypt: bool) returns (found: Option<seq<Byte>>)
    requires rx.Valid() && Verified(h) && |sync| == SYNC_BYTES
    modifies rx
    ensures rx.Valid() && rx.last == Some(h)
    ensures found == if old(rx.last) == Some(h) then None else Some(h)
  {
    hide Verified, Placed;
    var was := rx.last;
    assert |h| == HEADER_BYTES by { VerifiedLength(h); }
    found := None;
    for slot := 0 to SF_FRAMES
      invariant rx.Valid()
      invariant slot > 0 ==> Placed(rx.unit, rx.hdr, h, sync, encrypt, slot - 1)
      invariant rx.last == if slot <= 18 then was else Some(h)
      invariant found == if rx.last == was then None else rx.last
    {
      var f := NextSlot(rx, h, sync, encrypt, slot);
      if f.Some? {
        found := f;
      }
    }
  }

  lemma VerifiedLength(h: seq<Byte>)
    requires Verified(h)
    ensures |h| == HEADER_BYTES
  {
  }
}
