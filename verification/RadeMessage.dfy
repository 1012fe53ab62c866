/** The RADE signalling message, the sign masks that undo a change of index, and the combining of
    the soft bits of consecutive messages. */
module RadeMessage {
  import opened Bits
  import opened GrayCode
  import opened Crc16
  import opened RadeCode
  import opened VoiceCrypto
  import RadeDistance

  const J_BITS := 12
  const J_COUNT := 4096
  const CHECK_BITS := 20
  const BODY_BITS := NONCE_BITS + J_BITS + CHECK_BITS
  const GRAY_BIT0 := 59      // the message bit of gray(j)'s bit 0
  const COMBINE := 4         // messages combined, at most

  type Check = c: seq<bool> | |c| == CHECK_BITS witness Zeros(CHECK_BITS)
  type Coded = c: seq<bool> | |c| == CODED_BITS witness Zeros(CODED_BITS)
  type Soft = s: seq<real> | |s| == CODED_BITS witness seq(CODED_BITS, _ => 0.0)

  const ONES: Register :=
    [true, true, true, true, true, true, true, true, true, true, true, true, true, true, true, true]
  const ZERO: Register := Zeros(16)

  /** The nonce, the index in Gray code and the keyed check. */
  function Body(r: Nonce, j: nat, chk: Check): (b: seq<bool>)
    ensures |b| == BODY_BITS
  {
    r + Field(Gray(j), J_BITS) + chk
  }

  function Message(r: Nonce, j: nat, chk: Check): (m: seq<bool>)
    ensures |m| == MSG_BITS
  {
    Body(r, j, chk) + Crc(ONES, Body(r, j, chk))
  }

  /** Where everything is in a message: the nonce in bits 0 to 47, the Gray code of the index from its high bit down
      in bits 48 to 59, the check in bits 60 to 79, and the CRC of those, begun with ones, in the last sixteen. */
  lemma MessageLayout(r: Nonce, j: nat, chk: Check)
    ensures var m := Message(r, j, chk);
      && (forall i :: 0 <= i < 48 ==> m[i] == r[i])
      && (forall i :: 48 <= i < 60 ==> m[i] == BitAt(Gray(j), 59 - i))
      && (forall i :: 60 <= i < 80 ==> m[i] == chk[i - 60])
      && m[80..] == Crc(ONES, m[..80])
  {
    hide Crc, Gray, BitAt;
    var m := Message(r, j, chk);
    assert m[..80] == Body(r, j, chk);
    forall i | 48 <= i < 60
      ensures m[i] == BitAt(Gray(j), 59 - i)
    {
      FieldBit(Gray(j), 12, i - 48);
    }
  }

  // ---- one step of the index

  /** Body bit p alone. */
  function Unit(p: nat): (b: seq<bool>)
    ensures |b| == BODY_BITS
  {
    seq(BODY_BITS, i => i == p)
  }

  /** The message difference of flipping Gray bit t: that bit, and the CRC's linear part. */
  function FlipDifference(t: nat): (d: seq<bool>)
    requires t < J_BITS
    ensures |d| == MSG_BITS
  {
    Unit(GRAY_BIT0 - t) + Crc(ZERO, Unit(GRAY_BIT0 - t))
  }

  /** The coded difference of flipping Gray bit t: the set bits are the signs to turn. */
  function FlipMask(t: nat): Coded
    requires t < J_BITS
  {
    Codeword(FlipDifference(t))
  }

  lemma CountOfJ()
    ensures J_COUNT == Pow2(J_BITS)
  {
    assert Pow2(12) == 16 * Pow2(8) && Pow2(8) == 16 * Pow2(4);
  }

  lemma BodyStep(r: Nonce, j: nat, chk: Check)
    requires 0 < j < J_COUNT
    ensures Tz(j) < J_BITS
    ensures Xor(Body(r, j, chk), Body(r, j - 1, chk)) == Unit(GRAY_BIT0 - Tz(j))
  {
    hide Gray, Tz, Field, BitAt, Pow2;
    CountOfJ();
    TzBound(j, J_BITS);
    forall i | 0 <= i < BODY_BITS
      ensures (Body(r, j, chk)[i] != Body(r, j - 1, chk)[i]) == (i == GRAY_BIT0 - Tz(j))
    {
      if NONCE_BITS <= i < NONCE_BITS + J_BITS {
        FieldBit(Gray(j), J_BITS, i - NONCE_BITS);
        FieldBit(Gray(j - 1), J_BITS, i - NONCE_BITS);
        GrayStep(j, GRAY_BIT0 - i);
      }
    }
  }

  /** Consecutive messages differ by the flip of one Gray bit and what the CRC makes of it. */
  lemma MessageStep(r: Nonce, j: nat, chk: Check)
    requires 0 < j < J_COUNT
    ensures Tz(j) < J_BITS
    ensures Xor(Message(r, j, chk), Message(r, j - 1, chk)) == FlipDifference(Tz(j))
  {
    BodyStep(r, j, chk);
    hide Body, Crc;
    var b, a := Body(r, j, chk), Body(r, j - 1, chk);
    CrcXor(ONES, ONES, b, a);
    assert Xor(ONES, ONES) == ZERO;
  }

  /** The mask maps the code word of one message onto that of the one before. */
  lemma MaskStep(r: Nonce, j: nat, chk: Check)
    requires 0 < j < J_COUNT
    ensures Tz(j) < J_BITS
    ensures Codeword(Message(r, j - 1, chk)) == Xor(Codeword(Message(r, j, chk)), FlipMask(Tz(j)))
  {
    MessageStep(r, j, chk);
    hide Message, Codeword, FlipDifference;
    var m, p := Message(r, j, chk), Message(r, j - 1, chk);
    CodewordXor(m, p);
    XorSelfInverse(Codeword(p), Codeword(m));
    XorSelfInverse(Codeword(m), Codeword(p));
  }

  // ---- combining

  /** t[n] is the Gray bit that flips between messages j - n and j - n - 1. */
  ghost predicate Pattern(t: seq<nat>, j: nat) {
    |t| <= j < J_COUNT && forall n :: 0 <= n < |t| ==> t[n] == Tz(j - n)
  }

  predicate Flips(t: seq<nat>) {
    forall n :: 0 <= n < |t| ==> t[n] < J_BITS
  }

  /** The product of the masks of t. */
  function Mask(t: seq<nat>): Coded
    requires Flips(t)
  {
    if t == [] then Zeros(CODED_BITS) else Xor(Mask(t[..|t| - 1]), FlipMask(t[|t| - 1]))
  }

  lemma PatternFlips(t: seq<nat>, j: nat)
    requires Pattern(t, j)
    ensures Flips(t)
  {
    hide Tz, Pow2;
    CountOfJ();
    forall n | 0 <= n < |t|
      ensures t[n] < J_BITS
    {
      TzBound(j - n, J_BITS);
    }
  }

  lemma PatternPrefix(t: seq<nat>, j: nat)
    requires Pattern(t, j)
    ensures |t| <= j < J_COUNT
    ensures t != [] ==> Pattern(t[..|t| - 1], j) && t[|t| - 1] == Tz(j - (|t| - 1))
  {
    hide Tz;
  }

  /** The product of the masks maps the code word of message j onto that of message j - n. */
  lemma {:induction false} MasksMap(r: Nonce, j: nat, chk: Check, t: seq<nat>)
    requires Pattern(t, j)
    ensures Flips(t)
    ensures Codeword(Message(r, j - |t|, chk)) == Xor(Codeword(Message(r, j, chk)), Mask(t))
  {
    hide Message, Codeword, FlipMask, Pattern, Tz, Mask, Flips;
    PatternFlips(t, j);
    PatternPrefix(t, j);
    if t == [] {
      MaskSnoc(t);
      XorZeros(Codeword(Message(r, j, chk)));
    } else {
      var n := |t| - 1;
      MasksMap(r, j, chk, t[..n]);
      OneMoreMask(r, j, chk, t, Codeword(Message(r, j, chk)), Codeword(Message(r, j - n, chk)));
    }
  }

  lemma OneMoreMask(r: Nonce, j: nat, chk: Check, t: seq<nat>, c: Coded, d: Coded)
    requires t != [] && |t| <= j < J_COUNT && Flips(t) && t[|t| - 1] == Tz(j - (|t| - 1))
    requires d == Codeword(Message(r, j - (|t| - 1), chk)) && d == Xor(c, Mask(t[..|t| - 1]))
    ensures Codeword(Message(r, j - |t|, chk)) == Xor(c, Mask(t))
  {
    hide Message, Codeword, FlipMask, Tz, Mask;
    var n := |t| - 1;
    MaskSnoc(t);
    MaskStep(r, j - n, chk);
    XorAssoc(c, Mask(t[..n]), FlipMask(t[n]));
  }

  lemma XorZeros(a: Coded)
    ensures Xor(a, Zeros(CODED_BITS)) == a
  {
  }

  lemma MaskSnoc(t: seq<nat>)
    requires Flips(t)
    ensures t == [] ==> Mask(t) == Zeros(CODED_BITS)
    ensures t != [] ==> Mask(t) == Xor(Mask(t[..|t| - 1]), FlipMask(t[|t| - 1]))
  {
    hide FlipMask;
  }

  lemma XorAssoc(a: seq<bool>, b: seq<bool>, c: seq<bool>)
    requires |a| == |b| == |c|
    ensures Xor(Xor(a, b), c) == Xor(a, Xor(b, c))
  {
  }

  /** Soft bit i of the messages v, all turned to the signs of the newest, v[0]. */
  function CombinedBit(v: seq<Soft>, t: seq<nat>, i: nat): real
    requires |v| == |t| + 1 && Flips(t) && i < CODED_BITS
    decreases |t|
  {
    if t == [] then v[0][i]
    else CombinedBit(v[..|t|], t[..|t| - 1], i) + Signed(Mask(t)[i], v[|t|][i])
  }

  function Combined(v: seq<Soft>, t: seq<nat>): Soft
    requires |v| == |t| + 1 && Flips(t)
  {
    seq(CODED_BITS, i requires 0 <= i < CODED_BITS => CombinedBit(v, t, i))
  }

  /** The receiver's accumulation, mask after mask. */
  method Combine(v: seq<Soft>, t: seq<nat>) returns (acc: Soft)
    requires |v| == |t| + 1 && Flips(t)
    ensures acc == Combined(v, t)
  {
    hide FlipMask;
    acc := v[0];
    var mask: Coded := Zeros(CODED_BITS);
    assert v[..1] == [v[0]];
    for n := 1 to |t| + 1
      invariant mask == Mask(t[..n - 1])
      invariant acc == Combined(v[..n], t[..n - 1])
    {
      assert t[..n][..n - 1] == t[..n - 1] && v[..n + 1][..n] == v[..n];
      mask := Xor(mask, FlipMask(t[n - 1]));
      acc := seq(CODED_BITS, i requires 0 <= i < CODED_BITS => acc[i] + Signed(mask[i], v[n][i]));
    }
    assert v[..|t| + 1] == v && t[..|t|] == t;
  }

  /** The correlations of messages j, j - 1, ... with the soft bits of each. */
  ghost function JointCorr(r: Nonce, j: nat, chk: Check, v: seq<Soft>): real
    requires |v| <= j + 1
  {
    if v == [] then 0.0
    else JointCorr(r, j, chk, v[..|v| - 1]) + Corr(Codeword(Message(r, j - (|v| - 1), chk)), v[|v| - 1])
  }

  lemma {:induction false} CorrAdd(c: seq<bool>, m: seq<bool>, a: seq<real>, b: seq<real>, s: seq<real>)
    requires |c| == |m| && |c| <= |a| && |c| <= |b| && |c| <= |s|
    requires forall i :: 0 <= i < |c| ==> s[i] == a[i] + Signed(m[i], b[i])
    ensures Corr(c, s) == Corr(c, a) + Corr(Xor(c, m), b)
  {
    if c != [] {
      var n := |c| - 1;
      CorrAdd(c[..n], m[..n], a, b, s);
      assert Xor(c, m)[..n] == Xor(c[..n], m[..n]);
    }
  }

  lemma CombinedStep(v: seq<Soft>, t: seq<nat>)
    requires |v| == |t| + 1 && Flips(t) && t != []
    ensures var n := |t|; var before := Combined(v[..n], t[..n - 1]);
            forall i :: 0 <= i < CODED_BITS ==> Combined(v, t)[i] == before[i] + Signed(Mask(t)[i], v[n][i])
  {
    hide Mask;
  }

  /** Combining is exact: against the combined soft bits the code word of message j correlates as
      all the messages together do with what was received of each, whatever that was. */
  lemma {:induction false} CombiningExact(r: Nonce, j: nat, chk: Check, v: seq<Soft>, t: seq<nat>)
    requires |v| == |t| + 1 && Pattern(t, j)
    ensures Flips(t)
    ensures Corr(Codeword(Message(r, j, chk)), Combined(v, t)) == JointCorr(r, j, chk, v)
  {
    hide Message, Codeword, Corr, Mask, JointCorr, Combined, FlipMask, Pattern, Flips, Xor;
    PatternFlips(t, j);
    PatternPrefix(t, j);
    JointStep(r, j, chk, v);
    var n := |t|;
    if n == 0 {
      CombinedOne(v, t);
    } else {
      CombiningExact(r, j, chk, v[..n], t[..n - 1]);
      MasksMap(r, j, chk, t);
      CorrCombined(Codeword(Message(r, j, chk)), v, t);
    }
  }

  lemma CorrCombined(c: Coded, v: seq<Soft>, t: seq<nat>)
    requires |v| == |t| + 1 && Flips(t) && t != []
    ensures var n := |t|; Corr(c, Combined(v, t)) == Corr(c, Combined(v[..n], t[..n - 1])) + Corr(Xor(c, Mask(t)), v[n])
  {
    hide Corr, Mask, Combined, Xor;
    var n := |t|;
    CombinedStep(v, t);
    CorrAdd(c, Mask(t), Combined(v[..n], t[..n - 1]), v[n], Combined(v, t));
  }

  lemma JointStep(r: Nonce, j: nat, chk: Check, v: seq<Soft>)
    requires 1 <= |v| <= j + 1
    ensures var n := |v| - 1;
            JointCorr(r, j, chk, v) == JointCorr(r, j, chk, v[..n]) + Corr(Codeword(Message(r, j - n, chk)), v[n])
    ensures JointCorr(r, j, chk, []) == 0.0
    ensures |v| == 1 ==> v[..0] == []
  {
  }

  lemma CombinedOne(v: seq<Soft>, t: seq<nat>)
    requires |v| == 1 && t == []
    ensures Combined(v, t) == v[0]
  {
  }

  /** Every message was received with no wrong sign. */
  ghost predicate AllClean(r: Nonce, j: nat, chk: Check, v: seq<Soft>) {
    && |v| <= j + 1
    && forall n :: 0 <= n < |v| ==> RadeDistance.RightSigns(Codeword(Message(r, j - n, chk)), v[n])
  }

  lemma TurnedSum(c: bool, m: bool, a: real, b: real)
    ensures Signed(c, a + Signed(m, b)) == Signed(c, a) + Signed(c != m, b)
    ensures Signed(c != m, b) == 0.0 <==> b == 0.0
  {
  }

  /** Bit i of message j - n, received as s, has no wrong sign. */
  ghost predicate CleanAt(r: Nonce, j: nat, chk: Check, n: nat, s: Soft, i: nat)
    requires n <= j && i < CODED_BITS
  {
    Signed(Codeword(Message(r, j - n, chk))[i], s[i]) >= 0.0
  }

  /** No message of v has a wrong sign in bit i. */
  ghost predicate CleanBits(r: Nonce, j: nat, chk: Check, v: seq<Soft>, i: nat) {
    |v| <= j + 1 && i < CODED_BITS && forall n :: 0 <= n < |v| ==> CleanAt(r, j, chk, n, v[n], i)
  }

  /** Every message of v has bit i erased. */
  ghost predicate ErasedBits(v: seq<Soft>, i: nat)
    requires i < CODED_BITS
  {
    forall n :: 0 <= n < |v| ==> v[n][i] == 0.0
  }

  lemma CleanBitsSnoc(r: Nonce, j: nat, chk: Check, v: seq<Soft>, i: nat)
    requires CleanBits(r, j, chk, v, i) && v != []
    ensures var n := |v| - 1; CleanBits(r, j, chk, v[..n], i) && CleanAt(r, j, chk, n, v[n], i)
    ensures var n := |v| - 1; ErasedBits(v[..n], i) && v[n][i] == 0.0 ==> ErasedBits(v, i)
  {
    hide CleanAt;
    var n := |v| - 1;
    assert forall m :: 0 <= m < n ==> v[..n][m] == v[m];
  }

  lemma ErasedNone(i: nat)
    requires i < CODED_BITS
    ensures ErasedBits([], i)
  {
  }

  /** Combined, clean messages stay clean, and a bit is erased only if every message erased it. */
  lemma {:induction false} CombinedClean(r: Nonce, j: nat, chk: Check, v: seq<Soft>, t: seq<nat>, i: nat)
    requires |v| == |t| + 1 && Pattern(t, j) && i < CODED_BITS && CleanBits(r, j, chk, v, i)
    ensures Flips(t)
    ensures var s := Signed(Codeword(Message(r, j, chk))[i], Combined(v, t)[i]); s >= 0.0 && (s == 0.0 ==> ErasedBits(v, i))
  {
    hide Message, Codeword, Mask, Combined, Signed, Pattern, Xor, CleanBits, ErasedBits, Flips;
    PatternFlips(t, j);
    PatternPrefix(t, j);
    var n := |t|;
    CleanBitsSnoc(r, j, chk, v, i);
    var c := Codeword(Message(r, j, chk))[i];
    if n == 0 {
      CombinedOne(v, t);
      TurnedSum(c, false, 0.0, v[0][i]);
      assert v[..0] == [];
      ErasedNone(i);
    } else {
      CombinedClean(r, j, chk, v[..n], t[..n - 1], i);
      MaskBit(r, j, chk, t, i);
      CombinedBitStep(v, t, i);
      TurnedSum(c, Mask(t)[i], Combined(v[..n], t[..n - 1])[i], v[n][i]);
    }
  }

  lemma MaskBit(r: Nonce, j: nat, chk: Check, t: seq<nat>, i: nat)
    requires Pattern(t, j) && i < CODED_BITS
    ensures Flips(t)
    ensures Codeword(Message(r, j - |t|, chk))[i] == (Codeword(Message(r, j, chk))[i] != Mask(t)[i])
  {
    hide Message, Codeword, Mask, Pattern;
    MasksMap(r, j, chk, t);
  }

  lemma CombinedBitStep(v: seq<Soft>, t: seq<nat>, i: nat)
    requires |v| == |t| + 1 && Flips(t) && t != [] && i < CODED_BITS
    ensures Combined(v, t)[i] == Combined(v[..|t|], t[..|t| - 1])[i] + Signed(Mask(t)[i], v[|t|][i])
  {
    hide Mask, Combined;
    CombinedStep(v, t);
  }

  lemma AllCleanAt(r: Nonce, j: nat, chk: Check, v: seq<Soft>, i: nat)
    requires AllClean(r, j, chk, v) && i < CODED_BITS
    ensures CleanBits(r, j, chk, v, i)
  {
    hide Message, Codeword;
  }

  /** Without noise the combined messages decode to the newest, if one of them lost fewer than
      ten bits. */
  lemma CombinedDecodes(msg: seq<bool>, r: Nonce, j: nat, chk: Check, v: seq<Soft>, t: seq<nat>, n: nat)
    requires |v| == |t| + 1 && Pattern(t, j) && AllClean(r, j, chk, v)
    requires n < |v| && Weight(RadeDistance.Erased(v[n])) < 10
    requires Flips(t) && |msg| == MSG_BITS && MaximumLikelihood(msg, Combined(v, t))
    ensures msg == Message(r, j, chk)
  {
    hide Message, Codeword, MaximumLikelihood, Combined, Weight;
    var s := Combined(v, t);
    forall i | 0 <= i < CODED_BITS
      ensures Signed(Codeword(Message(r, j, chk))[i], s[i]) >= 0.0
      ensures s[i] == 0.0 ==> v[n][i] == 0.0
    {
      AllCleanAt(r, j, chk, v, i);
      CombinedClean(r, j, chk, v, t, i);
    }
    WeightMonotone(RadeDistance.Erased(s), RadeDistance.Erased(v[n]));
    RadeDistance.DecodesClean(msg, Message(r, j, chk), s);
  }

  // ---- the search over patterns, and what it accepts

  /** The patterns of flips the receiver tries: those tz can make of consecutive integers. */
  predicate Tried(t: seq<nat>) {
    && 1 <= |t| < COMBINE && Flips(t)
    && (forall n :: 0 <= n < |t| - 1 ==> (t[n] == 0) != (t[n + 1] == 0))
    && (|t| == 3 && t[1] == 0 ==> t[0] == 1 || t[2] == 1)
  }

  /** The pruning never drops the true pattern. */
  lemma TruePatternTried(t: seq<nat>, j: nat)
    requires Pattern(t, j) && 1 <= |t| < COMBINE
    ensures Tried(t)
  {
    PatternFlips(t, j);
    hide Tz;
    forall n | 0 <= n < |t| - 1
      ensures (t[n] == 0) != (t[n + 1] == 0)
    {
      TzOdd(j - n);
      TzOdd(j - (n + 1));
    }
    if |t| == 3 && t[1] == 0 {
      TzOdd(j - 1);
      EvenPair(j - 2);
    }
  }

  lemma TzOdd(j: nat)
    requires j > 0
    ensures Tz(j) == 0 <==> j % 2 == 1
  {
  }

  lemma EvenPair(i: nat)
    requires i > 0 && i % 2 == 0
    ensures Tz(i) == 1 || Tz(i + 2) == 1
  {
    assert (i + 2) / 2 == i / 2 + 1;
  }

  function NonceOf(msg: seq<bool>): Nonce
    requires |msg| == MSG_BITS
  {
    msg[..NONCE_BITS]
  }

  function CheckOf(msg: seq<bool>): Check
    requires |msg| == MSG_BITS
  {
    msg[NONCE_BITS + J_BITS..BODY_BITS]
  }

  /** The index of a decoded message: its CRC must check, and the index must fit the flips it was
      combined with. */
  method Index(msg: seq<bool>, t: seq<nat>) returns (j: Option<nat>)
    requires |msg| == MSG_BITS
    ensures j.Some? ==> Pattern(t, j.value) && msg == Message(NonceOf(msg), j.value, CheckOf(msg))
    ensures forall i: nat :: Pattern(t, i) && msg == Message(NonceOf(msg), i, CheckOf(msg)) ==> j == Some(i)
  {
    hide Tz, Crc, Message, Number, Ungray, Gray;
    var c := CrcFrom(ONES, msg[..BODY_BITS]);
    FieldsOf(msg);
    if msg[BODY_BITS..] != c {
      return None;
    }
    var g := Number(msg[NONCE_BITS..NONCE_BITS + J_BITS]);
    var i := ToBinary(g);
    if i >= J_COUNT {
      return None;
    }
    for n := 0 to |t|
      invariant n <= i && forall k :: 0 <= k < n ==> t[k] == Tz(i - k)
    {
      if i < n + 1 || Tz(i - n) != t[n] {
        return None;
      }
    }
    return Some(i);
  }

  /** A message whose CRC checks is the message of its own fields, and of no other index. */
  lemma FieldsOf(msg: seq<bool>)
    requires |msg| == MSG_BITS
    ensures var g := Number(msg[NONCE_BITS..NONCE_BITS + J_BITS]);
            && Ungray(g) < J_COUNT
            && (msg[BODY_BITS..] == Crc(ONES, msg[..BODY_BITS]) ==>
                  msg == Message(NonceOf(msg), Ungray(g), CheckOf(msg)))
            && (forall i: nat :: i < J_COUNT && msg == Message(NonceOf(msg), i, CheckOf(msg)) ==>
                  i == Ungray(g) && msg[BODY_BITS..] == Crc(ONES, msg[..BODY_BITS]))
  {
    var f := msg[NONCE_BITS..NONCE_BITS + J_BITS];
    var g := Number(f);
    assert Pow2(12) == J_COUNT;
    FieldNumber(f);
    UngrayBound(g, J_BITS);
    GrayUngray(g);
    hide Crc, Gray, Ungray, Number, Field, Pow2;
    assert msg[..BODY_BITS] == NonceOf(msg) + f + CheckOf(msg);
    forall i: nat | i < J_COUNT && msg == Message(NonceOf(msg), i, CheckOf(msg))
      ensures i == Ungray(g) && msg[BODY_BITS..] == Crc(ONES, msg[..BODY_BITS])
    {
      assert msg[..BODY_BITS] == Body(NonceOf(msg), i, CheckOf(msg));
      assert f == Field(Gray(i), J_BITS);
      GrayBound(i, J_BITS);
      NumberField(Gray(i), J_BITS);
      UngrayGray(i);
    }
  }
}
