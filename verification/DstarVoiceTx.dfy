/** The D-STAR voice transmitter: the header, the slow data that repeats it, and the encryption of
    the voice bits. Bytes are strings of eight bits, the least significant first. */
module DstarVoiceTx {
  import opened Bits
  import opened GrayCode
  import opened VoiceCrypto
  import opened DstarFec
  import opened DstarHeader
  import opened DstarQueue

  const AMBE_BITS := 49
  const SPARE_BIT := 24
  const SF_FRAMES := 21             // frames of a superframe
  const SYNC_BYTES := 9
  const AMBE_BYTES := 9
  const SF_COUNT := 65536           // the sync block's 16-bit counter
  const SYNC_UNIT_A := 8
  const SYNC_UNIT_B := 9
  const HDR_R := 3                  // the nonce in the header
  const HDR_CHECK := 9              // its keyed check
  const HDR_CHECK_BYTES := 8
  const NONCE_BYTES := 6

  // ---- bytes

  function Backwards(b: Byte): Byte {
    [b[7], b[6], b[5], b[4], b[3], b[2], b[1], b[0]]
  }

  /** The low eight bits of a number. */
  function ByteOf(n: nat): Byte {
    Backwards(Field(n, 8))
  }

  function ValueOf(b: Byte): nat {
    Number(Backwards(b))
  }

  lemma ByteValue(n: nat)
    requires n < 256
    ensures ValueOf(ByteOf(n)) == n
  {
    hide Field, Number;
    assert n < Pow2(8) by {
      assert Pow2(8) == 16 * Pow2(4);
    }
    NumberField(n, 8);
    assert Backwards(ByteOf(n)) == Field(n, 8);
  }

  /** A number with two more bits. */
  lemma NumberPair(f: seq<bool>)
    ensures Number([]) == 0
    ensures |f| >= 2 ==> Number(f) == 4 * Number(f[..|f| - 2]) + 2 * Val(f[|f| - 2]) + Val(f[|f| - 1])
  {
    if |f| >= 2 {
      assert f[..|f| - 1][..|f| - 2] == f[..|f| - 2];
    }
  }

  lemma ValueBound(b: Byte)
    ensures ValueOf(b) < 256
  {
    hide Number;
    FieldNumber(Backwards(b));
    assert Pow2(8) == 16 * Pow2(4);
  }

  function XorBytes(a: seq<Byte>, b: seq<Byte>): (c: seq<Byte>)
    requires |a| == |b|
    ensures |c| == |a|
  {
    seq(|a|, i requires 0 <= i < |a| => Xor(a[i], b[i]))
  }

  lemma XorBytesTwice(a: seq<Byte>, b: seq<Byte>)
    requires |a| == |b|
    ensures XorBytes(XorBytes(a, b), b) == a
  {
    forall i | 0 <= i < |a|
      ensures XorBytes(XorBytes(a, b), b)[i] == a[i]
    {
      XorSelfInverse(a[i], b[i]);
    }
  }

  /** The first n bytes of a keystream block, whose bits are in the order the voice uses them: the
      most significant of each byte first. */
  function BlockBytes(k: Block, n: nat): (b: seq<Byte>)
    requires 8 * n <= BLOCK_BITS
    ensures |b| == n
  {
    seq(n, i requires 0 <= i < n => Backwards(k[8 * i..8 * i + 8]))
  }

  function NonceBytes(r: Nonce): (b: seq<Byte>)
    ensures |b| == NONCE_BYTES
  {
    Chop(r)
  }

  /** The sync block's keyed check. */
  function SyncCheckOf(keys: KeyStore, r: Nonce, sf: nat): Option<Byte> {
    match keys(SyncCheck, r, sf)
    case None => None
    case Some(k) => Some(BlockBytes(k, 1)[0])
  }

  /** The header's keyed check. */
  function HeaderCheckOf(keys: KeyStore, r: Nonce): (c: Option<seq<Byte>>)
    ensures c.Some? ==> |c.value| == HDR_CHECK_BYTES
  {
    match keys(HeaderCheck, r, 0)
    case None => None
    case Some(k) => Some(BlockBytes(k, HDR_CHECK_BYTES))
  }

  /** A byte's bits, the least significant first. */
  lemma ByteBits(b: Byte)
    ensures ValueOf(b) == Val(b[0]) + 2 * Val(b[1]) + 4 * Val(b[2]) + 8 * Val(b[3]) + 16 * Val(b[4]) + 32 * Val(b[5])
                          + 64 * Val(b[6]) + 128 * Val(b[7])
  {
    hide Number;
    NumberPair([]);
    var f := Backwards(b);
    NumberPair(f[..2]);
    NumberPair(f[..4]);
    NumberPair(f[..6]);
    NumberPair(f);
    assert f[..2][..0] == [] && f[..4][..2] == f[..2] && f[..6][..4] == f[..4] && f[..|f| - 2] == f[..6];
    assert f[..2] == [b[7], b[6]] && f[..4] == [b[7], b[6], b[5], b[4]] && f[..6] == [b[7], b[6], b[5], b[4], b[3], b[2]];
  }

  /** Byte i of a block has the block's bit 8 i as its most significant bit. */
  lemma BlockByte(k: Block, n: nat, i: nat)
    requires 8 * n <= BLOCK_BITS && i < n
    ensures forall j :: 0 <= j < 8 ==> BlockBytes(k, n)[i][j] == k[8 * i + 7 - j]
  {
    var part := k[8 * i..8 * i + 8];
    assert BlockBytes(k, n)[i] == [part[7], part[6], part[5], part[4], part[3], part[2], part[1], part[0]];
  }

  /** The check of superframe sf is the first byte of its own block, the header's check the first eight of block 0. */
  lemma KeyedChecks(keys: KeyStore, r: Nonce, sf: nat)
    ensures SyncCheckOf(keys, r, sf).Some? <==> keys(SyncCheck, r, sf).Some?
    ensures SyncCheckOf(keys, r, sf).Some? ==>
      forall j :: 0 <= j < 8 ==> SyncCheckOf(keys, r, sf).value[j] == keys(SyncCheck, r, sf).value[7 - j]
    ensures HeaderCheckOf(keys, r).Some? <==> keys(HeaderCheck, r, 0).Some?
    ensures HeaderCheckOf(keys, r).Some? ==> HeaderCheckOf(keys, r).value == BlockBytes(keys(HeaderCheck, r, 0).value, 8)
  {
    if keys(SyncCheck, r, sf).Some? {
      BlockByte(keys(SyncCheck, r, sf).value, 1, 0);
    }
  }

  // ---- voice

  /** The voice bits with a frame's keystream on them, the spare bit left alone. */
  function Masked(d: seq<bool>, k: Block): (m: seq<bool>)
    requires |d| == AMBE_BITS
    ensures |m| == AMBE_BITS
  {
    seq(AMBE_BITS, i requires 0 <= i < AMBE_BITS => if i == SPARE_BIT then d[i] else d[i] != k[i])
  }

  /** A bit is flipped exactly where the keystream's bit is set, and bit 24 never. */
  lemma MaskedBits(d: seq<bool>, k: Block, i: nat)
    requires |d| == AMBE_BITS && i < 49
    ensures Masked(d, k)[i] != d[i] <==> i != 24 && k[i]
  {
  }

  /** Two blocks make the same of a voice frame exactly if they agree on bits 0 to 48 other than 24. */
  lemma MaskedSame(d: seq<bool>, k: Block, k': Block)
    requires |d| == AMBE_BITS
    ensures Masked(d, k) == Masked(d, k') <==> forall i :: 0 <= i < 49 && i != 24 ==> k[i] == k'[i]
  {
    hide Masked;
    if Masked(d, k) == Masked(d, k') {
      forall i | 0 <= i < 49 && i != 24
        ensures k[i] == k'[i]
      {
        MaskedBits(d, k, i);
        MaskedBits(d, k', i);
      }
    }
    if forall i :: 0 <= i < 49 && i != 24 ==> k[i] == k'[i] {
      forall i | 0 <= i < 49
        ensures Masked(d, k)[i] == Masked(d, k')[i]
      {
        MaskedBits(d, k, i);
        MaskedBits(d, k', i);
      }
    }
  }

  /** Without the block a masked frame excludes no voice that has its bit 24. */
  lemma MaskedAny(d: seq<bool>, m: seq<bool>) returns (k: Block)
    requires |d| == |m| == AMBE_BITS && d[24] == m[24]
    ensures Masked(d, k) == m
  {
    hide Masked;
    k := seq(BLOCK_BITS, i requires 0 <= i < BLOCK_BITS => i < 49 && d[i] != m[i]);
    forall i | 0 <= i < 49
      ensures Masked(d, k)[i] == m[i]
    {
      MaskedBits(d, k, i);
    }
  }

  ghost predicate SameVoice(a: seq<bool>, b: seq<bool>) {
    |a| == |b| == AMBE_BITS && forall i :: 0 <= i < AMBE_BITS && i != SPARE_BIT ==> a[i] == b[i]
  }

  /** The AMBE coder and its decoder. */
  datatype Codec = Codec(encode: seq<bool> -> seq<Byte>, decode: seq<Byte> -> seq<bool>)

  /** Decoding undoes coding but for the spare bit, and makes something of any nine bytes. */
  ghost predicate Faithful(c: Codec) {
    && (forall b: seq<Byte> :: |b| == AMBE_BYTES ==> |c.decode(b)| == AMBE_BITS)
    && forall d: seq<bool> :: |d| == AMBE_BITS ==>
      |c.encode(d)| == AMBE_BYTES && SameVoice(c.decode(c.encode(d)), d)
  }

  /** Masked, sent, received and masked again, the voice is what it was. */
  lemma MaskTwice(d: seq<bool>, k: Block, c: Codec)
    requires |d| == AMBE_BITS && Faithful(c)
    ensures var e := c.decode(c.encode(Masked(d, k))); |e| == AMBE_BITS && SameVoice(Masked(e, k), d)
  {
    var m := Masked(d, k);
    assert SameVoice(c.decode(c.encode(m)), m);
  }

  // The standard silence frame: 9E 8D 32 88 26 1A 3F 61 E8.
  const NULL_AMBE: seq<Byte> := [
    [false, true, true, true, true, false, false, true],
    [true, false, true, true, false, false, false, true],
    [false, true, false, false, true, true, false, false],
    [false, false, false, true, false, false, false, true],
    [false, true, true, false, false, true, false, false],
    [false, true, false, true, true, false, false, false],
    [true, true, true, true, true, true, false, false],
    [true, false, false, false, false, true, true, false],
    [false, false, false, true, false, true, true, true]
  ]

  // ---- slow data

  // 70 4F 93, and the data sync 55 2D 16.
  const SLOW_SCRAMBLE: seq<Byte> := [
    [false, false, false, false, true, true, true, false],
    [true, true, true, true, false, false, true, false],
    [true, true, false, false, true, false, false, true]
  ]
  const DATA_SYNC: seq<Byte> := [
    [true, false, true, false, true, false, true, false],
    [true, false, true, true, false, true, false, false],
    [false, true, true, false, true, false, false, false]
  ]
  const SLOW_TYPE: Byte := [true, false, true, false, false, true, true, true]           // 0xE5
  const HEADER_TYPE: Byte := [true, false, true, false, true, false, true, false]        // 0x55
  const FILLER: Byte := [false, true, true, false, false, true, true, false]             // 0x66

  /** Unit k of the slow data: a type byte and five bytes of the header, then filler; an encrypted
      over sends the sync block in place of the filler. */
  function SlowUnit(header: seq<Byte>, sync: seq<Byte>, encrypt: bool, unit: nat): (u: seq<Byte>)
    requires |header| == HEADER_BYTES && |sync| == SYNC_BYTES && unit <= SYNC_UNIT_B
    ensures |u| == 6
  {
    var data := seq(5, i requires 0 <= i < 5 => if unit * 5 + i < HEADER_BYTES then header[unit * 5 + i] else FILLER);
    if encrypt && unit == SYNC_UNIT_A then [HEADER_TYPE, data[0]] + sync[..4]
    else if encrypt && unit == SYNC_UNIT_B then [SLOW_TYPE] + sync[4..]
    else [HEADER_TYPE] + data
  }

  /** The slow-data bytes of a slot: the data sync in slot 0, else half a unit, scrambled. */
  function SlowBytes(header: seq<Byte>, sync: seq<Byte>, encrypt: bool, slot: nat): (b: seq<Byte>)
    requires |header| == HEADER_BYTES && |sync| == SYNC_BYTES && slot < SF_FRAMES
    ensures |b| == 3
  {
    if slot == 0 then DATA_SYNC
    else
      var u := SlowUnit(header, sync, encrypt, (slot - 1) / 2);
      XorBytes(if (slot - 1) % 2 == 0 then u[..3] else u[3..], SLOW_SCRAMBLE)
  }

  /** What is in the slow data, under the scrambling: in slots 1 to 18 the header, after each type byte five bytes of
      it, the last of them in slot 17; in an encrypted over then the sync block, behind a type byte of
      its own in slot 19; in a clear one filler. */
  lemma SlowLayout(h: seq<Byte>, sync: seq<Byte>, encrypt: bool, slot: nat)
    requires |h| == HEADER_BYTES && |sync| == SYNC_BYTES && 0 < slot < SF_FRAMES
    ensures var b := XorBytes(SlowBytes(h, sync, encrypt, slot), SLOW_SCRAMBLE);
      if slot <= 16 then
        var u := (slot - 1) / 2;
        b == if slot % 2 == 1 then [HEADER_TYPE, h[5 * u], h[5 * u + 1]] else [h[5 * u + 2], h[5 * u + 3], h[5 * u + 4]]
      else if slot == 17 then b == [HEADER_TYPE, h[40], if encrypt then sync[0] else FILLER]
      else if slot == 18 then b == if encrypt then [sync[1], sync[2], sync[3]] else [FILLER, FILLER, FILLER]
      else if slot == 19 then b == if encrypt then [SLOW_TYPE, sync[4], sync[5]] else [HEADER_TYPE, FILLER, FILLER]
      else b == if encrypt then [sync[6], sync[7], sync[8]] else [FILLER, FILLER, FILLER]
  {
    hide XorBytes;
    var u := SlowUnit(h, sync, encrypt, (slot - 1) / 2);
    XorBytesTwice(u[..3], SLOW_SCRAMBLE);
    XorBytesTwice(u[3..], SLOW_SCRAMBLE);
  }

  /** Slot 0 is the data sync, as it is. */
  lemma DataSyncSlot(h: seq<Byte>, sync: seq<Byte>, encrypt: bool)
    requires |h| == HEADER_BYTES && |sync| == SYNC_BYTES
    ensures SlowBytes(h, sync, encrypt, 0) == DATA_SYNC
  {
  }

  // ---- the sync block

  /** The sync block of superframe sf: the nonce, the counter, the check. */
  function SyncBlock(r: Nonce, sf: nat, check: Byte): (b: seq<Byte>)
    ensures |b| == SYNC_BYTES
  {
    NonceBytes(r) + [ByteOf(sf / 256 % 256), ByteOf(sf % 256), check]
  }

  function CounterOf(sync: seq<Byte>): nat
    requires |sync| == SYNC_BYTES
  {
    256 * ValueOf(sync[6]) + ValueOf(sync[7])
  }

  function NonceOf(sync: seq<Byte>): Nonce
    requires |sync| >= NONCE_BYTES
  {
    Flatten(sync[..NONCE_BYTES])
  }

  /** A sync block gives back the nonce, the counter and the check it was made of. */
  lemma SyncBlockFields(r: Nonce, sf: nat, check: Byte)
    requires sf < SF_COUNT
    ensures var b := SyncBlock(r, sf, check); NonceOf(b) == r && CounterOf(b) == sf && b[8] == check
    ensures var b := SyncBlock(r, sf, check);
      Flatten(b[..6]) == r && ValueOf(b[6]) == sf / 256 && ValueOf(b[7]) == sf % 256
  {
    hide ByteOf, ValueOf, NonceBytes;
    var b := SyncBlock(r, sf, check);
    assert b[..NONCE_BYTES] == NonceBytes(r);
    NonceRound(r);
    ByteValue(sf / 256 % 256);
    ByteValue(sf % 256);
    assert b[6] == ByteOf(sf / 256 % 256) && b[7] == ByteOf(sf % 256);
  }

  lemma NonceRound(r: Nonce)
    ensures Flatten(NonceBytes(r)) == r
  {
    FlattenChop(r);
  }

  // ---- the header

  const DV_VOICE: Byte := [false, false, false, false, true, false, false, false]      // 0x10
  const LETTER_A: Byte := [true, false, false, false, false, false, true, false]       // 'A'
  const CLEAR_FLAG: Byte := [false, false, false, false, false, false, false, false]
  const ENCRYPTED_FLAG: Byte := [true, false, false, false, false, false, false, false]

  /** The header of an over but for its checksum: the flags, the repeater fields, which an encrypted
      over uses for the nonce and its check, and the callsigns. */
  function HeaderText(my: seq<Byte>, ur: seq<Byte>, secret: Option<(Nonce, seq<Byte>)>): (h: seq<Byte>)
    requires |my| == |ur| == 8 && (secret.Some? ==> |secret.value.1| == HDR_CHECK_BYTES)
    ensures |h| == HEADER_BYTES - 2
  {
    var flag := if secret.Some? then ENCRYPTED_FLAG else CLEAR_FLAG;
    var repeaters :=
      match secret
      case None => my + my
      case Some((r, check)) => NonceBytes(r) + check + my[6..];
    [DV_VOICE, CLEAR_FLAG, flag] + repeaters + ur + my + [LETTER_A, CLEAR_FLAG, CLEAR_FLAG, CLEAR_FLAG]
  }

  /** Where everything is in the header: the flags, in an encrypted over the nonce from byte 3 and its check from byte 9
      on, in a clear one the call sign twice; then the call called, the call sign, and an A. */
  lemma HeaderLayout(my: seq<Byte>, ur: seq<Byte>, secret: Option<(Nonce, seq<Byte>)>)
    requires |my| == |ur| == 8 && (secret.Some? ==> |secret.value.1| == HDR_CHECK_BYTES)
    ensures var h := HeaderText(my, ur, secret);
      && h[0] == DV_VOICE && h[1] == CLEAR_FLAG && h[2] == (if secret.Some? then ENCRYPTED_FLAG else CLEAR_FLAG)
      && (secret.None? ==> h[3..11] == my && h[11..19] == my)
      && (secret.Some? ==> Flatten(h[3..9]) == secret.value.0 && h[9..17] == secret.value.1 && h[17..19] == my[6..])
      && h[19..27] == ur && h[27..35] == my && h[35] == LETTER_A && h[36] == h[37] == h[38] == CLEAR_FLAG
  {
    hide NonceBytes, Flatten;
    if secret.Some? {
      NonceRound(secret.value.0);
      assert HeaderText(my, ur, secret)[3..9] == NonceBytes(secret.value.0);
    }
  }

  // ---- the transmitter

  datatype TxState = TxState(header: seq<Byte>, slot: nat, sf: nat, encrypt: bool, failClosed: bool, r: Nonce,
                             sync: seq<Byte>)

  /** The number of the next frame within its nonce. */
  function FrameIndex(s: TxState): nat {
    SF_FRAMES * s.sf + s.slot
  }

  /** The nine voice bytes that go out for the bits d: ciphertext under the block of the frame's own
      number, silence, or, in an over nobody asked to encrypt, the voice itself. */
  ghost predicate VoiceSent(s: TxState, d: seq<bool>, f: seq<Byte>, keys: KeyStore, c: Codec)
    requires |d| == AMBE_BITS
  {
    if s.failClosed then f == NULL_AMBE
    else if !s.encrypt then f == c.encode(d)
    else match keys(Voice, s.r, FrameIndex(s))
      case None => f == NULL_AMBE
      case Some(k) => f == c.encode(Masked(d, k))
  }

  /** The keystream block the frame used. */
  ghost function BlockUsed(s: TxState, keys: KeyStore): seq<(Nonce, nat)> {
    if s.encrypt && !s.failClosed && keys(Voice, s.r, FrameIndex(s)).Some? then [(s.r, FrameIndex(s))] else []
  }

  /** The sync block is the one of the nonce and the counter. */
  ghost predicate SyncRight(s: TxState, keys: KeyStore) {
    var check := SyncCheckOf(keys, s.r, s.sf);
    check.Some? && s.sync == SyncBlock(s.r, s.sf, check.value)
  }

  class VoiceTx {
    var header: seq<Byte>
    var slot: nat              // 0..20 within the superframe
    var sf: nat                // superframe counter within the over
    var encrypt: bool          // this over is encrypted
    var failClosed: bool       // encryption asked for and not possible: send silence
    var r: Nonce
    var sync: seq<Byte>

    ghost var asked: bool                      // encryption was requested for this over
    ghost var drawn: set<Nonce>                // every nonce drawn
    ghost var used: seq<(Nonce, nat)>          // every keystream block that went on the air

    ghost function State(): TxState
      reads this
    {
      TxState(header, slot, sf, encrypt, failClosed, r, sync)
    }

    ghost predicate Valid()
      reads this
    {
      && |header| == HEADER_BYTES && slot < SF_FRAMES && |sync| == SYNC_BYTES && sf < WORD
      && (asked <==> encrypt || failClosed)
      && Logged(used, drawn)
      && (encrypt ==> sf < SF_COUNT)
      && (encrypt && !failClosed ==> r in drawn && Below(used, r, SF_FRAMES * sf + slot))
    }

    constructor ()
      ensures Valid() && !asked && used == [] && drawn == {}
    {
      header, slot, sf, encrypt, failClosed := seq(HEADER_BYTES, _ => CLEAR_FLAG), 0, 0, false, false;
      r, sync := Zeros(NONCE_BITS), seq(SYNC_BYTES, _ => CLEAR_FLAG);
      asked, drawn, used := false, {}, [];
    }

    /** The superframe's sync block; without the key, the over fails closed. */
    method MakeSync(keys: KeyStore)
      requires |sync| == SYNC_BYTES && sf < SF_COUNT
      modifies this`sync, this`failClosed
      ensures |sync| == SYNC_BYTES
      ensures SyncCheckOf(keys, r, sf).Some? ==> SyncRight(State(), keys) && failClosed == old(failClosed)
      ensures SyncCheckOf(keys, r, sf).None? ==> failClosed
    {
      hide SyncCheckOf;
      var check := SyncCheckOf(keys, r, sf);
      sync := SyncBlock(r, sf, if check.Some? then check.value else sync[8]);
      if check.None? {
        failClosed := true;
      }
    }

    /** Start an over. Encryption without a key, a nonce or a check fails closed. */
    method Begin(my: seq<Byte>, ur: seq<Byte>, want: bool, keys: KeyStore, haveKey: bool, draw: Option<Nonce>)
      requires Valid() && |my| == |ur| == 8
      requires draw.Some? ==> draw.value !in drawn
      modifies this
      ensures Valid() && asked == want && used == old(used) && slot == 0 && sf == 0
      ensures old(drawn) <= drawn
      ensures encrypt == (want && haveKey && draw.Some?)
      ensures ChecksumRight(Flatten(header))
      ensures !encrypt ==> header[..HEADER_BYTES - 2] == HeaderText(my, ur, None)
      ensures encrypt ==> r == draw.value
      ensures encrypt && !failClosed ==>
        && HeaderCheckOf(keys, r).Some? && SyncRight(State(), keys)
        && header[..HEADER_BYTES - 2] == HeaderText(my, ur, Some((r, HeaderCheckOf(keys, r).value)))
      ensures encrypt && HeaderCheckOf(keys, r).Some? && SyncCheckOf(keys, r, 0).Some? ==> !failClosed
    {
      hide HeaderText, ChecksumRight, Flatten, SyncCheckOf, SyncBlock, SyncRight, HeaderCheckOf, Logged, Below;
      Clear(want, haveKey, draw);
      BuildHeader(my, ur, keys);
      if encrypt {
        MakeSync(keys);
      }
    }

    /** Forget the last over and, to encrypt the next, take a nonce. */
    method Clear(want: bool, haveKey: bool, draw: Option<Nonce>)
      requires Logged(used, drawn)
      requires draw.Some? ==> draw.value !in drawn
      modifies this
      ensures asked == want && used == old(used) && slot == 0 && sf == 0 && |sync| == SYNC_BYTES
      ensures Logged(used, drawn) && old(drawn) <= drawn
      ensures encrypt == (want && haveKey && draw.Some?) && failClosed == (want && !encrypt)
      ensures encrypt ==> r == draw.value && r in drawn && Below(used, r, 0)
    {
      hide Logged, Below;
      slot, sf, encrypt, failClosed := 0, 0, false, false;
      r, sync := Zeros(NONCE_BITS), seq(SYNC_BYTES, _ => CLEAR_FLAG);
      asked := want;
      if want {
        if haveKey && draw.Some? {
          encrypt := true;
          r := draw.value;
          FreshNonce(used, drawn, r);
          drawn := drawn + {r};
        } else {
          failClosed := true;
        }
      }
    }

    method BuildHeader(my: seq<Byte>, ur: seq<Byte>, keys: KeyStore)
      requires |my| == |ur| == 8
      modifies this`header, this`failClosed
      ensures |header| == HEADER_BYTES && ChecksumRight(Flatten(header))
      ensures !encrypt ==> header[..HEADER_BYTES - 2] == HeaderText(my, ur, None)
      ensures encrypt && HeaderCheckOf(keys, r).Some? ==>
        header[..HEADER_BYTES - 2] == HeaderText(my, ur, Some((r, HeaderCheckOf(keys, r).value)))
      ensures failClosed == (old(failClosed) || (encrypt && HeaderCheckOf(keys, r).None?))
    {
      hide HeaderText, ChecksumRight, Flatten, HeaderCheckOf;
      var text := HeaderText(my, ur, None);
      if encrypt {
        var check := HeaderCheckOf(keys, r);
        if check.None? {
          failClosed := true;
        }
        text := HeaderText(my, ur, Some((r, if check.Some? then check.value else my[6..] + my[..6])));
      }
      header := Finalized(text);
    }

    /** One frame of twenty milliseconds: nine bytes of voice and three of slow data. */
    method Frame(d: seq<bool>, keys: KeyStore, draw: Option<Nonce>, c: Codec) returns (f: seq<Byte>)
      requires Valid() && |d| == AMBE_BITS && Faithful(c)
      requires draw.Some? ==> draw.value !in drawn
      modifies this
      ensures Valid() && asked == old(asked) && old(drawn) <= drawn
      ensures |f| == FRAME_BYTES && VoiceSent(old(State()), d, f[..AMBE_BYTES], keys, c)
      ensures f[AMBE_BYTES..] == SlowBytes(old(header), old(sync), old(encrypt), old(slot))
      ensures used == old(used) + BlockUsed(old(State()), keys)
      ensures old(asked) && used == old(used) ==> f[..AMBE_BYTES] == NULL_AMBE
      ensures header == old(header) && encrypt == old(encrypt) && (old(failClosed) ==> failClosed)
      ensures slot == (old(slot) + 1) % SF_FRAMES
      ensures slot != 0 ==> sf == old(sf) && r == old(r) && sync == old(sync)
      ensures slot == 0 && !encrypt ==> sf == (old(sf) + 1) % WORD
      ensures slot == 0 && encrypt ==> sf == (old(sf) + 1) % SF_COUNT
      ensures slot == 0 && encrypt && !failClosed ==>
        && SyncRight(State(), keys)
        && (if sf == 0 then r !in old(drawn) else r == old(r))
      ensures encrypt && !old(failClosed) && KeysFor(keys, old(r)) && (slot > 0 || sf > 0) ==> !failClosed
    {
      hide SlowBytes, VoiceSent, BlockUsed, SyncCheckOf, SyncRight, SyncBlock, KeysFor, Faithful, Logged, Below;
      HasBlock(keys, r, FrameIndex(State()));
      var voice := Voiced(d, keys, c);
      f := voice + SlowBytes(header, sync, encrypt, slot);
      slot := slot + 1;
      if slot >= SF_FRAMES {
        slot := 0;
        NextSuperframe(keys, draw);
      }
    }

    /** The voice bytes of the frame. */
    method Voiced(d: seq<bool>, keys: KeyStore, c: Codec) returns (f: seq<Byte>)
      requires Valid() && |d| == AMBE_BITS && Faithful(c)
      modifies this`failClosed, this`used
      ensures |f| == AMBE_BYTES && VoiceSent(old(State()), d, f, keys, c)
      ensures used == old(used) + BlockUsed(old(State()), keys)
      ensures old(asked) && used == old(used) ==> f == NULL_AMBE
      ensures asked <==> encrypt || failClosed
      ensures Logged(used, drawn)
      ensures encrypt && !failClosed ==> r in drawn && Below(used, r, SF_FRAMES * sf + slot + 1)
      ensures failClosed == (old(failClosed) || (encrypt && keys(Voice, r, FrameIndex(State())).None?))
    {
      hide Masked, Logged, Below;
      if failClosed {
        f := NULL_AMBE;
      } else if !encrypt {
        f := c.encode(d);
      } else {
        var n := SF_FRAMES * sf + slot;
        var ks := keys(Voice, r, n);
        if ks.None? {
          failClosed := true;
          f := NULL_AMBE;
        } else {
          f := c.encode(Masked(d, ks.value));
          FreshBlock(used, drawn, r, n);
          used := used + [(r, n)];
        }
      }
    }

    /** The next superframe; a fresh nonce before the counter would wrap. */
    method NextSuperframe(keys: KeyStore, draw: Option<Nonce>)
      requires draw.Some? ==> draw.value !in drawn
      requires |header| == HEADER_BYTES && slot == 0 && |sync| == SYNC_BYTES && sf < WORD
      requires asked <==> encrypt || failClosed
      requires Logged(used, drawn) && (encrypt ==> sf < SF_COUNT)
      requires encrypt && !failClosed ==> r in drawn && Below(used, r, SF_FRAMES * (sf + 1))
      modifies this`sf, this`r, this`sync, this`failClosed, this`drawn
      ensures Valid() && old(drawn) <= drawn && (old(failClosed) ==> failClosed)
      ensures !encrypt ==> sf == (old(sf) + 1) % WORD
      ensures encrypt ==> sf == (old(sf) + 1) % SF_COUNT
      ensures encrypt && !failClosed ==>
        && SyncRight(State(), keys)
        && (if sf == 0 then r !in old(drawn) else r == old(r))
      ensures encrypt && !old(failClosed) && KeysFor(keys, old(r)) && old(sf) + 1 < SF_COUNT ==> !failClosed
    {
      hide SyncCheckOf, SyncRight, SyncBlock, KeysFor, Logged, Below;
      HasCheck(keys, r, (sf + 1) % WORD);
      sf := (sf + 1) % WORD;
      if encrypt {
        if sf > 0xFFFF {
          sf := 0;
          if draw.None? {
            failClosed := true;
          } else {
            r := draw.value;
            FreshNonce(used, drawn, r);
            drawn := drawn + {r};
          }
        }
        MakeSync(keys);
      }
    }
  }

  /** The key store gives every block of a nonce. */
  ghost predicate KeysFor(keys: KeyStore, r: Nonce) {
    && (forall n: nat :: keys(Voice, r, n).Some?)
    && (forall n: nat :: SyncCheckOf(keys, r, n).Some?)
    && HeaderCheckOf(keys, r).Some?
  }

  lemma HasBlock(keys: KeyStore, r: Nonce, n: nat)
    ensures KeysFor(keys, r) ==> keys(Voice, r, n).Some?
  {
  }

  lemma HasCheck(keys: KeyStore, r: Nonce, n: nat)
    ensures KeysFor(keys, r) ==> SyncCheckOf(keys, r, n).Some?
  {
  }

  lemma FreshBlock(used: seq<(Nonce, nat)>, drawn: set<Nonce>, r: Nonce, n: nat)
    requires Logged(used, drawn) && r in drawn && Below(used, r, n)
    ensures Logged(used + [(r, n)], drawn) && Below(used + [(r, n)], r, n + 1)
  {
    var all := used + [(r, n)];
    forall i, j | 0 <= i < j < |all|
      ensures all[i] != all[j]
    {
      assert used[i] in used;
    }
  }

  method Finalized(text: seq<Byte>) returns (h: seq<Byte>)
    requires |text| == HEADER_BYTES - 2
    ensures |h| == HEADER_BYTES && h[..HEADER_BYTES - 2] == text && ChecksumRight(Flatten(h))
  {
    hide ChecksumRight;
    var x := Flatten(text + [CLEAR_FLAG, CLEAR_FLAG]);
    var y := Finalize(x);
    h := Chop(y);
    FlattenChop(y);
    ChopPrefix(y, text, x);
  }

  /** Bytes whose bits begin with those of text begin with text. */
  lemma ChopPrefix(y: seq<bool>, text: seq<Byte>, x: seq<bool>)
    requires |text| == HEADER_BYTES - 2 && |x| == |y| == HEADER_BITS && x[..CRC_BITS] == y[..CRC_BITS]
    requires x == Flatten(text + [CLEAR_FLAG, CLEAR_FLAG])
    ensures Chop(y)[..HEADER_BYTES - 2] == text
  {
    hide Flatten, Chop;
    FlattenSplit(text, [CLEAR_FLAG, CLEAR_FLAG]);
    assert x[..CRC_BITS] == Flatten(text);
    ChopSplit(y[..CRC_BITS], y[CRC_BITS..]);
    assert y[..CRC_BITS] + y[CRC_BITS..] == y;
    ChopFlatten(text);
  }

  lemma {:induction false} FlattenSplit(a: seq<Byte>, b: seq<Byte>)
    ensures Flatten(a + b) == Flatten(a) + Flatten(b)
  {
    if b == [] {
      assert a + b == a;
    } else {
      FlattenSplit(a, b[..|b| - 1]);
      assert (a + b)[..|a + b| - 1] == a + b[..|b| - 1];
    }
  }

  lemma {:induction false} ChopSplit(a: seq<bool>, b: seq<bool>)
    requires |a| % 8 == 0 && |b| % 8 == 0
    ensures |a + b| % 8 == 0 && Chop(a + b) == Chop(a) + Chop(b)
  {
    if b == [] {
      assert a + b == a;
    } else {
      ChopSplit(a, b[..|b| - 8]);
      assert (a + b)[..|a + b| - 8] == a + b[..|b| - 8];
      assert (a + b)[|a + b| - 8..] == b[|b| - 8..];
    }
  }

  lemma {:induction false} ChopFlatten(a: seq<Byte>)
    ensures Chop(Flatten(a)) == a
  {
    if a != [] {
      ChopFlatten(a[..|a| - 1]);
      var x := Flatten(a);
      assert x[..|x| - 8] == Flatten(a[..|a| - 1]) && x[|x| - 8..] == a[|a| - 1];
    }
  }
}
