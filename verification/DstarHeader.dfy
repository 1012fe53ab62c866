/** Sending and receiving the D-STAR header: the transmitter's coding, the hard and the soft
    decoder, and the checksum. */
module DstarHeader {
  import opened Bits
  import opened DstarFec
  import opened Crc16
  import DstarTables

  const CRC_BITS := 312             // 39 bytes under the checksum
  const ONES: Register :=
    [true, true, true, true, true, true, true, true, true, true, true, true, true, true, true, true]

  // ---- the transmitter

  /** The register loop of the encoder, over the header and its padding byte. */
  method Convolve(h: seq<bool>) returns (c: seq<bool>)
    requires |h| == HEADER_BITS
    ensures |c| == 672 && c[..CODED] == Coded(0, Inputs(h))
  {
    hide Out1, Out0, Coded, State;
    ghost var x := h + Zeros(8);
    var d1, d2 := false, false;
    c := [];
    assert x[..0] == [];
    StartOf(0);
    for i := 0 to 336
      invariant |c| == 2 * i && c == Coded(0, x[..i]) && State(0, x[..i]) == Val(d1) + 2 * Val(d2)
    {
      var d := i < HEADER_BITS && h[i];
      Taps(d, d1, d2);
      StateStep(0, x[..i], d);
      CodedStep(0, x[..i], d);
      assert x[..i + 1] == x[..i] + [d];
      c := c + [(d != d1) != d2, d != d2];
      d2 := d1;
      d1 := d;
    }
    assert x[..336] == x;
    CodedPrefix(0, x, STEPS);
    assert x[..STEPS] == Inputs(h);
  }

  lemma StartOf(s: nat)
    ensures State(s, []) == s && Coded(s, []) == []
  {
  }

  lemma Taps(d: bool, d1: bool, d2: bool)
    ensures var s := Val(d1) + 2 * Val(d2);
            Out1(s, d) == ((d != d1) != d2) && Out0(s, d) == (d != d2) && Next(s, d) == Val(d) + 2 * Val(d1)
  {
  }

  /** The header's 83 bytes: coded, interleaved, scrambled. */
  method HeaderFec(h: seq<bool>) returns (out: seq<bool>)
    requires |h| == HEADER_BITS
    ensures out == HeaderSection(h) && DstarTables.SectionOf(h, out)
  {
    hide Scr, Deint, Inter, Coded, Inputs, DstarTables.SectionOf;
    var c := Convolve(h);
    var a := new bool[SECTION](_ => false);
    for i := 0 to CODED
      invariant forall p :: 0 <= p < 4 ==> !a[p]
      invariant forall q :: 0 <= q < CODED ==> a[q + 4] == (Deint(q) < i && c[Deint(q)])
    {
      if c[i] {
        a[Inter(i) + 4] := true;
      }
      forall q | 0 <= q < CODED
        ensures Deint(q) == i <==> q == Inter(i)
      {
        InterDeint(q);
        DeintInter(i);
      }
    }
    for p := 0 to SECTION
      invariant forall k :: 0 <= k < p ==> a[k] == HeaderSection(h)[k]
      invariant forall k :: p <= k < SECTION ==> a[k] == (k >= 4 && c[Deint(k - 4)])
    {
      a[p] := a[p] != (p >= 4 && Scr(p - 4));
    }
    out := a[..];
    DstarTables.SectionIs(h);
  }

  // ---- the checksum

  function Complement(c: Register): Register {
    seq(16, i requires 0 <= i < 16 => !c[i])
  }

  /** The header's last two bytes are the complement of the CRC of the others, low byte first. */
  ghost predicate ChecksumRight(h: seq<bool>)
    requires |h| == HEADER_BITS
  {
    h[CRC_BITS..] == Complement(Crc(ONES, h[..CRC_BITS]))
  }

  /** A header with its checksum leaves the register at the residue of the CRC, the same for all. */
  lemma ChecksumResidue(h: seq<bool>)
    requires |h| == HEADER_BITS && ChecksumRight(h)
    ensures Crc(ONES, h) == Residue()
  {
    hide Crc;
    var c := Crc(ONES, h[..CRC_BITS]);
    assert h == h[..CRC_BITS] + h[CRC_BITS..];
    CrcAppend(ONES, h[..CRC_BITS], h[CRC_BITS..]);
    ComplementResidue(c, h[CRC_BITS..]);
  }

  method Checksum(h: seq<bool>) returns (ok: bool)
    requires |h| == HEADER_BITS
    ensures ok <==> ChecksumRight(h)
  {
    hide Crc;
    var c := TableCrc(ONES, h[..CRC_BITS]);
    ok := Complement(c) == h[CRC_BITS..];
  }

  /** Finalizing writes the checksum and nothing else. */
  method Finalize(h: seq<bool>) returns (out: seq<bool>)
    requires |h| == HEADER_BITS
    ensures |out| == HEADER_BITS && out[..CRC_BITS] == h[..CRC_BITS] && ChecksumRight(out)
  {
    hide Crc;
    var c := TableCrc(ONES, h[..CRC_BITS]);
    out := h[..CRC_BITS] + Complement(c);
  }

  // ---- the receiver

  /** The hard branch metrics, as the source lists them. */
  function HardCosts(b1: bool, b0: bool): Costs {
    [Val(b1) + Val(b0), Val(!b1) + Val(!b0), Val(!b1) + Val(b0), Val(b1) + Val(!b0),
     Val(!b1) + Val(!b0), Val(b1) + Val(b0), Val(b1) + Val(!b0), Val(!b1) + Val(b0)]
  }

  /** They count the bits a transition codes differently from those received. */
  lemma HardCost(b1: bool, b0: bool, s: nat, d: bool)
    requires s < 4
    ensures HardCosts(b1, b0)[Transition(s, d)] == Val(Out1(s, d) != b1) + Val(Out0(s, d) != b0)
  {
  }

  lemma HardFavours(m: seq<Costs>, c: seq<bool>)
    requires |c| == 2 * |m|
    requires forall i :: 0 <= i < |m| ==> m[i] == HardCosts(c[2 * i], c[2 * i + 1])
    ensures Favours(m, c, 0)
  {
    hide Out1, Out0, HardCosts, Transition;
    forall i, s: nat, d: bool | 0 <= i < |m| && s < 4
      ensures Transition(s, d) < 8
      ensures m[i][Transition(s, d)] == Val(Out1(s, d) != c[2 * i]) + Val(Out0(s, d) != c[2 * i + 1])
    {
      HardCost(c[2 * i], c[2 * i + 1], s, d);
    }
  }

  /** The received bits, descrambled and put back in the coder's order. */
  method Deinterleave(bits: seq<bool>) returns (c: seq<bool>)
    requires |bits| == CODED
    ensures |c| == CODED && forall q :: 0 <= q < CODED ==> c[Deint(q)] == (bits[q] != Scr(q))
  {
    hide Scr, Deint;
    var a := new bool[CODED](_ => false);
    for q := 0 to CODED
      invariant forall k :: 0 <= k < q ==> a[Deint(k)] == (bits[k] != Scr(k))
      invariant forall k :: q <= k < CODED ==> !a[Deint(k)]
    {
      forall k | 0 <= k < CODED && k != q
        ensures Deint(k) != Deint(q)
      {
        InterDeint(k);
        InterDeint(q);
      }
      if bits[q] != Scr(q) {
        a[Deint(q)] := true;
      }
    }
    c := a[..];
  }

  /** Deinterleaving a header's own bits gives its code. */
  lemma DeinterleavedHeader(c: seq<bool>, h: seq<bool>)
    requires |h| == HEADER_BITS && |c| == CODED
    requires forall q :: 0 <= q < CODED ==> c[Deint(q)] == (HeaderSection(h)[q + 4] != Scr(q))
    ensures c == Coded(0, Inputs(h))
  {
    hide Scr, Deint, Inter, Coded, Inputs;
    forall i | 0 <= i < CODED
      ensures c[i] == Coded(0, Inputs(h))[i]
    {
      DeintInter(i);
      assert c[Deint(Inter(i))] == (HeaderSection(h)[Inter(i) + 4] != Scr(Inter(i)));
    }
  }

  /** The decoded bits into the 41 bytes of the header: none is set past its end. */
  method Pack(fec: seq<bool>) returns (out: seq<bool>)
    requires |fec| == STEPS && !Reversed(fec)[STEPS - 1] && !Reversed(fec)[STEPS - 2]
    ensures out == Reversed(fec)[..HEADER_BITS]
  {
    var a := new bool[HEADER_BITS](_ => false);
    var j := 0;
    for i := STEPS downto 0
      invariant j == STEPS - i
      invariant forall k :: 0 <= k < j && k < HEADER_BITS ==> a[k] == Reversed(fec)[k]
      invariant forall k :: j <= k < HEADER_BITS ==> !a[k]
    {
      assert fec[i] == Reversed(fec)[j];
      if fec[i] {
        a[j] := true;
      }
      j := j + 1;
    }
    out := a[..];
  }

  /** The hard decoder: for every header it returns that header from the header's own bits. */
  method RxHeader(bits: seq<bool>, ghost h: seq<bool>) returns (out: seq<bool>, ok: bool)
    requires |bits| == CODED
    ensures |out| == HEADER_BITS && (ok <==> ChecksumRight(out))
    ensures |h| == HEADER_BITS && bits == HeaderSection(h)[4..] ==> out == h
  {
    hide Scr, Deint, Favours, CheapestInputs, HardCosts, Reversed, ChecksumRight, Coded, Inputs;
    var c := Deinterleave(bits);
    var m: seq<Costs> := [];
    for i := 0 to STEPS
      invariant |m| == i && forall k :: 0 <= k < i ==> m[k] == HardCosts(c[2 * k], c[2 * k + 1])
    {
      m := m + [HardCosts(c[2 * i], c[2 * i + 1])];
    }
    var fec := Viterbi(m);
    DecodedTail(Reversed(fec), m);
    out := Pack(fec);
    ok := Checksum(out);
    if |h| == HEADER_BITS && bits == HeaderSection(h)[4..] {
      forall q | 0 <= q < CODED ensures bits[q] == HeaderSection(h)[q + 4] {}
      DeinterleavedHeader(c, h);
      HardFavours(m, c);
      Decoded(Reversed(fec), m, h, 0);
      InputsHead(h);
    }
  }

  lemma InputsHead(h: seq<bool>)
    requires |h| == HEADER_BITS
    ensures Inputs(h)[..HEADER_BITS] == h
  {
  }

  // ---- the soft decoder

  const SOFT_SCALE := 64.0

  function Signed(b: bool, v: real): real {
    if b then -v else v
  }

  function Abs(x: real): real {
    if x < 0.0 then -x else x
  }

  /** Rounding to the nearest integer, ties to even. */
  function Lrint(x: real): int {
    var f := x.Floor;
    var r := x - f as real;
    if r < 0.5 then f else if r > 0.5 then f + 1 else if f % 2 == 0 then f else f + 1
  }

  lemma LrintInteger(n: int)
    ensures Lrint(n as real) == n
  {
  }

  /** The soft branch metrics: a correlation cost. */
  function SoftCosts(d1: real, d0: real): Costs {
    var s1, s0 := d1 * SOFT_SCALE, d0 * SOFT_SCALE;
    var m0, m1, m2, m3 := Lrint(-s1 - s0), Lrint(s1 + s0), Lrint(s1 - s0), Lrint(-s1 + s0);
    [m0, m1, m2, m3, m1, m0, m3, m2]
  }

  /** At full confidence a transition costs -128 if it codes the bits received, and 0 or 128 if not. */
  lemma SoftCost(c1: bool, c0: bool, s: nat, d: bool)
    requires s < 4
    ensures Transition(s, d) < 8
    ensures SoftCosts(Signed(c1, 1.0), Signed(c0, 1.0))[Transition(s, d)] ==
            -128 + 128 * Val(Out1(s, d) != c1) + 128 * Val(Out0(s, d) != c0)
  {
    LrintInteger(-128);
    LrintInteger(0);
    LrintInteger(128);
    hide Lrint;
    assert (-128) as real == -128.0 && 0 as real == 0.0 && 128 as real == 128.0;
  }

  lemma SoftFavours(m: seq<Costs>, c: seq<bool>)
    requires |c| == 2 * |m|
    requires forall i :: 0 <= i < |m| ==> m[i] == SoftCosts(Signed(c[2 * i], 1.0), Signed(c[2 * i + 1], 1.0))
    ensures Favours(m, c, -128)
  {
    hide Out1, Out0, SoftCosts, Transition;
    forall i, s: nat, d: bool | 0 <= i < |m| && s < 4
      ensures Transition(s, d) < 8
      ensures m[i][Transition(s, d)] == -128 + 128 * Val(Out1(s, d) != c[2 * i]) + 128 * Val(Out0(s, d) != c[2 * i + 1])
    {
      SoftCost(c[2 * i], c[2 * i + 1], s, d);
    }
  }

  /** The samples at the symbol instants, descrambled by sign and put back in the coder's order. */
  method DeinterleaveSoft(v: seq<real>) returns (inter: seq<real>)
    requires |v| == CODED
    ensures |inter| == CODED && forall q :: 0 <= q < CODED ==> inter[Deint(q)] == Signed(Scr(q), v[q])
  {
    hide Scr, Deint;
    var a := new real[CODED](_ => 0.0);
    for q := 0 to CODED
      invariant forall k :: 0 <= k < q ==> a[Deint(k)] == Signed(Scr(k), v[k])
    {
      forall k | 0 <= k < CODED && k != q
        ensures Deint(k) != Deint(q)
      {
        InterDeint(k);
        InterDeint(q);
      }
      a[Deint(q)] := if Scr(q) then -v[q] else v[q];
    }
    inter := a[..];
  }

  /** A header sent as symbols of one amplitude; positive stands for 0. */
  ghost predicate Symbols(v: seq<real>, h: seq<bool>, amp: real) {
    && |v| == CODED && |h| == HEADER_BITS && amp > 0.000000001
    && forall q :: 0 <= q < CODED ==> v[q] == Signed(HeaderSection(h)[q + 4], amp)
  }

  lemma DeinterleavedSymbols(inter: seq<real>, v: seq<real>, h: seq<bool>, amp: real)
    requires |inter| == CODED && Symbols(v, h, amp)
    requires forall q :: 0 <= q < CODED ==> inter[Deint(q)] == Signed(Scr(q), v[q])
    ensures forall i :: 0 <= i < CODED ==> inter[i] == Signed(Coded(0, Inputs(h))[i], amp)
  {
    hide Scr, Deint, Inter, Coded, Inputs;
    forall i | 0 <= i < CODED
      ensures inter[i] == Signed(Coded(0, Inputs(h))[i], amp)
    {
      DeintInter(i);
      assert inter[Deint(Inter(i))] == Signed(Scr(Inter(i)), v[Inter(i)]);
    }
  }

  /** The mean magnitude, by which the samples are normalised. */
  method MeanMagnitude(inter: seq<real>, ghost amp: real) returns (mag: real)
    requires |inter| == CODED
    ensures (forall i :: 0 <= i < CODED ==> Abs(inter[i]) == amp) ==> mag == amp
  {
    mag := 0.0;
    ghost var equal := forall i :: 0 <= i < CODED ==> Abs(inter[i]) == amp;
    for i := 0 to CODED
      invariant equal ==> mag == amp * i as real
    {
      mag := mag + Abs(inter[i]);
      assert amp * i as real + amp == amp * (i + 1) as real;
    }
    mag := mag / CODED as real;
  }

  lemma UnitSign(b: bool, amp: real)
    requires amp > 0.0
    ensures Signed(b, amp) * (1.0 / amp) == Signed(b, 1.0)
  {
  }

  lemma Normalised(inter: seq<real>, c: seq<bool>, amp: real, norm: real, data: seq<real>)
    requires |inter| == |c| == |data| && amp > 0.0 && norm == 1.0 / amp
    requires forall i :: 0 <= i < |c| ==> inter[i] == Signed(c[i], amp) && data[i] == inter[i] * norm
    ensures forall i :: 0 <= i < |c| ==> data[i] == Signed(c[i], 1.0)
  {
    forall i | 0 <= i < |c|
      ensures data[i] == Signed(c[i], 1.0)
    {
      UnitSign(c[i], amp);
    }
  }

  /** The soft decoder: for every header it returns that header from symbols of one amplitude. */
  method RxHeaderSoft(v: seq<real>, ghost h: seq<bool>, ghost amp: real) returns (out: seq<bool>, ok: bool)
    requires |v| == CODED
    ensures |out| == HEADER_BITS && (ok <==> ChecksumRight(out))
    ensures Symbols(v, h, amp) ==> out == h
  {
    hide Scr, Deint, Favours, CheapestInputs, SoftCosts, Reversed, ChecksumRight, Coded, Inputs, Symbols;
    var inter := DeinterleaveSoft(v);
    ghost var clean := Symbols(v, h, amp);
    if clean {
      DeinterleavedSymbols(inter, v, h, amp);
      SymbolsAmp(v, h, amp);
    }
    var mag := MeanMagnitude(inter, amp);
    var norm := if mag > 0.000000001 then 1.0 / mag else 0.0;
    var data := seq(CODED, i requires 0 <= i < CODED => inter[i] * norm);
    if clean {
      Normalised(inter, Coded(0, Inputs(h)), amp, norm, data);
    }
    var m: seq<Costs> := [];
    for i := 0 to STEPS
      invariant |m| == i && forall k :: 0 <= k < i ==> m[k] == SoftCosts(data[2 * k], data[2 * k + 1])
    {
      m := m + [SoftCosts(data[2 * i], data[2 * i + 1])];
    }
    var fec := Viterbi(m);
    DecodedTail(Reversed(fec), m);
    out := Pack(fec);
    ok := Checksum(out);
    if clean {
      SoftFavours(m, Coded(0, Inputs(h)));
      Decoded(Reversed(fec), m, h, -128);
      InputsHead(h);
    }
  }

  lemma SymbolsAmp(v: seq<real>, h: seq<bool>, amp: real)
    requires Symbols(v, h, amp)
    ensures amp > 0.000000001 && |h| == HEADER_BITS
  {
  }
}
