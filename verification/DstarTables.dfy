/** The D-STAR radio header on the air, bit by bit: the tables that the closed forms of the interleaver and the
    scrambler stand for, and the 83 bytes of a header in their terms. */
module DstarTables {
  import opened Bits
  import opened DstarFec

  // 70 4F 93 40 64 74 6D 30 2B E7 2D 54 5F 8A 1D 7F: the scrambler's bytes, then the same again from its 128th bit on.
  const SCRAMBLE: seq<seq<bool>> := [
    [false, false, false, false, true, true, true, false],
    [true, true, true, true, false, false, true, false],
    [true, true, false, false, true, false, false, true],
    [false, false, false, false, false, false, true, false],
    [false, false, true, false, false, true, true, false],
    [false, false, true, false, true, true, true, false],
    [true, false, true, true, false, true, true, false],
    [false, false, false, false, true, true, false, false],
    [true, true, false, true, false, true, false, false],
    [true, true, true, false, false, true, true, true],
    [true, false, true, true, false, true, false, false],
    [false, false, true, false, true, false, true, false],
    [true, true, true, true, true, false, true, false],
    [false, true, false, true, false, false, false, true],
    [true, false, true, true, true, false, false, false],
    [true, true, true, true, true, true, true, false]
  ]

  lemma FirstBytes()
    ensures SCRAMBLE[0] == [Scr(0), Scr(1), Scr(2), Scr(3), Scr(4), Scr(5), Scr(6), Scr(7)]
    ensures SCRAMBLE[1] == [Scr(8), Scr(9), Scr(10), Scr(11), Scr(12), Scr(13), Scr(14), Scr(15)]
    ensures SCRAMBLE[2] == [Scr(16), Scr(17), Scr(18), Scr(19), Scr(20), Scr(21), Scr(22), Scr(23)]
    ensures SCRAMBLE[3] == [Scr(24), Scr(25), Scr(26), Scr(27), Scr(28), Scr(29), Scr(30), Scr(31)]
    ensures SCRAMBLE[4] == [Scr(32), Scr(33), Scr(34), Scr(35), Scr(36), Scr(37), Scr(38), Scr(39)]
    ensures SCRAMBLE[5] == [Scr(40), Scr(41), Scr(42), Scr(43), Scr(44), Scr(45), Scr(46), Scr(47)]
    ensures SCRAMBLE[6] == [Scr(48), Scr(49), Scr(50), Scr(51), Scr(52), Scr(53), Scr(54), Scr(55)]
    ensures SCRAMBLE[7] == [Scr(56), Scr(57), Scr(58), Scr(59), Scr(60), Scr(61), Scr(62), Scr(63)]
  {
  }

  lemma NextBytes()
    ensures SCRAMBLE[8] == [Scr(64), Scr(65), Scr(66), Scr(67), Scr(68), Scr(69), Scr(70), Scr(71)]
    ensures SCRAMBLE[9] == [Scr(72), Scr(73), Scr(74), Scr(75), Scr(76), Scr(77), Scr(78), Scr(79)]
    ensures SCRAMBLE[10] == [Scr(80), Scr(81), Scr(82), Scr(83), Scr(84), Scr(85), Scr(86), Scr(87)]
    ensures SCRAMBLE[11] == [Scr(88), Scr(89), Scr(90), Scr(91), Scr(92), Scr(93), Scr(94), Scr(95)]
    ensures SCRAMBLE[12] == [Scr(96), Scr(97), Scr(98), Scr(99), Scr(100), Scr(101), Scr(102), Scr(103)]
    ensures SCRAMBLE[13] == [Scr(104), Scr(105), Scr(106), Scr(107), Scr(108), Scr(109), Scr(110), Scr(111)]
    ensures SCRAMBLE[14] == [Scr(112), Scr(113), Scr(114), Scr(115), Scr(116), Scr(117), Scr(118), Scr(119)]
    ensures SCRAMBLE[15] == [Scr(120), Scr(121), Scr(122), Scr(123), Scr(124), Scr(125), Scr(126), Scr(127)]
  {
  }

  /** The sequence repeats after 127 bits. */
  lemma {:induction false} Period(i: nat)
    ensures Scr(i + 127) == Scr(i)
  {
    if i >= 7 {
      Period(i - 7);
      Period(i - 4);
    } else {
      FirstPeriod();
    }
  }

  lemma FirstPeriod()
    ensures Scr(127) == Scr(0) && Scr(128) == Scr(1) && Scr(129) == Scr(2) && Scr(130) == Scr(3)
    ensures Scr(131) == Scr(4) && Scr(132) == Scr(5) && Scr(133) == Scr(6)
  {
    NextBytes();
    assert SCRAMBLE[15] == [true, true, true, true, true, true, true, false];
    assert Scr(120) && Scr(121) && Scr(122) && Scr(123) && Scr(124) && Scr(125) && Scr(126) && !Scr(127);
    assert !Scr(128) && !Scr(129) && !Scr(130);
    assert Scr(131) && Scr(132) && Scr(133);
  }

  /** Bit i of the scrambler by the table. */
  predicate ScrambleBit(i: nat) {
    SCRAMBLE[i % 127 / 8][i % 127 % 8]
  }

  lemma ScrambleTable(i: nat)
    ensures Scr(i) == ScrambleBit(i)
  {
    hide Scr;
    Periods(i);
    var j, k := i % 127 / 8, i % 127 % 8;
    assert i % 127 == 8 * j + k;
    if j < 8 {
      FirstByte(j, k);
    } else {
      NextByte(j, k);
    }
  }

  lemma FirstByte(j: nat, k: nat)
    requires j < 8 && k < 8
    ensures SCRAMBLE[j][k] == Scr(8 * j + k)
  {
    hide Scr;
    FirstBytes();
    match j
    case 0 => ByteAt(SCRAMBLE[0], 0, k);
    case 1 => ByteAt(SCRAMBLE[1], 1, k);
    case 2 => ByteAt(SCRAMBLE[2], 2, k);
    case 3 => ByteAt(SCRAMBLE[3], 3, k);
    case 4 => ByteAt(SCRAMBLE[4], 4, k);
    case 5 => ByteAt(SCRAMBLE[5], 5, k);
    case 6 => ByteAt(SCRAMBLE[6], 6, k);
    case _ => ByteAt(SCRAMBLE[7], 7, k);
  }

  lemma NextByte(j: nat, k: nat)
    requires 8 <= j < 16 && k < 8
    ensures SCRAMBLE[j][k] == Scr(8 * j + k)
  {
    hide Scr;
    NextBytes();
    match j
    case 8 => ByteAt(SCRAMBLE[8], 8, k);
    case 9 => ByteAt(SCRAMBLE[9], 9, k);
    case 10 => ByteAt(SCRAMBLE[10], 10, k);
    case 11 => ByteAt(SCRAMBLE[11], 11, k);
    case 12 => ByteAt(SCRAMBLE[12], 12, k);
    case 13 => ByteAt(SCRAMBLE[13], 13, k);
    case 14 => ByteAt(SCRAMBLE[14], 14, k);
    case _ => ByteAt(SCRAMBLE[15], 15, k);
  }

  lemma ByteAt(b: seq<bool>, j: nat, k: nat)
    requires k < 8 && b == [Scr(8 * j), Scr(8 * j + 1), Scr(8 * j + 2), Scr(8 * j + 3), Scr(8 * j + 4), Scr(8 * j + 5),
                            Scr(8 * j + 6), Scr(8 * j + 7)]
    ensures b[k] == Scr(8 * j + k)
  {
    hide Scr;
  }

  lemma {:induction false} Periods(i: nat)
    ensures Scr(i) == Scr(i % 127)
  {
    hide Scr;
    if i >= 127 {
      Periods(i - 127);
      Period(i - 127);
    }
  }

  // ---- the interleaver

  /** Where the first 24 coded bits go; of each 24 more, one place further. */
  const PLACES: seq<nat> := [0, 28, 56, 84, 112, 140, 168, 196, 224, 252, 280, 308,
                             336, 363, 390, 417, 444, 471, 498, 525, 552, 579, 606, 633]

  function Place(n: nat): nat {
    PLACES[n % 24] + n / 24
  }

  lemma PlaceTable(n: nat)
    requires n < CODED
    ensures Place(n) == Inter(n) < CODED
  {
    var b := n % 24;
    assert PLACES[b] == if b < 12 then 28 * b else 336 + 27 * (b - 12);
  }

  // ---- the header on the air

  /** Bit i of the header; zeros before and after it. */
  predicate HeaderBit(h: seq<bool>, i: int) {
    0 <= i < |h| && h[i]
  }

  /** The 83 bytes of a header: four zeros, then two coded bits for each of its bits and two zeros, the sum of the
      bit and the two before it and the sum of the bit and the second before it, each at its place in the table
      and scrambled by the table's bit there. */
  ghost predicate SectionOf(h: seq<bool>, b: seq<bool>) {
    && |b| == SECTION && !b[0] && !b[1] && !b[2] && !b[3]
    && forall i :: 0 <= i < STEPS ==>
         && Place(2 * i) < CODED && Place(2 * i + 1) < CODED
         && b[4 + Place(2 * i)] ==
              (((HeaderBit(h, i) != HeaderBit(h, i - 1)) != HeaderBit(h, i - 2)) != ScrambleBit(Place(2 * i)))
         && b[4 + Place(2 * i + 1)] ==
              ((HeaderBit(h, i) != HeaderBit(h, i - 2)) != ScrambleBit(Place(2 * i + 1)))
  }

  lemma SectionIs(h: seq<bool>)
    requires |h| == HEADER_BITS
    ensures SectionOf(h, HeaderSection(h))
  {
    hide Scr, ScrambleBit, Place, Inter, Deint, Coded, HeaderBit;
    var x := Inputs(h);
    forall i | 0 <= i < STEPS
      ensures
        && Place(2 * i) < CODED && Place(2 * i + 1) < CODED
        && HeaderSection(h)[4 + Place(2 * i)] ==
             (((HeaderBit(h, i) != HeaderBit(h, i - 1)) != HeaderBit(h, i - 2)) != ScrambleBit(Place(2 * i)))
        && HeaderSection(h)[4 + Place(2 * i + 1)] ==
             ((HeaderBit(h, i) != HeaderBit(h, i - 2)) != ScrambleBit(Place(2 * i + 1)))
    {
      CodedBits(h, i);
      PlaceTable(2 * i);
      PlaceTable(2 * i + 1);
      DeintInter(2 * i);
      DeintInter(2 * i + 1);
      ScrambleTable(Place(2 * i));
      ScrambleTable(Place(2 * i + 1));
    }
  }

  /** The two coded bits of input i. */
  lemma CodedBits(h: seq<bool>, i: nat)
    requires |h| == HEADER_BITS && i < STEPS
    ensures Coded(0, Inputs(h))[2 * i] == ((HeaderBit(h, i) != HeaderBit(h, i - 1)) != HeaderBit(h, i - 2))
    ensures Coded(0, Inputs(h))[2 * i + 1] == (HeaderBit(h, i) != HeaderBit(h, i - 2))
  {
    hide Coded, State;
    var x := Inputs(h);
    assert x[i] == HeaderBit(h, i);
    CodedPrefix(0, x, i + 1);
    assert x[..i + 1] == x[..i] + [x[i]];
    CodedStep(0, x[..i], x[i]);
    LastTwo(h, i);
  }

  /** The state is the last two inputs. */
  lemma {:induction false} LastTwo(h: seq<bool>, i: nat)
    requires |h| == HEADER_BITS && i <= STEPS
    ensures State(0, Inputs(h)[..i]) == Val(HeaderBit(h, i - 1)) + 2 * Val(HeaderBit(h, i - 2))
  {
    hide State;
    var x := Inputs(h);
    if i == 0 {
      NoInput();
    } else {
      LastTwo(h, i - 1);
      assert x[..i] == x[..i - 1] + [x[i - 1]] && x[i - 1] == HeaderBit(h, i - 1);
      StateStep(0, x[..i - 1], x[i - 1]);
    }
  }

  lemma NoInput()
    ensures State(0, []) == 0
  {
  }
}
