/** CRC-16/CCITT as the RADE messages use it: polynomial 0x1021, most significant bit first.
    A 16-bit register is the string of its bits, the most significant first, and a run of
    bytes the string of their bits. */
module Crc16 {
  import opened Bits

  type Register = c: seq<bool> | |c| == 16 witness Zeros(16)

  /** One shift left, with the polynomial (bits 12, 5 and 0) mixed in or not. */
  function Shift(c: Register, mix: bool): Register {
    seq(16, i requires 0 <= i < 16 => (if i < 15 then c[i + 1] else false) != (mix && i in {3, 10, 15}))
  }

  /** One message bit through the register. */
  function Feed(c: Register, b: bool): Register {
    Shift(c, c[0] != b)
  }

  /** The register after the bits x, from c. */
  function Crc(c: Register, x: seq<bool>): Register {
    if x == [] then c else Feed(Crc(c, x[..|x| - 1]), x[|x| - 1])
  }

  // The polynomial 0x1021.
  const POLYNOMIAL: Register :=
    [false, false, false, true, false, false, false, false, false, false, true, false, false, false, false, true]

  /** A bit equal to the register's top bit only shifts it; another one mixes the polynomial in. */
  lemma FeedIs(c: Register, b: bool)
    ensures Feed(c, b) == if c[0] == b then c[1..] + [false] else Xor(c[1..] + [false], POLYNOMIAL)
  {
  }

  lemma FeedXor(c: Register, d: Register, b: bool, e: bool)
    ensures Feed(Xor(c, d), b != e) == Xor(Feed(c, b), Feed(d, e))
  {
  }

  /** The CRC is linear in the start value and the message together. */
  lemma {:induction false} CrcXor(c: Register, d: Register, x: seq<bool>, y: seq<bool>)
    requires |x| == |y|
    ensures Crc(Xor(c, d), Xor(x, y)) == Xor(Crc(c, x), Crc(d, y))
  {
    hide Feed;
    if x != [] {
      var n := |x| - 1;
      CrcXor(c, d, x[..n], y[..n]);
      assert Xor(x, y)[..n] == Xor(x[..n], y[..n]);
      FeedXor(Crc(c, x[..n]), Crc(d, y[..n]), x[n], y[n]);
    }
  }

  lemma CrcStep(c: Register, x: seq<bool>, b: bool)
    ensures Crc(c, x + [b]) == Feed(Crc(c, x), b)
  {
    assert (x + [b])[..|x|] == x;
  }

  /** Bits mixed in at the top of the register before the shift are fed by it. */
  lemma ShiftFeeds(c: Register, q: Register)
    ensures Shift(Xor(c, q), Xor(c, q)[0]) == Xor(Feed(c, q[0]), q[1..] + [false])
  {
  }

  lemma CrcNone(c: Register)
    ensures Crc(c, []) == c
  {
  }

  /** The byte-wise CRC of the source computes the bit-serial one. */
  method CrcFrom(start: Register, p: seq<bool>) returns (c: Register)
    requires |p| % 8 == 0
    ensures c == Crc(start, p)
  {
    hide Shift, Feed, Crc;
    c := start;
    assert p[..0] == [];
    CrcNone(start);
    for i := 0 to |p| / 8
      invariant c == Crc(start, p[..8 * i])
    {
      var byte := p[8 * i..8 * i + 8];
      ghost var r, q: Register := c, byte + Zeros(8);
      c := Xor(c, byte + Zeros(8));
      for b := 0 to 8
        invariant c == Xor(r, q) && r == Crc(start, p[..8 * i + b])
        invariant q == byte[b..] + Zeros(8 + b)
      {
        ShiftFeeds(r, q);
        CrcStep(start, p[..8 * i + b], p[8 * i + b]);
        assert p[..8 * i + b + 1] == p[..8 * i + b] + [p[8 * i + b]];
        c := Shift(c, c[0]);
        r, q := Feed(r, q[0]), q[1..] + [false];
      }
      assert c == r;
    }
    assert p[..|p|] == p;
  }

  // ---- a byte at a time, from a table
  // With the least significant bit first the same register is the reflected CRC of D-STAR
  // (polynomial 0x8408).

  /** n shifts with nothing fed in. */
  function Run(c: Register, n: nat): Register
    decreases n
  {
    if n == 0 then c else Run(Shift(c, c[0]), n - 1)
  }

  lemma {:induction false} RunXor(c: Register, d: Register, n: nat)
    ensures Run(Xor(c, d), n) == Xor(Run(c, n), Run(d, n))
    decreases n
  {
    if n > 0 {
      ShiftXor(c, d);
      hide Shift;
      RunXor(Shift(c, c[0]), Shift(d, d[0]), n - 1);
    }
  }

  lemma ShiftXor(c: Register, d: Register)
    ensures Shift(Xor(c, d), Xor(c, d)[0]) == Xor(Shift(c, c[0]), Shift(d, d[0]))
  {
  }

  /** Zeros at the low end only move out. */
  lemma {:induction false} RunZeros(x: seq<bool>, n: nat, m: nat)
    requires n + |x| + m == 16
    ensures Run(Zeros(n) + x + Zeros(m), n) == x + Zeros(n + m)
  {
    var c: Register := Zeros(n) + x + Zeros(m);
    if n == 0 {
      assert c == x + Zeros(m);
    } else {
      assert Shift(c, c[0]) == Zeros(n - 1) + x + Zeros(m + 1);
      hide Shift;
      RunZeros(x, n - 1, m + 1);
    }
  }

  /** Mixing n bits in at the low end and shifting n times feeds them. */
  lemma {:induction false} RunFeeds(c: Register, d: seq<bool>, n: nat)
    requires n <= |d| <= 16
    ensures Run(Xor(c, d + Zeros(16 - |d|)), n) == Xor(Crc(c, d[..n]), d[n..] + Zeros(16 - |d| + n))
  {
    if n == 0 {
      assert d[..0] == [] && d[0..] == d;
    } else {
      RunFeeds(c, d, n - 1);
      RunSnoc(Xor(c, d + Zeros(16 - |d|)), n - 1);
      var q: Register := d[n - 1..] + Zeros(16 - |d| + n - 1);
      ShiftFeeds(Crc(c, d[..n - 1]), q);
      hide Shift, Feed;
      ZerosLast(d, n);
      CrcStep(c, d[..n - 1], d[n - 1]);
      assert d[..n] == d[..n - 1] + [d[n - 1]];
    }
  }

  lemma ZerosLast(d: seq<bool>, n: nat)
    requires 0 < n <= |d| <= 16
    ensures var q := d[n - 1..] + Zeros(16 - |d| + n - 1);
      q[0] == d[n - 1] && q[1..] + [false] == d[n..] + Zeros(16 - |d| + n)
  {
    var z := Zeros(16 - |d| + n - 1);
    assert (d[n - 1..] + z)[1..] == d[n..] + z;
    assert z + [false] == Zeros(16 - |d| + n);
    assert d[n..] + z + [false] == d[n..] + (z + [false]);
  }

  lemma {:induction false} RunSnoc(c: Register, n: nat)
    ensures Run(c, n + 1) == Shift(Run(c, n), Run(c, n)[0])
    decreases n
  {
    hide Shift;
    if n > 0 {
      RunSnoc(Shift(c, c[0]), n - 1);
    }
  }

  const ALL_ONES: Register :=
    [true, true, true, true, true, true, true, true, true, true, true, true, true, true, true, true]

  /** What sixteen shifts make of a register of ones: the residue of the CRC. */
  function Residue(): Register {
    Run(ALL_ONES, 16)
  }

  /** Fed its own complement, any register comes to the residue. */
  lemma ComplementResidue(c: Register, x: seq<bool>)
    requires |x| == 16 && forall i :: 0 <= i < 16 ==> x[i] == !c[i]
    ensures Crc(c, x) == Residue()
  {
    hide Run, Crc;
    RunFeeds(c, x, 16);
    assert x[..16] == x && x[16..] == [] && x + Zeros(0) == x && Xor(c, x) == ALL_ONES;
    assert Xor(Crc(c, x), Zeros(16)) == Crc(c, x);
    assert x[16..] + Zeros(16) == Zeros(16);
  }

  /** The table's entry for a byte. */
  function Table(b: seq<bool>): Register
    requires |b| == 8
  {
    Run(b + Zeros(8), 8)
  }

  /** One byte through the table is eight bits through the register. */
  lemma TableStep(c: Register, d: seq<bool>)
    requires |d| == 8
    ensures Xor(c[8..] + Zeros(8), Table(Xor(c[..8], d))) == Crc(c, d)
  {
    hide Run, Crc;
    var low: Register := Xor(c[..8], d) + Zeros(8);
    var high: Register := Zeros(8) + c[8..] + Zeros(0);
    RunFeeds(c, d, 8);
    assert d[..8] == d && d[8..] + Zeros(16) == Zeros(16);
    assert Xor(Crc(c, d), Zeros(16)) == Crc(c, d);
    assert Xor(c, d + Zeros(8)) == Xor(high, low);
    RunXor(high, low, 8);
    RunZeros(c[8..], 8, 0);
  }

  lemma {:induction false} CrcAppend(c: Register, x: seq<bool>, y: seq<bool>)
    ensures Crc(c, x + y) == Crc(Crc(c, x), y)
  {
    hide Feed;
    if y == [] {
      assert x + y == x;
    } else {
      CrcAppend(c, x, y[..|y| - 1]);
      assert (x + y)[..|x + y| - 1] == x + y[..|y| - 1];
    }
  }

  /** The table-driven CRC of the D-STAR header computes the bit-serial one. */
  method TableCrc(start: Register, p: seq<bool>) returns (c: Register)
    requires |p| % 8 == 0
    ensures c == Crc(start, p)
  {
    hide Crc, Table;
    c := start;
    CrcNone(start);
    assert p[..0] == [];
    for i := 0 to |p| / 8
      invariant c == Crc(start, p[..8 * i])
    {
      var d := p[8 * i..8 * i + 8];
      TableStep(c, d);
      CrcAppend(start, p[..8 * i], d);
      assert p[..8 * i] + d == p[..8 * (i + 1)];
      c := Xor(c[8..] + Zeros(8), Table(Xor(c[..8], d)));
    }
    assert p[..|p|] == p;
  }
}
