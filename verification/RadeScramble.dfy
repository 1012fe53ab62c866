/** The analogue scrambling of a RADE frame: each carrier's two symbols are mixed by a keyed
    special unitary 2x2 matrix. Amplitudes are real numbers. */
module RadeScramble {
  import opened VoiceCrypto

  datatype Complex = C(re: real, im: real)

  function Add(x: Complex, y: Complex): Complex { C(x.re + y.re, x.im + y.im) }
  function Sub(x: Complex, y: Complex): Complex { C(x.re - y.re, x.im - y.im) }
  function Mul(x: Complex, y: Complex): Complex { C(x.re * y.re - x.im * y.im, x.re * y.im + x.im * y.re) }
  function Conj(x: Complex): Complex { C(x.re, -x.im) }
  function Norm(x: Complex): real { x.re * x.re + x.im * x.im }
  function Scale(x: Complex, a: real): Complex { C(x.re * a, x.im * a) }

  /** [[a, -b*], [b, a*]] */
  datatype Su2 = Su2(a: Complex, b: Complex)

  ghost predicate Unitary(u: Su2) {
    Norm(u.a) + Norm(u.b) == 1.0
  }

  datatype Pair = Pair(x0: Complex, x1: Complex)

  function Mix(u: Su2, x: Pair): Pair {
    Pair(Sub(Mul(u.a, x.x0), Mul(Conj(u.b), x.x1)),
         Add(Mul(u.b, x.x0), Mul(Conj(u.a), x.x1)))
  }

  function Unmix(u: Su2, y: Pair): Pair {
    Pair(Add(Mul(Conj(u.a), y.x0), Mul(Conj(u.b), y.x1)),
         Sub(Mul(u.a, y.x1), Mul(u.b, y.x0)))
  }

  function Through(h: Complex, x: Pair): Pair {
    Pair(Mul(h, x.x0), Mul(h, x.x1))
  }

  lemma MulCommutes(x: Complex, y: Complex)
    ensures Mul(x, y) == Mul(y, x)
  {
  }

  lemma MulAssociates(x: Complex, y: Complex, z: Complex)
    ensures Mul(x, Mul(y, z)) == Mul(Mul(x, y), z)
  {
    assert Mul(x, Mul(y, z)).re == Mul(Mul(x, y), z).re;
    assert Mul(x, Mul(y, z)).im == Mul(Mul(x, y), z).im;
  }

  lemma MulDistributes(x: Complex, y: Complex, z: Complex)
    ensures Mul(x, Add(y, z)) == Add(Mul(x, y), Mul(x, z))
    ensures Mul(x, Sub(y, z)) == Sub(Mul(x, y), Mul(x, z))
  {
  }

  lemma ConjNorm(x: Complex)
    ensures Mul(Conj(x), x) == C(Norm(x), 0.0)
  {
  }

  /** x (y z) == y (x z) */
  lemma MulSwap(x: Complex, y: Complex, z: Complex)
    ensures Mul(x, Mul(y, z)) == Mul(y, Mul(x, z))
  {
    hide Mul;
    MulAssociates(x, y, z);
    MulAssociates(y, x, z);
    MulCommutes(x, y);
  }

  /** The gain of a carrier passes through its mixing. */
  lemma MixThrough(u: Su2, h: Complex, x: Pair)
    ensures Mix(u, Through(h, x)) == Through(h, Mix(u, x))
  {
    hide Mul, Add, Sub, Conj;
    MulSwap(u.a, h, x.x0);
    MulSwap(Conj(u.b), h, x.x1);
    MulSwap(u.b, h, x.x0);
    MulSwap(Conj(u.a), h, x.x1);
    MulDistributes(h, Mul(u.a, x.x0), Mul(Conj(u.b), x.x1));
    MulDistributes(h, Mul(u.b, x.x0), Mul(Conj(u.a), x.x1));
  }

  lemma UnmixMix(u: Su2, x: Pair)
    requires Unitary(u)
    ensures Unmix(u, Mix(u, x)) == x
  {
    var y := Mix(u, x);
    hide Mul;
    MulDistributes(Conj(u.a), Mul(u.a, x.x0), Mul(Conj(u.b), x.x1));
    MulDistributes(Conj(u.b), Mul(u.b, x.x0), Mul(Conj(u.a), x.x1));
    MulDistributes(u.a, Mul(u.b, x.x0), Mul(Conj(u.a), x.x1));
    MulDistributes(u.b, Mul(u.a, x.x0), Mul(Conj(u.b), x.x1));
    MulAssociates(Conj(u.a), u.a, x.x0);
    MulAssociates(Conj(u.b), u.b, x.x0);
    MulAssociates(u.a, Conj(u.a), x.x1);
    MulAssociates(u.b, Conj(u.b), x.x1);
    MulCommutes(u.a, Conj(u.a));
    MulCommutes(u.b, Conj(u.b));
    MulSwap(Conj(u.a), Conj(u.b), x.x1);
    MulSwap(u.a, u.b, x.x0);
    ConjNorm(u.a);
    ConjNorm(u.b);
    NormsAdd(Norm(u.a), Norm(u.b), x.x0);
    NormsAdd(Norm(u.a), Norm(u.b), x.x1);
  }

  lemma NormsAdd(p: real, q: real, x: Complex)
    requires p + q == 1.0
    ensures Add(Mul(C(p, 0.0), x), Mul(C(q, 0.0), x)) == x
  {
    assert p * x.re + q * x.re == (p + q) * x.re;
    assert p * x.im + q * x.im == (p + q) * x.im;
  }

  /** A channel gain common to both symbols passes through the mixing, and unmixing undoes it. */
  lemma UnmixInverts(u: Su2, h: Complex, x: Pair)
    requires Unitary(u)
    ensures Unmix(u, Through(h, Mix(u, x))) == Through(h, x)
  {
    hide Mix, Unmix, Through;
    MixThrough(u, h, x);
    UnmixMix(u, Through(h, x));
  }

  // ---- keystream to matrices

  const NC := 14                  // data carriers
  const NS := 2                   // symbols of a frame
  const LATENT := NC * NS
  const BLOCKS_PER_FRAME := 4
  const CARRIER_BITS := 128       // keystream of one carrier

  /** The analogue library: 64 bits of keystream to two normal deviates, and the square root. */
  datatype Analog = Analog(normals: seq<bool> -> (real, real), sqrt: real -> real)

  ghost predicate SquareRoot(sqrt: real -> real) {
    forall x: real :: x >= 0.0 ==> sqrt(x) >= 0.0 && sqrt(x) * sqrt(x) == x
  }

  function Length2(g: (real, real), h: (real, real)): real {
    g.0 * g.0 + g.1 * g.1 + h.0 * h.0 + h.1 * h.1
  }

  /** A carrier's matrix: four deviates normalised to a unit quaternion. */
  function CarrierMatrix(ks: seq<bool>, an: Analog): Su2
    requires |ks| == CARRIER_BITS
  {
    var g, h := an.normals(ks[..64]), an.normals(ks[64..]);
    var n := an.sqrt(Length2(g, h));
    if n < 0.000000000001 then Su2(C(1.0, 0.0), C(0.0, 0.0))
    else Su2(C(g.0 / n, g.1 / n), C(h.0 / n, h.1 / n))
  }

  /** Whatever the keystream, the matrix is unitary. */
  lemma CarrierUnitary(ks: seq<bool>, an: Analog)
    requires |ks| == CARRIER_BITS && SquareRoot(an.sqrt)
    ensures Unitary(CarrierMatrix(ks, an))
  {
    var g, h := an.normals(ks[..64]), an.normals(ks[64..]);
    var n2 := Length2(g, h);
    var n := an.sqrt(n2);
    assert n2 >= 0.0 by {
      Square(g.0); Square(g.1); Square(h.0); Square(h.1);
    }
    assert n >= 0.0 && n * n == n2;
    if n >= 0.000000000001 {
      UnitQuaternion(g.0, g.1, h.0, h.1, n);
    }
  }

  lemma UnitQuaternion(p: real, q: real, r: real, s: real, n: real)
    requires n > 0.0 && p * p + q * q + r * r + s * s == n * n
    ensures Norm(C(p / n, q / n)) + Norm(C(r / n, s / n)) == 1.0
  {
    Reciprocal(p, n); Reciprocal(q, n); Reciprocal(r, n); Reciprocal(s, n); Reciprocal(n, n);
    UnitScaled(p, q, r, s, n, 1.0 / n);
  }

  lemma Reciprocal(p: real, n: real)
    requires n > 0.0
    ensures p / n == p * (1.0 / n)
    ensures n * (1.0 / n) == 1.0
  {
  }

  lemma UnitScaled(p: real, q: real, r: real, s: real, n: real, x: real)
    requires p * p + q * q + r * r + s * s == n * n && n * x == 1.0
    ensures (p * x) * (p * x) + (q * x) * (q * x) + ((r * x) * (r * x) + (s * x) * (s * x)) == 1.0
  {
    calc {
      (p * x) * (p * x) + (q * x) * (q * x) + ((r * x) * (r * x) + (s * x) * (s * x));
    == { SumScaled(p, q, r, s, x); }
      (p * p + q * q + r * r + s * s) * (x * x);
    ==
      (n * n) * (x * x);
    == { ProductSquare(n, x); }
      (n * x) * (n * x);
    ==
      1.0;
    }
  }

  lemma SumScaled(p: real, q: real, r: real, s: real, x: real)
    ensures (p * x) * (p * x) + (q * x) * (q * x) + ((r * x) * (r * x) + (s * x) * (s * x)) ==
            (p * p + q * q + r * r + s * s) * (x * x)
  {
  }

  lemma ProductSquare(n: real, x: real)
    ensures (n * n) * (x * x) == (n * x) * (n * x)
  {
  }

  lemma Square(x: real)
    ensures x * x >= 0.0
  {
  }

  function BlockCounter(frame: nat, b: nat): nat {
    (frame * BLOCKS_PER_FRAME + b) % WORD
  }

  /** The keystream of a frame, if the key store gives all of it. */
  function FrameKey(keys: KeyStore, r: Nonce, frame: nat): (ks: Option<seq<bool>>)
    ensures ks.Some? ==> |ks.value| == BLOCKS_PER_FRAME * BLOCK_BITS
  {
    var b0, b1 := keys(RadeLatent, r, BlockCounter(frame, 0)), keys(RadeLatent, r, BlockCounter(frame, 1));
    var b2, b3 := keys(RadeLatent, r, BlockCounter(frame, 2)), keys(RadeLatent, r, BlockCounter(frame, 3));
    if b0.Some? && b1.Some? && b2.Some? && b3.Some?
    then Some(b0.value + b1.value + b2.value + b3.value)
    else None
  }

  function Matrix(ks: seq<bool>, c: nat, an: Analog): Su2
    requires |ks| == BLOCKS_PER_FRAME * BLOCK_BITS && c < NC
  {
    CarrierMatrix(ks[CARRIER_BITS * c..CARRIER_BITS * (c + 1)], an)
  }

  /** Carrier c's two symbols in a latent. */
  function Symbols(z: seq<Complex>, c: nat): Pair
    requires |z| == LATENT && c < NC
  {
    Pair(z[c], z[NC + c])
  }

  /** out is the latent z mixed (or unmixed) by the matrices of the keystream ks. */
  ghost predicate Scrambled(out: seq<Complex>, z: seq<Complex>, ks: seq<bool>, inverse: bool, an: Analog)
    requires |ks| == BLOCKS_PER_FRAME * BLOCK_BITS
  {
    && |out| == |z| == LATENT
    && forall c :: 0 <= c < NC ==>
         Symbols(out, c) == if inverse then Unmix(Matrix(ks, c, an), Symbols(z, c))
                            else Mix(Matrix(ks, c, an), Symbols(z, c))
  }

  /** The quaternion of two pairs of deviates, not yet normalised, on a carrier's two symbols. */
  function Quaternion(g: (real, real), h: (real, real), inverse: bool, x: Pair): Pair {
    var a, b := C(g.0, g.1), C(h.0, h.1);
    if inverse then Pair(Add(Mul(Conj(a), x.x0), Mul(Conj(b), x.x1)), Sub(Mul(a, x.x1), Mul(b, x.x0)))
    else Pair(Sub(Mul(a, x.x0), Mul(Conj(b), x.x1)), Add(Mul(b, x.x0), Mul(Conj(a), x.x1)))
  }

  /** The same in terms of the deviates: carrier c takes the bits from 128 c on, and what comes out, times the
      length of its four deviates, is their quaternion applied to what went in. */
  ghost predicate Deviated(out: seq<Complex>, z: seq<Complex>, ks: seq<bool>, inverse: bool, an: Analog)
    requires |ks| == BLOCKS_PER_FRAME * BLOCK_BITS
  {
    && |out| == |z| == LATENT
    && forall c :: 0 <= c < NC ==>
         QuaternionMoved(Symbols(out, c), Symbols(z, c), ks[128 * c..128 * c + 64], ks[128 * c + 64..128 * c + 128], inverse, an)
  }

  ghost predicate QuaternionMoved(y: Pair, x: Pair, k0: seq<bool>, k1: seq<bool>, inverse: bool, an: Analog) {
    var g, h := an.normals(k0), an.normals(k1);
    var n := an.sqrt(Length2(g, h));
    if n < 0.000000000001 then y == x else Pair(Scale(y.x0, n), Scale(y.x1, n)) == Quaternion(g, h, inverse, x)
  }

  lemma ScrambledDeviates(out: seq<Complex>, z: seq<Complex>, ks: seq<bool>, inverse: bool, an: Analog)
    requires |ks| == BLOCKS_PER_FRAME * BLOCK_BITS && Scrambled(out, z, ks, inverse, an)
    ensures Deviated(out, z, ks, inverse, an)
  {
    hide Mix, Unmix, QuaternionMoved, CarrierMatrix, Symbols;
    forall c | 0 <= c < NC
      ensures QuaternionMoved(Symbols(out, c), Symbols(z, c), ks[128 * c..128 * c + 64], ks[128 * c + 64..128 * c + 128],
                              inverse, an)
    {
      var k := ks[CARRIER_BITS * c..CARRIER_BITS * (c + 1)];
      assert k[..64] == ks[128 * c..128 * c + 64] && k[64..] == ks[128 * c + 64..128 * c + 128];
      CarrierMoved(Symbols(z, c), k, an);
    }
  }

  lemma CarrierMoved(x: Pair, k: seq<bool>, an: Analog)
    requires |k| == CARRIER_BITS
    ensures QuaternionMoved(Mix(CarrierMatrix(k, an), x), x, k[..64], k[64..], false, an)
    ensures QuaternionMoved(Unmix(CarrierMatrix(k, an), x), x, k[..64], k[64..], true, an)
  {
    hide Mix, Unmix, Quaternion, Scale, Length2;
    var g, h := an.normals(k[..64]), an.normals(k[64..]);
    var n := an.sqrt(Length2(g, h));
    if n < 0.000000000001 {
      Unmoved(x);
    } else {
      Lengthened(g, h, n, x);
    }
  }

  /** The identity matrix moves nothing. */
  lemma Unmoved(x: Pair)
    ensures var u := Su2(C(1.0, 0.0), C(0.0, 0.0)); Mix(u, x) == x && Unmix(u, x) == x
  {
    hide Mul, Conj;
    RealConj(1.0);
    RealConj(0.0);
    OneTimes(x.x0);
    OneTimes(x.x1);
  }

  lemma RealConj(a: real)
    ensures Conj(C(a, 0.0)) == C(a, 0.0)
  {
  }

  lemma OneTimes(x: Complex)
    ensures Mul(C(1.0, 0.0), x) == x && Mul(C(0.0, 0.0), x) == C(0.0, 0.0)
  {
  }

  lemma Lengthened(g: (real, real), h: (real, real), n: real, x: Pair)
    requires n > 0.0
    ensures var u := Su2(C(g.0 / n, g.1 / n), C(h.0 / n, h.1 / n));
      && Pair(Scale(Mix(u, x).x0, n), Scale(Mix(u, x).x1, n)) == Quaternion(g, h, false, x)
      && Pair(Scale(Unmix(u, x).x0, n), Scale(Unmix(u, x).x1, n)) == Quaternion(g, h, true, x)
  {
    hide Mul;
    var a, b := C(g.0 / n, g.1 / n), C(h.0 / n, h.1 / n);
    Restored(g.0, n); Restored(g.1, n); Restored(h.0, n); Restored(h.1, n);
    assert Scale(a, n) == C(g.0, g.1) && Scale(b, n) == C(h.0, h.1);
    assert Scale(Conj(a), n) == Conj(C(g.0, g.1)) && Scale(Conj(b), n) == Conj(C(h.0, h.1));
    hide Scale, Conj, Add, Sub;
    ScaleSum(a, x.x0, Conj(b), x.x1, n);
    ScaleSum(b, x.x0, Conj(a), x.x1, n);
    ScaleSum(Conj(a), x.x0, Conj(b), x.x1, n);
    ScaleSum(a, x.x1, b, x.x0, n);
  }

  lemma ScaleSum(a: Complex, x: Complex, b: Complex, y: Complex, n: real)
    ensures Scale(Add(Mul(a, x), Mul(b, y)), n) == Add(Mul(Scale(a, n), x), Mul(Scale(b, n), y))
    ensures Scale(Sub(Mul(a, x), Mul(b, y)), n) == Sub(Mul(Scale(a, n), x), Mul(Scale(b, n), y))
  {
    hide Mul;
    ScaleMul(a, x, n);
    ScaleMul(b, y, n);
    ScaleAdd(Mul(a, x), Mul(b, y), n);
  }

  lemma Restored(p: real, n: real)
    requires n > 0.0
    ensures p / n * n == p
  {
  }

  lemma ScaleMul(x: Complex, y: Complex, n: real)
    ensures Scale(Mul(x, y), n) == Mul(Scale(x, n), y)
  {
    Redistribute(x.re, y.re, x.im, y.im, n);
    Redistribute(x.re, y.im, -x.im, y.re, n);
  }

  lemma Redistribute(a: real, b: real, c: real, d: real, n: real)
    ensures (a * b - c * d) * n == (a * n) * b - (c * n) * d
  {
  }

  lemma ScaleAdd(x: Complex, y: Complex, n: real)
    ensures Scale(Add(x, y), n) == Add(Scale(x, n), Scale(y, n))
    ensures Scale(Sub(x, y), n) == Sub(Scale(x, n), Scale(y, n))
  {
  }

  // ---- which blocks a frame is mixed with

  /** The keystream of four blocks, each of them given by its nonce and its number. */
  ghost predicate Fetched(keys: KeyStore, u: seq<(Nonce, nat)>) {
    |u| == BLOCKS_PER_FRAME && forall i :: 0 <= i < |u| ==> keys(RadeLatent, u[i].0, u[i].1).Some?
  }

  ghost function Stream(keys: KeyStore, u: seq<(Nonce, nat)>): (ks: seq<bool>)
    requires Fetched(keys, u)
    ensures |ks| == BLOCKS_PER_FRAME * BLOCK_BITS
  {
    keys(RadeLatent, u[0].0, u[0].1).value + keys(RadeLatent, u[1].0, u[1].1).value
    + keys(RadeLatent, u[2].0, u[2].1).value + keys(RadeLatent, u[3].0, u[3].1).value
  }

  /** out is the latent z mixed (or unmixed) with just these blocks. */
  ghost predicate MixedUnder(out: seq<Complex>, z: seq<Complex>, keys: KeyStore, u: seq<(Nonce, nat)>, inverse: bool,
                             an: Analog)
  {
    Fetched(keys, u) && Scrambled(out, z, Stream(keys, u), inverse, an) && Deviated(out, z, Stream(keys, u), inverse, an)
  }

  /** The blocks of frame k: four of them, numbered on from 4 k. */
  ghost predicate BlocksOf(u: seq<(Nonce, nat)>, r: Nonce, k: nat) {
    |u| == 4 && forall i :: 0 <= i < 4 ==> u[i] == (r, (4 * k + i) % 0x1_0000_0000)
  }

  /** A frame mixed with the keystream of its number is mixed with just its blocks. */
  lemma MixedBlocks(out: seq<Complex>, z: seq<Complex>, keys: KeyStore, r: Nonce, k: nat, u: seq<(Nonce, nat)>, inverse: bool,
                    an: Analog)
    requires FrameKey(keys, r, k).Some? && Scrambled(out, z, FrameKey(keys, r, k).value, inverse, an) && BlocksOf(u, r, k)
    ensures MixedUnder(out, z, keys, u, inverse, an)
  {
    hide Scrambled, Deviated;
    assert u[0] == (r, BlockCounter(k, 0)) && u[1] == (r, BlockCounter(k, 1));
    assert u[2] == (r, BlockCounter(k, 2)) && u[3] == (r, BlockCounter(k, 3));
    assert Fetched(keys, u) && Stream(keys, u) == FrameKey(keys, r, k).value;
    ScrambledDeviates(out, z, Stream(keys, u), inverse, an);
  }

  /** The keystream of a frame is to be had exactly if each of its blocks is. */
  lemma FetchedFrame(keys: KeyStore, r: Nonce, k: nat, u: seq<(Nonce, nat)>)
    requires BlocksOf(u, r, k)
    ensures FrameKey(keys, r, k).Some? <==> Fetched(keys, u)
  {
    assert u[0] == (r, BlockCounter(k, 0)) && u[1] == (r, BlockCounter(k, 1));
    assert u[2] == (r, BlockCounter(k, 2)) && u[3] == (r, BlockCounter(k, 3));
  }

  /** Mix or unmix a latent in place with the blocks of the frame; unless all of them are to be had it is left alone. */
  method Scramble(z: array<Complex>, keys: KeyStore, r: Nonce, frame: nat, inverse: bool, an: Analog)
    returns (ok: bool)
    requires z.Length == LATENT
    modifies z
    ensures ok == FrameKey(keys, r, frame).Some?
    ensures ok ==> Scrambled(z[..], old(z[..]), FrameKey(keys, r, frame).value, inverse, an)
    ensures !ok ==> z[..] == old(z[..])
    ensures forall u :: BlocksOf(u, r, frame) ==>
      (ok <==> Fetched(keys, u)) && (ok ==> MixedUnder(z[..], old(z[..]), keys, u, inverse, an))
  {
    ok := MixWith(z, keys, r, frame, inverse, an);
    hide FrameKey, Scrambled, BlocksOf, Fetched, MixedUnder;
    forall u | BlocksOf(u, r, frame)
      ensures (ok <==> Fetched(keys, u)) && (ok ==> MixedUnder(z[..], old(z[..]), keys, u, inverse, an))
    {
      FetchedFrame(keys, r, frame, u);
      if ok {
        MixedBlocks(z[..], old(z[..]), keys, r, frame, u, inverse, an);
      }
    }
  }

  method MixWith(z: array<Complex>, keys: KeyStore, r: Nonce, frame: nat, inverse: bool, an: Analog)
    returns (ok: bool)
    requires z.Length == LATENT
    modifies z
    ensures ok == FrameKey(keys, r, frame).Some?
    ensures ok ==> Scrambled(z[..], old(z[..]), FrameKey(keys, r, frame).value, inverse, an)
    ensures !ok ==> z[..] == old(z[..])
  {
    hide Matrix, Mix, Unmix;
    var ks: seq<bool> := [];
    for b := 0 to BLOCKS_PER_FRAME
      invariant z[..] == old(z[..])
      invariant |ks| == b * BLOCK_BITS
      invariant forall i :: 0 <= i < b ==>
        keys(RadeLatent, r, BlockCounter(frame, i)) == Some(ks[i * BLOCK_BITS..(i + 1) * BLOCK_BITS])
    {
      var block := keys(RadeLatent, r, BlockCounter(frame, b));
      if block.None? {
        return false;
      }
      assert forall i :: 0 <= i < b ==>
        (ks + block.value)[i * BLOCK_BITS..(i + 1) * BLOCK_BITS] == ks[i * BLOCK_BITS..(i + 1) * BLOCK_BITS];
      ks := ks + block.value;
      assert ks[b * BLOCK_BITS..(b + 1) * BLOCK_BITS] == block.value;
    }
    assert ks == ks[0..512] + ks[512..1024] + ks[1024..1536] + ks[1536..2048];
    for c := 0 to NC
      invariant forall i :: c <= i < NC ==> Symbols(z[..], i) == Symbols(old(z[..]), i)
      invariant forall i :: 0 <= i < c ==>
        Symbols(z[..], i) == if inverse then Unmix(Matrix(ks, i, an), Symbols(old(z[..]), i))
                             else Mix(Matrix(ks, i, an), Symbols(old(z[..]), i))
    {
      var u, x := Matrix(ks, c, an), Pair(z[c], z[NC + c]);
      assert x == Symbols(z[..], c);
      var y := if inverse then Unmix(u, x) else Mix(u, x);
      ghost var before := z[..];
      z[c] := y.x0;
      z[NC + c] := y.x1;
      assert forall i :: 0 <= i < NC && i != c ==> Symbols(z[..], i) == Symbols(before, i);
      assert Symbols(z[..], c) == y;
    }
    return true;
  }
}
