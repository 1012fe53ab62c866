/** Gray code: the index of a RADE message, so that consecutive messages differ in one bit. */
module GrayCode {
  import opened Bits

  function Pow2(n: nat): (p: nat)
    ensures p >= 1
  {
    if n == 0 then 1 else 2 * Pow2(n - 1)
  }

  /** Bit k of x. */
  predicate BitAt(x: nat, k: nat) {
    if k == 0 then x % 2 == 1 else BitAt(x / 2, k - 1)
  }

  function XorNat(a: nat, b: nat): nat {
    if a == 0 && b == 0 then 0 else 2 * XorNat(a / 2, b / 2) + Val((a % 2) != (b % 2))
  }

  /** The n low bits of x, the most significant first. */
  function Field(x: nat, n: nat): (f: seq<bool>)
    ensures |f| == n
  {
    if n == 0 then [] else Field(x / 2, n - 1) + [x % 2 == 1]
  }

  /** The number whose bits are f, the most significant first. */
  function Number(f: seq<bool>): nat {
    if f == [] then 0 else 2 * Number(f[..|f| - 1]) + Val(f[|f| - 1])
  }

  lemma {:induction false} FieldBit(x: nat, n: nat, i: nat)
    requires i < n
    ensures Field(x, n)[i] == BitAt(x, n - 1 - i)
  {
    if i < n - 1 {
      FieldBit(x / 2, n - 1, i);
    }
  }

  lemma {:induction false} NumberField(x: nat, n: nat)
    requires x < Pow2(n)
    ensures Number(Field(x, n)) == x
  {
    if n > 0 {
      NumberField(x / 2, n - 1);
      var f := Field(x, n);
      assert f[..n - 1] == Field(x / 2, n - 1) && f[n - 1] == (x % 2 == 1);
      hide Field;
      assert Number(f) == 2 * (x / 2) + Val(x % 2 == 1);
    }
  }

  lemma {:induction false} FieldNumber(f: seq<bool>)
    ensures Number(f) < Pow2(|f|) && Field(Number(f), |f|) == f
  {
    if f != [] {
      FieldNumber(f[..|f| - 1]);
    }
  }

  lemma {:induction false} XorAssociative(a: nat, b: nat, c: nat)
    ensures XorNat(XorNat(a, b), c) == XorNat(a, XorNat(b, c))
  {
    if a != 0 || b != 0 || c != 0 {
      XorAssociative(a / 2, b / 2, c / 2);
      XorDigits(a, b);
      XorDigits(b, c);
      XorDigits(XorNat(a, b), c);
      XorDigits(a, XorNat(b, c));
    }
  }

  lemma XorDigits(a: nat, b: nat)
    ensures XorNat(a, b) / 2 == XorNat(a / 2, b / 2)
    ensures XorNat(a, b) % 2 == Val((a % 2) != (b % 2))
  {
  }

  lemma {:induction false} XorSelf(a: nat)
    ensures XorNat(a, a) == 0 && XorNat(a, 0) == a && XorNat(0, a) == a
  {
    if a != 0 {
      XorSelf(a / 2);
    }
  }

  /** j ^ (j >> 1) */
  function Gray(j: nat): nat {
    XorNat(j, j / 2)
  }

  function Ungray(g: nat): nat {
    if g == 0 then 0 else XorNat(g, Ungray(g / 2))
  }

  lemma {:induction false} UngrayGray(j: nat)
    ensures Ungray(Gray(j)) == j
  {
    if j > 0 {
      UngrayGray(j / 2);
      XorDigits(j, j / 2);
      XorAssociative(j, j / 2, j / 2);
      XorSelf(j / 2);
      XorSelf(j);
    }
  }

  lemma {:induction false} GrayUngray(g: nat)
    ensures Gray(Ungray(g)) == g
  {
    if g > 0 {
      var u := Ungray(g / 2);
      GrayUngray(g / 2);
      XorDigits(g, u);
      XorAssociative(u, u / 2, u / 2);
      XorSelf(u / 2);
      XorSelf(u);
      assert Ungray(g) / 2 == u;
      XorAssociative(g, u, u);
      XorSelf(g);
    }
  }

  lemma {:induction false} XorBound(a: nat, b: nat, n: nat)
    requires a < Pow2(n) && b < Pow2(n)
    ensures XorNat(a, b) < Pow2(n)
  {
    if n > 0 {
      XorBound(a / 2, b / 2, n - 1);
    }
  }

  lemma GrayBound(j: nat, n: nat)
    requires j < Pow2(n)
    ensures Gray(j) < Pow2(n)
  {
    XorBound(j, j / 2, n);
  }

  lemma {:induction false} UngrayBound(g: nat, n: nat)
    requires g < Pow2(n)
    ensures Ungray(g) < Pow2(n)
  {
    if g > 0 {
      UngrayBound(g / 2, n - 1);
      XorBound(g, Ungray(g / 2), n);
    }
  }

  /** The receiver's loop from Gray code to binary inverts the transmitter's Gray code. */
  method ToBinary(gray: nat) returns (j: nat)
    ensures Gray(j) == gray
    ensures j == Ungray(gray)
  {
    j := 0;
    var g := gray;
    XorSelf(Ungray(gray));
    while g != 0
      invariant XorNat(j, Ungray(g)) == Ungray(gray)
    {
      XorAssociative(j, g, Ungray(g / 2));
      j := XorNat(j, g);
      g := g / 2;
    }
    XorSelf(j);
    GrayUngray(gray);
  }

  /** Trailing zeros; 32 for 0. */
  function Tz(j: nat): nat {
    if j == 0 then 32 else if j % 2 == 1 then 0 else 1 + Tz(j / 2)
  }

  lemma {:induction false} TzBound(j: nat, n: nat)
    requires 0 < j < Pow2(n)
    ensures Tz(j) < n
  {
    if j % 2 == 0 {
      TzBound(j / 2, n - 1);
    }
  }

  /** Counting up by one flips exactly one Gray bit, at the trailing zeros of the new value. */
  lemma {:induction false} GrayStep(j: nat, k: nat)
    requires j > 0
    ensures BitAt(Gray(j), k) != BitAt(Gray(j - 1), k) <==> k == Tz(j)
  {
    XorDigits(j, j / 2);
    XorDigits(j - 1, (j - 1) / 2);
    if j % 2 == 1 {
      assert (j - 1) / 2 == j / 2;
      assert Gray(j) / 2 == Gray(j - 1) / 2;
    } else {
      assert (j - 1) / 2 == j / 2 - 1;
      if k > 0 {
        GrayStep(j / 2, k - 1);
      }
    }
  }
}
