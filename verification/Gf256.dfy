/** Arithmetic in GF(2^8), FIPS-197 section 4: the RTL's constant multipliers,
    all built from `XTime`, and the byte product that the reference model forms
    with a shift-and-reduce loop.

    Proofs hide the bit-level bodies and argue from the laws proved about them. */
module Gf256 {

  /** Addition in the field: exclusive or. */
  function Add(a: bv8, b: bv8): bv8 {
    a ^ b
  }

  /** Multiplication by x, reduced by x^8 + x^4 + x^3 + x + 1. */
  function XTime(a: bv8): bv8 {
    if a & 0x80 != 0 then (a << 1) ^ 0x1b else a << 1
  }

  function GMul2(a: bv8): bv8 {
    XTime(a)
  }

  function GMul3(a: bv8): bv8 {
    Add(XTime(a), a)
  }

  function GMul9(a: bv8): bv8 {
    var x2 := XTime(a);
    var x4 := XTime(x2);
    var x8 := XTime(x4);
    Add(x8, a)
  }

  function GMul11(a: bv8): bv8 {
    var x2 := XTime(a);
    var x4 := XTime(x2);
    var x8 := XTime(x4);
    Add(Add(x8, x2), a)
  }

  function GMul13(a: bv8): bv8 {
    var x2 := XTime(a);
    var x4 := XTime(x2);
    var x8 := XTime(x4);
    Add(Add(x8, x4), a)
  }

  function GMul14(a: bv8): bv8 {
    var x2 := XTime(a);
    var x4 := XTime(x2);
    var x8 := XTime(x4);
    Add(Add(x8, x4), x2)
  }

  // ----- The byte product -----

  /** `a` if the low bit of `b` is set. */
  function Select(b: bv8, a: bv8): bv8 {
    if b & 1 != 0 then a else 0
  }

  function Half(b: bv8): (h: bv8)
    ensures b != 0 ==> h < b
  {
    b >> 1
  }

  /** The product in GF(2^8) as the reference's shift-and-reduce loop forms it,
      from the lowest bit of `b` up. */
  function GMul(a: bv8, b: bv8): bv8
    decreases b
  {
    if b == 0 then 0 else Add(Select(b, a), GMul(XTime(a), Half(b)))
  }

  // ----- Laws of the bit-level operations -----

  lemma AddLaws(a: bv8, b: bv8, c: bv8)
    ensures Add(a, b) == Add(b, a)
    ensures Add(Add(a, b), c) == Add(a, Add(b, c))
    ensures Add(a, 0) == a && Add(0, a) == a && Add(a, a) == 0
  {
    calc {
      Add(Add(a, b), c);
      Add(a ^ b, c);
      (a ^ b) ^ c;
      a ^ (b ^ c);
      Add(a, b ^ c);
      Add(a, Add(b, c));
    }
  }

  lemma AddSwap(a: bv8, b: bv8, c: bv8, d: bv8)
    ensures Add(Add(a, b), Add(c, d)) == Add(Add(a, c), Add(b, d))
  {
    hide Add;
    AddLaws(a, b, Add(c, d));
    AddLaws(b, c, d);
    AddLaws(c, b, d);
    AddLaws(a, c, Add(b, d));
  }

  lemma XTimeAdd(a: bv8, b: bv8)
    ensures XTime(Add(a, b)) == Add(XTime(a), XTime(b))
  {
    if a & 0x80 != 0 {
      if b & 0x80 != 0 {
      } else {
      }
    } else {
      if b & 0x80 != 0 {
      } else {
      }
    }
  }

  lemma SelectAdd(b: bv8, c: bv8, a: bv8, a': bv8)
    ensures Select(Add(b, c), a) == Add(Select(b, a), Select(c, a))
    ensures Select(b, Add(a, a')) == Add(Select(b, a), Select(b, a'))
    ensures Select(b, XTime(a)) == XTime(Select(b, a))
  {
    if b & 1 != 0 {
      if c & 1 != 0 {
      } else {
      }
    } else {
      if c & 1 != 0 {
      } else {
      }
    }
  }

  lemma HalfAdd(b: bv8, c: bv8)
    ensures Half(Add(b, c)) == Add(Half(b), Half(c))
  {
  }

  lemma SplitLowBit(b: bv8)
    ensures b == Add(Select(b, 1), XTime(Half(b)))
  {
  }

  /** One turn of the loop: the low bit of `b` selects `a`, then both step. */
  lemma GMulStep(a: bv8, b: bv8)
    ensures GMul(a, b) == Add(Select(b, a), GMul(XTime(a), Half(b)))
    ensures GMul(a, 0) == 0
  {
  }

  // ----- The product is a field product -----

  lemma {:induction false} ZeroLeft(b: bv8)
    ensures GMul(0, b) == 0
    decreases b
  {
    if b == 0 {
    } else {
      assert XTime(0) == 0 && Select(b, 0) == 0 && Add(0, 0) == 0;
      hide GMul, XTime, Select, Half, Add;
      GMulStep(0, b);
      ZeroLeft(Half(b));
    }
  }

  /** The product distributes over addition on the left. */
  lemma {:induction false} GMulAddLeft(a: bv8, c: bv8, b: bv8)
    ensures GMul(Add(a, c), b) == Add(GMul(a, b), GMul(c, b))
    decreases b
  {
    hide GMul, XTime, Select, Half, Add;
    if b == 0 {
      GMulStep(a, 0);
      GMulStep(c, 0);
      GMulStep(Add(a, c), 0);
      AddLaws(0, 0, 0);
    } else {
      GMulStep(a, b);
      GMulStep(c, b);
      GMulStep(Add(a, c), b);
      XTimeAdd(a, c);
      SelectAdd(b, 0, a, c);
      GMulAddLeft(XTime(a), XTime(c), Half(b));
      AddSwap(Select(b, a), Select(b, c), GMul(XTime(a), Half(b)), GMul(XTime(c), Half(b)));
    }
  }

  lemma {:induction false} XTimeMovesOut(a: bv8, b: bv8)
    ensures GMul(XTime(a), b) == XTime(GMul(a, b))
    decreases b
  {
    if b == 0 {
      assert XTime(0) == 0;
    } else {
      hide GMul, XTime, Select, Half, Add;
      GMulStep(a, b);
      GMulStep(XTime(a), b);
      XTimeMovesOut(XTime(a), Half(b));
      XTimeAdd(Select(b, a), GMul(XTime(a), Half(b)));
      SelectAdd(b, 0, a, 0);
    }
  }

  lemma {:induction false} OneIsUnit(a: bv8)
    ensures GMul(a, 1) == a && GMul(1, a) == a
    decreases a
  {
    assert Half(1) == 0 && Select(1, a) == a;
    hide GMul, XTime, Select, Half, Add;
    GMulStep(a, 1);
    GMulStep(XTime(a), 0);
    AddLaws(a, 0, 0);
    GMulStep(1, a);
    if a == 0 {
    } else {
      SplitLowBit(a);
      OneIsUnit(Half(a));
      XTimeMovesOut(1, Half(a));
    }
  }

  lemma {:induction false} GMulCommutes(a: bv8, b: bv8)
    ensures GMul(a, b) == GMul(b, a)
    decreases b
  {
    ZeroLeft(a);
    if b == 0 {
    } else {
      OneIsUnit(a);
      assert GMul(Select(b, 1), a) == Select(b, a) by {
        hide GMul;
      }
      hide GMul, XTime, Select, Half, Add;
      GMulStep(a, b);
      SplitLowBit(b);
      GMulAddLeft(Select(b, 1), XTime(Half(b)), a);
      GMulCommutes(a, Half(b));
      XTimeMovesOut(a, Half(b));
      XTimeMovesOut(Half(b), a);
    }
  }

  /** The product distributes over addition on the right. */
  lemma {:induction false} GMulAdd(a: bv8, b: bv8, c: bv8)
    ensures GMul(a, Add(b, c)) == Add(GMul(a, b), GMul(a, c))
  {
    hide GMul, Add;
    GMulCommutes(a, b);
    GMulCommutes(a, c);
    GMulCommutes(a, Add(b, c));
    GMulAddLeft(b, c, a);
  }

  lemma {:induction false} GMulXTime(a: bv8, b: bv8)
    ensures GMul(a, XTime(b)) == XTime(GMul(a, b))
  {
    hide GMul, XTime;
    GMulCommutes(a, XTime(b));
    GMulCommutes(a, b);
    XTimeMovesOut(b, a);
  }

  lemma {:induction false} GMulAssociates(a: bv8, b: bv8, c: bv8)
    ensures GMul(GMul(a, b), c) == GMul(a, GMul(b, c))
    decreases c
  {
    GMulStep(a, 0);
    if c == 0 {
    } else {
      assert Select(c, GMul(a, b)) == GMul(a, Select(c, b)) by {
        hide GMul;
      }
      hide GMul, XTime, Select, Half, Add;
      GMulStep(GMul(a, b), c);
      GMulStep(b, c);
      GMulXTime(a, b);
      GMulAssociates(a, XTime(b), Half(c));
      GMulAdd(a, Select(c, b), GMul(XTime(b), Half(c)));
    }
  }

  /** A byte has at most one multiplicative inverse. */
  lemma {:induction false} InverseUnique(a: bv8, b: bv8, c: bv8)
    requires GMul(a, b) == 1 && GMul(a, c) == 1
    ensures b == c
  {
    hide GMul;
    GMulCommutes(a, b);
    GMulAssociates(b, a, c);
    OneIsUnit(b);
    OneIsUnit(c);
  }

  /** Each constant multiplier of the RTL is the field product by its constant. */
  lemma {:induction false} ConstantMultipliers(a: bv8)
    ensures GMul2(a) == GMul(2, a) && GMul3(a) == GMul(3, a)
    ensures GMul9(a) == GMul(9, a) && GMul11(a) == GMul(11, a)
    ensures GMul13(a) == GMul(13, a) && GMul14(a) == GMul(14, a)
  {
    assert XTime(1) == 2 && XTime(2) == 4 && XTime(4) == 8;
    assert Add(2, 1) == 3 && Add(8, 1) == 9 && Add(Add(8, 2), 1) == 11;
    assert Add(Add(8, 4), 1) == 13 && Add(Add(8, 4), 2) == 14;
    hide GMul, XTime, Add;
    OneIsUnit(a);
    XTimeMovesOut(1, a);
    XTimeMovesOut(2, a);
    XTimeMovesOut(4, a);
    GMulAddLeft(2, 1, a);
    GMulAddLeft(8, 1, a);
    GMulAddLeft(8, 2, a);
    GMulAddLeft(Add(8, 2), 1, a);
    GMulAddLeft(8, 4, a);
    GMulAddLeft(Add(8, 4), 1, a);
    GMulAddLeft(Add(8, 4), 2, a);
  }

  // ----- Polynomials over GF(2) -----

  /** x^8 + x^4 + x^3 + x + 1 */
  const MODULUS: bv16 := 0x11b

  ghost function PolyAdd(a: bv16, b: bv16): bv16 {
    a ^ b
  }

  /** The polynomial of a field element. */
  ghost function Poly(a: bv8): bv16 {
    a as bv16
  }

  ghost function TimesX(a: bv16): bv16 {
    a << 1
  }

  ghost function PolySelect(b: bv8, a: bv16): bv16 {
    if b & 1 != 0 then a else 0
  }

  /** The unreduced product of two polynomials: with b == b0 + x * b', it is
      b0 * a + (x * a) * b'. */
  ghost function PolyMul(a: bv16, b: bv8): bv16
    decreases b
  {
    if b == 0 then 0 else PolyAdd(PolySelect(b, a), PolyMul(TimesX(a), Half(b)))
  }

  /** p == q * MODULUS + r, with r of degree below 8 and q of degree below 7: r is
      p reduced as FIPS-197 section 4.2 defines it. */
  ghost predicate Remainder(p: bv16, q: bv8, r: bv8) {
    q < 0x80 && p == PolyAdd(PolyMul(MODULUS, q), Poly(r))
  }

  lemma PolyAddSwap(a: bv16, b: bv16, c: bv16, d: bv16)
    ensures PolyAdd(PolyAdd(a, b), PolyAdd(c, d)) == PolyAdd(PolyAdd(a, c), PolyAdd(b, d))
  {
    PolyAddLaws(a, b, PolyAdd(c, d));
    PolyAddLaws(b, c, d);
    PolyAddLaws(c, b, d);
    PolyAddLaws(a, c, PolyAdd(b, d));
    hide PolyAdd;
  }

  lemma PolyAddLaws(a: bv16, b: bv16, c: bv16)
    ensures PolyAdd(a, b) == PolyAdd(b, a)
    ensures PolyAdd(PolyAdd(a, b), c) == PolyAdd(a, PolyAdd(b, c))
    ensures PolyAdd(a, 0) == a && PolyAdd(0, a) == a
  {
    calc {
      PolyAdd(PolyAdd(a, b), c);
      PolyAdd(a ^ b, c);
      (a ^ b) ^ c;
      a ^ (b ^ c);
      PolyAdd(a, b ^ c);
      PolyAdd(a, PolyAdd(b, c));
    }
  }

  lemma PolySelectAdd(b: bv8, c: bv8, a: bv16, a': bv16)
    ensures PolySelect(Add(b, c), a) == PolyAdd(PolySelect(b, a), PolySelect(c, a))
    ensures PolySelect(b, PolyAdd(a, a')) == PolyAdd(PolySelect(b, a), PolySelect(b, a'))
  {
    LowBitAdd(b, c);
    assert a ^ a == 0 && a ^ 0 == a && 0 ^ a == a;
    hide Add;
  }

  lemma LowBitAdd(b: bv8, c: bv8)
    ensures Add(b, c) & 1 != 0 <==> (b & 1 != 0) != (c & 1 != 0)
  {
  }

  lemma PolyMulStep(a: bv16, b: bv8)
    ensures PolyMul(a, b) == PolyAdd(PolySelect(b, a), PolyMul(TimesX(a), Half(b)))
    ensures PolyMul(a, 0) == 0
  {
  }

  lemma {:induction false} PolyMulAddLeft(a: bv16, c: bv16, b: bv8)
    ensures PolyMul(PolyAdd(a, c), b) == PolyAdd(PolyMul(a, b), PolyMul(c, b))
    decreases b
  {
    if b == 0 {
    } else {
      assert TimesX(PolyAdd(a, c)) == PolyAdd(TimesX(a), TimesX(c));
      hide PolyMul, TimesX, PolySelect, Half, PolyAdd;
      PolyMulStep(a, b);
      PolyMulStep(c, b);
      PolyMulStep(PolyAdd(a, c), b);
      PolySelectAdd(b, 0, a, c);
      PolyMulAddLeft(TimesX(a), TimesX(c), Half(b));
      PolyAddSwap(PolySelect(b, a), PolySelect(b, c), PolyMul(TimesX(a), Half(b)), PolyMul(TimesX(c), Half(b)));
    }
  }

  lemma {:induction false} PolyMulAdd(a: bv16, b: bv8, c: bv8)
    ensures PolyMul(a, Add(b, c)) == PolyAdd(PolyMul(a, b), PolyMul(a, c))
    decreases b | c
  {
    if b | c == 0 {
    } else {
      assert Half(b) | Half(c) < b | c;
      hide PolyMul, TimesX, PolySelect, Half, PolyAdd, Add;
      PolyMulStep(a, b);
      PolyMulStep(a, c);
      PolyMulStep(a, Add(b, c));
      PolySelectAdd(b, c, a, 0);
      HalfAdd(b, c);
      PolyMulAdd(TimesX(a), Half(b), Half(c));
      PolyAddSwap(PolySelect(b, a), PolySelect(c, a), PolyMul(TimesX(a), Half(b)), PolyMul(TimesX(a), Half(c)));
    }
  }

  /** The loop's result is the remainder of the polynomial product by the
      modulus; the quotient is the witness. */
  lemma {:induction false} GMulIsPolynomialProduct(a: bv8, b: bv8) returns (q: bv8)
    ensures Remainder(PolyMul(Poly(a), b), q, GMul(a, b))
    decreases b
  {
    if b == 0 {
      q := 0;
      assert PolyAdd(0, Poly(0)) == 0;
    } else {
      var q' := GMulIsPolynomialProduct(XTime(a), Half(b));
      q := Add(Carry(a, b), q');
      QuotientBound(a, b, q');
      hide PolyMul, GMul, TimesX, PolySelect, Half, PolyAdd, Add, XTime, Select, Poly, Carry;
      ProductStep(a, b, q', GMul(XTime(a), Half(b)));
      GMulStep(a, b);
    }
  }

  /** The part of the quotient that one step adds. */
  ghost function Carry(a: bv8, b: bv8): bv8 {
    if a & 0x80 != 0 then Half(b) else 0
  }

  lemma QuotientBound(a: bv8, b: bv8, q: bv8)
    requires q < 0x80
    ensures Add(Carry(a, b), q) < 0x80
  {
    if a & 0x80 != 0 {
    }
  }

  lemma {:induction false} ProductStep(a: bv8, b: bv8, q: bv8, r: bv8)
    requires PolyMul(Poly(XTime(a)), Half(b)) == PolyAdd(PolyMul(MODULUS, q), Poly(r))
    ensures PolyMul(Poly(a), b) == PolyAdd(PolyMul(MODULUS, Add(Carry(a, b), q)), Poly(Add(Select(b, a), r)))
  {
    hide PolyMul, TimesX, PolySelect, Half, PolyAdd, Add, XTime, Select, Poly, Carry;
    var s, m, n := PolySelect(b, Poly(a)), PolyMul(MODULUS, Carry(a, b)), PolyMul(MODULUS, q);
    calc {
      PolyMul(Poly(a), b);
      { PolyMulStep(Poly(a), b); }
      PolyAdd(s, PolyMul(TimesX(Poly(a)), Half(b)));
      { OverflowTimes(a, b); }
      PolyAdd(s, PolyAdd(m, PolyAdd(n, Poly(r))));
      { Regroup(s, m, n, Poly(r)); }
      PolyAdd(PolyAdd(m, n), PolyAdd(s, Poly(r)));
      { PolyMulAdd(MODULUS, Carry(a, b), q); SelectPoly(b, a, r); }
      PolyAdd(PolyMul(MODULUS, Add(Carry(a, b), q)), Poly(Add(Select(b, a), r)));
    }
  }

  lemma SelectPoly(b: bv8, a: bv8, c: bv8)
    ensures PolyAdd(PolySelect(b, Poly(a)), Poly(c)) == Poly(Add(Select(b, a), c))
  {
    assert PolySelect(b, Poly(a)) == Poly(Select(b, a));
    PolyOfAdd(Select(b, a), c);
    hide PolySelect, Select, PolyAdd, Add, Poly;
  }

  lemma PolyOfAdd(a: bv8, b: bv8)
    ensures Poly(Add(a, b)) == PolyAdd(Poly(a), Poly(b))
  {
  }

  lemma Regroup(s: bv16, m: bv16, n: bv16, r: bv16)
    ensures PolyAdd(s, PolyAdd(m, PolyAdd(n, r))) == PolyAdd(PolyAdd(m, n), PolyAdd(s, r))
  {
    hide PolyAdd;
    PolyAddLaws(m, n, r);
    PolyAddLaws(s, PolyAdd(m, n), r);
    PolyAddLaws(PolyAdd(m, n), s, r);
  }

  /** Shifting `a` up overflows by one modulus, which `XTime` removes. */
  lemma {:induction false} OverflowTimes(a: bv8, b: bv8)
    ensures PolyMul(TimesX(Poly(a)), Half(b))
         == PolyAdd(PolyMul(MODULUS, Carry(a, b)), PolyMul(Poly(XTime(a)), Half(b)))
  {
    if a & 0x80 != 0 {
      assert TimesX(Poly(a)) == PolyAdd(MODULUS, Poly(XTime(a)));
      assert Carry(a, b) == Half(b);
      hide PolyMul, PolyAdd, TimesX, Poly, XTime, Half, Carry;
      PolyMulAddLeft(MODULUS, Poly(XTime(a)), Half(b));
    } else {
      assert TimesX(Poly(a)) == Poly(XTime(a));
      PolyMulStep(MODULUS, 0);
      assert Carry(a, b) == 0;
      hide PolyMul, PolyAdd, TimesX, Poly, XTime, Half, Carry;
      PolyAddLaws(PolyMul(Poly(XTime(a)), Half(b)), 0, 0);
    }
  }

  /** A multiple of the modulus by `q` has degree 8 more than `q`. */
  lemma {:induction false} NoSmallMultiple(q: bv8)
    requires q < 0x80 && PolyMul(MODULUS, q) < 0x100
    ensures q == 0
  {
    var m1, m2, m3 := TimesX(MODULUS), TimesX(TimesX(MODULUS)), TimesX(TimesX(TimesX(MODULUS)));
    var q1, q2, q3 := Half(q), Half(Half(q)), Half(Half(Half(q)));
    PolyMulStep(MODULUS, q);
    PolyMulStep(m1, q1);
    PolyMulStep(m2, q2);
    PolyMulStep(m3, q3);
    PolyMulStep(TimesX(m3), Half(q3));
    PolyMulStep(TimesX(TimesX(m3)), Half(Half(q3)));
    PolyMulStep(TimesX(TimesX(TimesX(m3))), Half(Half(Half(q3))));
    PolyMulStep(TimesX(TimesX(TimesX(TimesX(m3)))), 0);
    hide PolyMul;
  }

  /** So the remainder is the only one. */
  lemma {:induction false} RemainderUnique(p: bv16, q: bv8, r: bv8, q': bv8, r': bv8)
    requires Remainder(p, q, r) && Remainder(p, q', r')
    ensures q == q' && r == r'
  {
    PolyMulAdd(MODULUS, q, q');
    CancelRemainders(PolyMul(MODULUS, q), r, PolyMul(MODULUS, q'), r');
    assert Add(q, q') < 0x80;
    NoSmallMultiple(Add(q, q'));
    hide PolyMul;
  }

  lemma CancelRemainders(m: bv16, r: bv8, n: bv16, r': bv8)
    requires PolyAdd(m, Poly(r)) == PolyAdd(n, Poly(r'))
    ensures PolyAdd(m, n) < 0x100 && (m == n ==> r == r')
  {
  }

  /** GMul is the remainder of the polynomial product: it is one, and the only one. */
  lemma {:induction false} GMulIsTheRemainder(a: bv8, b: bv8, r: bv8)
    ensures (exists q :: Remainder(PolyMul(Poly(a), b), q, r)) <==> r == GMul(a, b)
  {
    hide PolyMul, GMul, Remainder;
    var q := GMulIsPolynomialProduct(a, b);
    forall q', r' | Remainder(PolyMul(Poly(a), b), q', r')
      ensures r' == GMul(a, b)
    {
      RemainderUnique(PolyMul(Poly(a), b), q, GMul(a, b), q', r');
    }
  }
}
