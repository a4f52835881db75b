/** Bytes and columns of AES: the column mix and its inverse (sections 4, 5.1.3 and 5.3.3 of FIPS-197). */
module AesAlgebra {

  /**
    * What the cipher needs of GF(2^8) and of the S-box: addition, multiplication by x, the S-box and its
    * inverse. The four tables of the implementation are derived from these.
    */
  datatype Gf = Gf(add: (bv8, bv8) -> bv8, x: bv8 -> bv8, sub: bv8 -> bv8, inv: bv8 -> bv8)

  /** Multiplication by x modulo x^8 + x^4 + x^3 + x + 1. */
  function XTime(b: bv8): bv8 { ((b & 0x7f) << 1) ^ (((b & 0x80) >> 7) * 0x1b) }

  // ---- the laws that the proofs use, one instance at a time ----

  ghost predicate Sums(g: Gf, a: bv8, b: bv8) { g.add(a, b) == a ^ b }

  ghost predicate Doubles(g: Gf, b: bv8) { g.x(b) == XTime(b) }

  ghost predicate Undoes(g: Gf, b: bv8) { g.inv(g.sub(b)) == b }

  ghost predicate Commutes(g: Gf, a: bv8, b: bv8) { g.add(a, b) == g.add(b, a) }

  ghost predicate Associates(g: Gf, a: bv8, b: bv8, c: bv8) { g.add(g.add(a, b), c) == g.add(a, g.add(b, c)) }

  ghost predicate Cancels(g: Gf, a: bv8, b: bv8) { g.add(g.add(a, b), b) == a }

  ghost predicate Distributes(g: Gf, a: bv8, b: bv8) { g.x(g.add(a, b)) == g.add(g.x(a), g.x(b)) }

  /** GF(2^8) as AES has it, with any S-box and its inverse. */
  ghost predicate Field(g: Gf) {
    && (forall a, b :: Sums(g, a, b))
    && (forall b :: Doubles(g, b))
    && (forall b :: Undoes(g, b))
    && (forall a, b :: Commutes(g, a, b))
    && (forall a, b, c :: Associates(g, a, b, c))
    && (forall a, b :: Cancels(g, a, b))
    && (forall a, b :: Distributes(g, a, b))
  }

  /** The modulus is added exactly when the product overflows. */
  lemma {:induction false} XTimeReduces(b: bv8)
    ensures b & 0x80 == 0 ==> XTime(b) == b << 1
    ensures b & 0x80 != 0 ==> XTime(b) == (b << 1) ^ 0x1b
  {
  }

  lemma {:induction false} XTimeXor(a: bv8, b: bv8)
    ensures XTime(a ^ b) == XTime(a) ^ XTime(b)
  {
  }

  function Plus(a: bv8, b: bv8): bv8 { a ^ b }

  /** A permutation of the bytes and its inverse are all that is asked of the S-box. */
  lemma {:induction false} AesIsField(sub: bv8 -> bv8, inv: bv8 -> bv8)
    requires forall b :: inv(sub(b)) == b
    ensures Field(Gf(Plus, XTime, sub, inv))
  {
    var g := Gf(Plus, XTime, sub, inv);
    forall a, b
      ensures Distributes(g, a, b)
    {
      XTimeXor(a, b);
    }
  }

  // ---- sums ----

  lemma {:induction false} Comm(g: Gf, a: bv8, b: bv8)
    requires Field(g)
    ensures Commutes(g, a, b)
  {
  }

  lemma {:induction false} Assoc(g: Gf, a: bv8, b: bv8, c: bv8)
    requires Field(g)
    ensures Associates(g, a, b, c)
  {
  }

  lemma {:induction false} Canc(g: Gf, a: bv8, b: bv8)
    requires Field(g)
    ensures Cancels(g, a, b)
  {
  }

  lemma {:induction false} Dist(g: Gf, a: bv8, b: bv8)
    requires Field(g)
    ensures Distributes(g, a, b)
  {
  }

  /** (a + b) + c == (a + c) + b */
  lemma {:induction false} Swap3(g: Gf, a: bv8, b: bv8, c: bv8)
    requires Field(g)
    ensures g.add(g.add(a, b), c) == g.add(g.add(a, c), b)
  {
    Assoc(g, a, b, c);
    Assoc(g, a, c, b);
    Comm(g, b, c);
  }

  /** (a + b) + (c + d) == (a + c) + (b + d) */
  lemma {:induction false} Swap4(g: Gf, a: bv8, b: bv8, c: bv8, d: bv8)
    requires Field(g)
    ensures g.add(g.add(a, b), g.add(c, d)) == g.add(g.add(a, c), g.add(b, d))
  {
    Assoc(g, g.add(a, b), c, d);
    Swap3(g, a, b, c);
    Assoc(g, g.add(a, c), b, d);
  }

  /** (a + e) + (e + b) == a + b */
  lemma {:induction false} Mid(g: Gf, a: bv8, e: bv8, b: bv8)
    requires Field(g)
    ensures g.add(g.add(a, e), g.add(e, b)) == g.add(a, b)
  {
    Assoc(g, g.add(a, e), e, b);
    Canc(g, a, e);
  }

  /** (e + a) + (e + b) == a + b */
  lemma {:induction false} Drop(g: Gf, a: bv8, e: bv8, b: bv8)
    requires Field(g)
    ensures g.add(g.add(e, a), g.add(e, b)) == g.add(a, b)
  {
    Comm(g, e, a);
    Mid(g, a, e, b);
  }

  // ---- columns ----

  /** A column of the state; byte 0 is the low byte of the little-endian word that holds it. */
  datatype Column = Column(b0: bv8, b1: bv8, b2: bv8, b3: bv8)

  function Xor(g: Gf, a: Column, b: Column): Column {
    Column(g.add(a.b0, b.b0), g.add(a.b1, b.b1), g.add(a.b2, b.b2), g.add(a.b3, b.b3))
  }

  /** RotWord */
  function Rot(c: Column): Column { Column(c.b1, c.b2, c.b3, c.b0) }

  /** SubWord */
  function Sub(g: Gf, c: Column): Column { Column(g.sub(c.b0), g.sub(c.b1), g.sub(c.b2), g.sub(c.b3)) }

  function InvSub(g: Gf, c: Column): Column { Column(g.inv(c.b0), g.inv(c.b1), g.inv(c.b2), g.inv(c.b3)) }

  /** {02} a + {03} b + c + d */
  function M(g: Gf, a: bv8, b: bv8, c: bv8, d: bv8): bv8 { g.add(g.add(g.x(a), g.x(b)), g.add(b, g.add(c, d))) }

  function X2(g: Gf, b: bv8): bv8 { g.x(g.x(b)) }

  function X3(g: Gf, b: bv8): bv8 { g.x(X2(g, b)) }

  function Mul9(g: Gf, b: bv8): bv8 { g.add(X3(g, b), b) }

  function MulB(g: Gf, b: bv8): bv8 { g.add(g.x(b), Mul9(g, b)) }

  function MulD(g: Gf, b: bv8): bv8 { g.add(X2(g, b), Mul9(g, b)) }

  function MulE(g: Gf, b: bv8): bv8 { g.add(g.add(g.x(b), X2(g, b)), X3(g, b)) }

  /** {0e} a + {0b} b + {0d} c + {09} d */
  function N(g: Gf, a: bv8, b: bv8, c: bv8, d: bv8): bv8 {
    g.add(MulE(g, a), g.add(g.add(MulB(g, b), MulD(g, c)), Mul9(g, d)))
  }

  /** MixColumns on one column. */
  function Mix(g: Gf, c: Column): Column {
    Column(M(g, c.b0, c.b1, c.b2, c.b3), M(g, c.b1, c.b2, c.b3, c.b0),
           M(g, c.b2, c.b3, c.b0, c.b1), M(g, c.b3, c.b0, c.b1, c.b2))
  }

  /** InvMixColumns on one column. */
  function InvMix(g: Gf, c: Column): Column {
    Column(N(g, c.b0, c.b1, c.b2, c.b3), N(g, c.b1, c.b2, c.b3, c.b0),
           N(g, c.b2, c.b3, c.b0, c.b1), N(g, c.b3, c.b0, c.b1, c.b2))
  }

  // ---- the inverse mix distributes over sums ----

  lemma {:induction false} PowersAdd(g: Gf, a: bv8, b: bv8)
    requires Field(g)
    ensures g.x(g.add(a, b)) == g.add(g.x(a), g.x(b))
    ensures X2(g, g.add(a, b)) == g.add(X2(g, a), X2(g, b))
    ensures X3(g, g.add(a, b)) == g.add(X3(g, a), X3(g, b))
  {
    Dist(g, a, b);
    Dist(g, g.x(a), g.x(b));
    Dist(g, X2(g, a), X2(g, b));
  }

  lemma {:induction false} MulsAdd(g: Gf, a: bv8, b: bv8)
    requires Field(g)
    ensures Mul9(g, g.add(a, b)) == g.add(Mul9(g, a), Mul9(g, b))
    ensures MulB(g, g.add(a, b)) == g.add(MulB(g, a), MulB(g, b))
    ensures MulD(g, g.add(a, b)) == g.add(MulD(g, a), MulD(g, b))
    ensures MulE(g, g.add(a, b)) == g.add(MulE(g, a), MulE(g, b))
  {
    PowersAdd(g, a, b);
    Swap4(g, X3(g, a), X3(g, b), a, b);
    Swap4(g, g.x(a), g.x(b), Mul9(g, a), Mul9(g, b));
    Swap4(g, X2(g, a), X2(g, b), Mul9(g, a), Mul9(g, b));
    Swap4(g, g.x(a), g.x(b), X2(g, a), X2(g, b));
    Swap4(g, g.add(g.x(a), X2(g, a)), g.add(g.x(b), X2(g, b)), X3(g, a), X3(g, b));
  }

  lemma {:induction false} NAdd(g: Gf, a: bv8, b: bv8, c: bv8, d: bv8, p: bv8, q: bv8, r: bv8, s: bv8)
    requires Field(g)
    ensures N(g, g.add(a, p), g.add(b, q), g.add(c, r), g.add(d, s)) == g.add(N(g, a, b, c, d), N(g, p, q, r, s))
  {
    MulsAdd(g, a, p);
    MulsAdd(g, b, q);
    MulsAdd(g, c, r);
    MulsAdd(g, d, s);
    var u, v := g.add(MulB(g, b), MulD(g, c)), g.add(MulB(g, q), MulD(g, r));
    Swap4(g, MulB(g, b), MulB(g, q), MulD(g, c), MulD(g, r));
    Swap4(g, u, v, Mul9(g, d), Mul9(g, s));
    Swap4(g, MulE(g, a), MulE(g, p), g.add(u, Mul9(g, d)), g.add(v, Mul9(g, s)));
  }

  /** The inverse mix distributes over the addition of a round key. */
  lemma {:induction false} InvMixXor(g: Gf, a: Column, b: Column)
    requires Field(g)
    ensures InvMix(g, Xor(g, a, b)) == Xor(g, InvMix(g, a), InvMix(g, b))
  {
    NAdd(g, a.b0, a.b1, a.b2, a.b3, b.b0, b.b1, b.b2, b.b3);
    NAdd(g, a.b1, a.b2, a.b3, a.b0, b.b1, b.b2, b.b3, b.b0);
    NAdd(g, a.b2, a.b3, a.b0, a.b1, b.b2, b.b3, b.b0, b.b1);
    NAdd(g, a.b3, a.b0, a.b1, a.b2, b.b3, b.b0, b.b1, b.b2);
  }

  // ---- the inverse mix undoes the mix ----

  /** The inverse mix with its terms collected by powers of x; k stands for b + c + d. */
  ghost function Collected(g: Gf, a: bv8, b: bv8, c: bv8, k: bv8): bv8 {
    g.add(g.add(g.x(g.add(a, b)), X2(g, g.add(a, c))), g.add(X3(g, g.add(a, k)), k))
  }

  lemma {:induction false} NineSum(g: Gf, b: bv8, c: bv8, d: bv8, k: bv8)
    requires Field(g) && k == g.add(g.add(b, c), d)
    ensures g.add(g.add(Mul9(g, b), Mul9(g, c)), Mul9(g, d)) == g.add(X3(g, k), k)
  {
    MulsAdd(g, b, c);
    MulsAdd(g, g.add(b, c), d);
  }

  lemma {:induction false} Collect(g: Gf, a: bv8, b: bv8, c: bv8, d: bv8, k: bv8)
    requires Field(g) && k == g.add(g.add(b, c), d)
    ensures N(g, a, b, c, d) == Collected(g, a, b, c, k)
  {
    NineSum(g, b, c, d, k);
    var nine, low, tail := g.add(Mul9(g, b), Mul9(g, c)), g.add(g.x(b), X2(g, c)), g.add(X3(g, k), k);
    Swap4(g, g.x(b), Mul9(g, b), X2(g, c), Mul9(g, c));
    Assoc(g, low, nine, Mul9(g, d));
    assert N(g, a, b, c, d) == g.add(MulE(g, a), g.add(low, tail));
    Swap4(g, g.add(g.x(a), X2(g, a)), X3(g, a), low, tail);
    Swap4(g, g.x(a), X2(g, a), g.x(b), X2(g, c));
    Assoc(g, X3(g, a), X3(g, k), k);
    PowersAdd(g, a, b);
    PowersAdd(g, a, c);
    PowersAdd(g, a, k);
  }

  /** Two neighbouring bytes of a mixed column. */
  lemma {:induction false} Neighbours(g: Gf, a: bv8, b: bv8, c: bv8, d: bv8)
    requires Field(g)
    ensures g.add(M(g, a, b, c, d), M(g, b, c, d, a)) == g.add(g.x(g.add(a, c)), g.add(b, a))
  {
    var e := g.add(c, d);
    Swap4(g, g.add(g.x(a), g.x(b)), g.add(b, e), g.add(g.x(b), g.x(c)), g.add(c, g.add(d, a)));
    Mid(g, g.x(a), g.x(b), g.x(c));
    Dist(g, a, c);
    Assoc(g, c, d, a);
    Mid(g, b, e, a);
  }

  /** Two opposite ones. */
  lemma {:induction false} Opposites(g: Gf, a: bv8, b: bv8, c: bv8, d: bv8)
    requires Field(g)
    ensures g.add(M(g, a, b, c, d), M(g, c, d, a, b)) == g.add(g.x(g.add(g.add(a, b), g.add(c, d))), g.add(c, a))
  {
    Swap4(g, g.add(g.x(a), g.x(b)), g.add(b, g.add(c, d)), g.add(g.x(c), g.x(d)), g.add(d, g.add(a, b)));
    Dist(g, a, b);
    Dist(g, c, d);
    Dist(g, g.add(a, b), g.add(c, d));
    var e := g.add(d, b);
    Comm(g, b, g.add(c, d));
    Assoc(g, c, d, b);
    Comm(g, a, b);
    Assoc(g, d, b, a);
    Mid(g, c, e, a);
  }

  /** Mixing keeps the sum of a column. */
  lemma {:induction false} SumKept(g: Gf, a: bv8, b: bv8, c: bv8, d: bv8)
    requires Field(g)
    ensures g.add(g.add(M(g, a, b, c, d), M(g, b, c, d, a)), g.add(M(g, c, d, a, b), M(g, d, a, b, c)))
         == g.add(g.add(a, b), g.add(c, d))
  {
    Neighbours(g, a, b, c, d);
    Neighbours(g, c, d, a, b);
    Comm(g, a, c);
    Drop(g, g.add(b, a), g.x(g.add(a, c)), g.add(d, c));
    Comm(g, a, b);
    Comm(g, c, d);
  }

  /** What is left once the powers of x cancel. */
  lemma {:induction false} Leftover(g: Gf, u: bv8, v: bv8, w: bv8, k: bv8)
    requires Field(g)
    ensures g.add(g.add(g.add(u, v), g.add(w, u)), g.add(w, k)) == g.add(v, k)
  {
    Comm(g, w, u);
    Drop(g, v, u, w);
    Mid(g, v, w, k);
  }

  lemma {:induction false} Rest(g: Gf, a: bv8, b: bv8, c: bv8, d: bv8, k: bv8)
    requires Field(g) && g.add(M(g, a, b, c, d), k) == g.add(g.add(a, b), g.add(c, d))
    ensures g.add(g.x(g.add(a, b)), k) == a
  {
    var m, v, r := M(g, a, b, c, d), g.x(g.add(a, b)), g.add(b, g.add(c, d));
    Dist(g, a, b);
    Assoc(g, a, b, g.add(c, d));
    assert m == g.add(v, r) && g.add(m, k) == g.add(a, r);
    Canc(g, k, m);
    Comm(g, k, m);
    assert k == g.add(g.add(a, r), m);
    UnwindRest(g, a, r, v, k);
  }

  lemma {:induction false} UnwindRest(g: Gf, a: bv8, r: bv8, v: bv8, k: bv8)
    requires Field(g) && k == g.add(g.add(a, r), g.add(v, r))
    ensures g.add(v, k) == a
  {
    Comm(g, v, r);
    Mid(g, a, r, v);
    Comm(g, v, g.add(a, v));
    Canc(g, a, v);
  }

  lemma {:induction false} ByteUnmixed(g: Gf, a: bv8, b: bv8, c: bv8, d: bv8)
    requires Field(g)
    ensures N(g, M(g, a, b, c, d), M(g, b, c, d, a), M(g, c, d, a, b), M(g, d, a, b, c)) == a
  {
    var m0, m1, m2, m3 := M(g, a, b, c, d), M(g, b, c, d, a), M(g, c, d, a, b), M(g, d, a, b, c);
    var t, k := g.add(g.add(a, b), g.add(c, d)), g.add(g.add(m1, m2), m3);
    Collect(g, m0, m1, m2, m3, k);
    assert g.add(m0, k) == t by {
      Assoc(g, m1, m2, m3);
      Assoc(g, m0, m1, g.add(m2, m3));
      SumKept(g, a, b, c, d);
    }
    var u, v, w := X2(g, g.add(a, c)), g.x(g.add(a, b)), X3(g, t);
    assert g.x(g.add(m0, m1)) == g.add(u, v) by {
      Neighbours(g, a, b, c, d);
      Dist(g, g.x(g.add(a, c)), g.add(b, a));
      Comm(g, a, b);
    }
    assert X2(g, g.add(m0, m2)) == g.add(w, u) by {
      Opposites(g, a, b, c, d);
      PowersAdd(g, g.x(t), g.add(c, a));
      Comm(g, a, c);
    }
    Leftover(g, u, v, w, k);
    Rest(g, a, b, c, d, k);
  }

  /** The inverse mix undoes the mix. */
  lemma {:induction false} InvMixMix(g: Gf, c: Column)
    requires Field(g)
    ensures InvMix(g, Mix(g, c)) == c
  {
    ByteUnmixed(g, c.b0, c.b1, c.b2, c.b3);
    ByteUnmixed(g, c.b1, c.b2, c.b3, c.b0);
    ByteUnmixed(g, c.b2, c.b3, c.b0, c.b1);
    ByteUnmixed(g, c.b3, c.b0, c.b1, c.b2);
  }

  lemma {:induction false} XorTwice(g: Gf, a: Column, k: Column)
    requires Field(g)
    ensures Xor(g, Xor(g, a, k), k) == a
  {
    Canc(g, a.b0, k.b0);
    Canc(g, a.b1, k.b1);
    Canc(g, a.b2, k.b2);
    Canc(g, a.b3, k.b3);
  }

  lemma {:induction false} InvSubSub(g: Gf, c: Column)
    requires Field(g)
    ensures InvSub(g, Sub(g, c)) == c
  {
    assert Undoes(g, c.b0) && Undoes(g, c.b1) && Undoes(g, c.b2) && Undoes(g, c.b3);
  }
}
