/** The 32-bit operations and tables of crypto/aes_generic.c, and what they do to the four bytes of a word. */
module AesWords {
  import opened AesAlgebra

  // ---- byte(x, n) and le32_to_cpu ----

  function B0(x: bv32): bv8 { (x & 0xff) as bv8 }

  function B1(x: bv32): bv8 { ((x >> 8) & 0xff) as bv8 }

  function B2(x: bv32): bv8 { ((x >> 16) & 0xff) as bv8 }

  function B3(x: bv32): bv8 { ((x >> 24) & 0xff) as bv8 }

  function Unpack(x: bv32): Column { Column(B0(x), B1(x), B2(x), B3(x)) }

  function Pack(c: Column): bv32 {
    (c.b0 as bv32) ^ ((c.b1 as bv32) << 8) ^ ((c.b2 as bv32) << 16) ^ ((c.b3 as bv32) << 24)
  }

  function Xor32(x: bv32, y: bv32): bv32 { x ^ y }

  function Ror8(x: bv32): bv32 { (x >> 8) | (x << 24) }

  function Ror16(x: bv32): bv32 { (x >> 16) | (x << 16) }

  function Ror24(x: bv32): bv32 { (x >> 24) | (x << 8) }

  function StarX(x: bv32): bv32 { ((x & 0x7f7f7f7f) << 1) ^ (((x & 0x80808080) >> 7) * 0x1b) }

  lemma {:induction false} UnpackPack(c: Column)
    ensures Unpack(Pack(c)) == c
  {
  }

  lemma {:induction false} RorBytes(x: bv32)
    ensures Unpack(Ror8(x)) == Rot(Unpack(x))
    ensures Unpack(Ror16(x)) == Rot(Rot(Unpack(x)))
    ensures Unpack(Ror24(x)) == Rot(Rot(Rot(Unpack(x))))
  {
  }

  lemma {:induction false} XorByte0(g: Gf, x: bv32, y: bv32)
    requires Sums(g, B0(x), B0(y))
    ensures B0(Xor32(x, y)) == g.add(B0(x), B0(y))
  {
    RawXor0(x, y);
  }

  lemma {:induction false} RawXor0(x: bv32, y: bv32)
    ensures B0(x ^ y) == B0(x) ^ B0(y)
  {
  }

  lemma {:induction false} XorByte1(g: Gf, x: bv32, y: bv32)
    requires Sums(g, B1(x), B1(y))
    ensures B1(Xor32(x, y)) == g.add(B1(x), B1(y))
  {
    RawXor1(x, y);
  }

  lemma {:induction false} RawXor1(x: bv32, y: bv32)
    ensures B1(x ^ y) == B1(x) ^ B1(y)
  {
  }

  lemma {:induction false} XorByte2(g: Gf, x: bv32, y: bv32)
    requires Sums(g, B2(x), B2(y))
    ensures B2(Xor32(x, y)) == g.add(B2(x), B2(y))
  {
    RawXor2(x, y);
  }

  lemma {:induction false} RawXor2(x: bv32, y: bv32)
    ensures B2(x ^ y) == B2(x) ^ B2(y)
  {
  }

  lemma {:induction false} XorByte3(g: Gf, x: bv32, y: bv32)
    requires Sums(g, B3(x), B3(y))
    ensures B3(Xor32(x, y)) == g.add(B3(x), B3(y))
  {
    RawXor3(x, y);
  }

  lemma {:induction false} RawXor3(x: bv32, y: bv32)
    ensures B3(x ^ y) == B3(x) ^ B3(y)
  {
  }

  lemma {:induction false} UnpackXor(g: Gf, x: bv32, y: bv32)
    requires Field(g)
    ensures Unpack(Xor32(x, y)) == Xor(g, Unpack(x), Unpack(y))
  {
    Sum(g, B0(x), B0(y));
    Sum(g, B1(x), B1(y));
    Sum(g, B2(x), B2(y));
    Sum(g, B3(x), B3(y));
    XorByte0(g, x, y);
    XorByte1(g, x, y);
    XorByte2(g, x, y);
    XorByte3(g, x, y);
  }

  lemma {:induction false} Sum(g: Gf, a: bv8, b: bv8)
    requires Field(g)
    ensures Sums(g, a, b)
  {
  }

  lemma {:induction false} StarBytes(x: bv32)
    ensures B0(StarX(x)) == XTime(B0(x)) && B1(StarX(x)) == XTime(B1(x))
    ensures B2(StarX(x)) == XTime(B2(x)) && B3(StarX(x)) == XTime(B3(x))
  {
  }

  function Times(g: Gf, c: Column): Column { Column(g.x(c.b0), g.x(c.b1), g.x(c.b2), g.x(c.b3)) }

  lemma {:induction false} DoubleIs(g: Gf, b: bv8)
    requires Field(g)
    ensures Doubles(g, b)
  {
  }

  /** star_x multiplies the four bytes of a word at once. */
  lemma {:induction false} UnpackStarX(g: Gf, x: bv32)
    requires Field(g)
    ensures Unpack(StarX(x)) == Times(g, Unpack(x))
  {
    DoubleIs(g, B0(x));
    DoubleIs(g, B1(x));
    DoubleIs(g, B2(x));
    DoubleIs(g, B3(x));
    StarColumn(g, x);
  }

  lemma {:induction false} StarColumn(g: Gf, x: bv32)
    requires Doubles(g, B0(x)) && Doubles(g, B1(x)) && Doubles(g, B2(x)) && Doubles(g, B3(x))
    ensures Unpack(StarX(x)) == Times(g, Unpack(x))
  {
    StarBytes(x);
  }

  // ---- imix_col ----

  function ImixCol(x: bv32): bv32 {
    var u := StarX(x);
    var v := StarX(u);
    var w := StarX(v);
    var t := Xor32(w, x);
    Xor32(Xor32(Xor32(u, v), w), Xor32(Xor32(Ror8(Xor32(u, t)), Ror16(Xor32(v, t))), Ror24(t)))
  }

  /** imix_col is InvMixColumns on the word's column. */
  lemma {:induction false} UnpackImixCol(g: Gf, x: bv32)
    requires Field(g)
    ensures Unpack(ImixCol(x)) == InvMix(g, Unpack(x))
  {
    var u := StarX(x);
    var v := StarX(u);
    var w := StarX(v);
    var t := Xor32(w, x);
    UnpackStarX(g, x);
    UnpackStarX(g, u);
    UnpackStarX(g, v);
    UnpackXor(g, w, x);
    UnpackXor(g, u, v);
    UnpackXor(g, Xor32(u, v), w);
    UnpackXor(g, u, t);
    UnpackXor(g, v, t);
    RorBytes(Xor32(u, t));
    RorBytes(Xor32(v, t));
    RorBytes(t);
    var p, q, r := Ror8(Xor32(u, t)), Ror16(Xor32(v, t)), Ror24(t);
    UnpackXor(g, p, q);
    UnpackXor(g, Xor32(p, q), r);
    UnpackXor(g, Xor32(Xor32(u, v), w), Xor32(Xor32(p, q), r));
  }

  // ---- the tables ----

  function Three(g: Gf, s: bv8): bv8 { g.add(g.x(s), s) }

  /** crypto_ft_tab[n][b] */
  function Ft0(g: Gf, b: bv8): bv32 { Pack(Column(g.x(g.sub(b)), g.sub(b), g.sub(b), Three(g, g.sub(b)))) }

  function Ft1(g: Gf, b: bv8): bv32 { Pack(Column(Three(g, g.sub(b)), g.x(g.sub(b)), g.sub(b), g.sub(b))) }

  function Ft2(g: Gf, b: bv8): bv32 { Pack(Column(g.sub(b), Three(g, g.sub(b)), g.x(g.sub(b)), g.sub(b))) }

  function Ft3(g: Gf, b: bv8): bv32 { Pack(Column(g.sub(b), g.sub(b), Three(g, g.sub(b)), g.x(g.sub(b)))) }

  /** crypto_it_tab[n][b] */
  function It0(g: Gf, b: bv8): bv32 {
    Pack(Column(MulE(g, g.inv(b)), Mul9(g, g.inv(b)), MulD(g, g.inv(b)), MulB(g, g.inv(b))))
  }

  function It1(g: Gf, b: bv8): bv32 {
    Pack(Column(MulB(g, g.inv(b)), MulE(g, g.inv(b)), Mul9(g, g.inv(b)), MulD(g, g.inv(b))))
  }

  function It2(g: Gf, b: bv8): bv32 {
    Pack(Column(MulD(g, g.inv(b)), MulB(g, g.inv(b)), MulE(g, g.inv(b)), Mul9(g, g.inv(b))))
  }

  function It3(g: Gf, b: bv8): bv32 {
    Pack(Column(Mul9(g, g.inv(b)), MulD(g, g.inv(b)), MulB(g, g.inv(b)), MulE(g, g.inv(b))))
  }

  /** crypto_fl_tab[n][b] and crypto_il_tab[n][b]: the substituted byte in place n. */
  function Place0(s: bv8): bv32 { Pack(Column(s, 0, 0, 0)) }

  function Place1(s: bv8): bv32 { Pack(Column(0, s, 0, 0)) }

  function Place2(s: bv8): bv32 { Pack(Column(0, 0, s, 0)) }

  function Place3(s: bv8): bv32 { Pack(Column(0, 0, 0, s)) }

  function Sum4(p: bv32, q: bv32, r: bv32, t: bv32): bv32 { Xor32(Xor32(Xor32(p, q), r), t) }

  lemma {:induction false} UnpackSum4(g: Gf, p: bv32, q: bv32, r: bv32, t: bv32)
    requires Field(g)
    ensures Unpack(Sum4(p, q, r, t)) == Xor(g, Xor(g, Xor(g, Unpack(p), Unpack(q)), Unpack(r)), Unpack(t))
  {
    UnpackXor(g, p, q);
    UnpackXor(g, Xor32(p, q), r);
    UnpackXor(g, Xor32(Xor32(p, q), r), t);
  }

  /** A sum of four, begun at each of its terms. */
  lemma {:induction false} Rot4(g: Gf, p: bv8, q: bv8, r: bv8, t: bv8)
    requires Field(g)
    ensures g.add(g.add(g.add(p, q), r), t) == g.add(p, g.add(g.add(q, r), t))
    ensures g.add(g.add(g.add(p, q), r), t) == g.add(q, g.add(g.add(r, t), p))
    ensures g.add(g.add(g.add(p, q), r), t) == g.add(r, g.add(g.add(t, p), q))
    ensures g.add(g.add(g.add(p, q), r), t) == g.add(t, g.add(g.add(p, q), r))
  {
    Assoc(g, p, q, r);
    Assoc(g, p, g.add(q, r), t);
    Comm(g, p, g.add(g.add(q, r), t));
    Assoc(g, q, r, t);
    Assoc(g, q, g.add(r, t), p);
    Assoc(g, g.add(p, q), r, t);
    Comm(g, g.add(p, q), g.add(r, t));
    Assoc(g, r, t, g.add(p, q));
    Assoc(g, t, p, q);
    Comm(g, g.add(g.add(p, q), r), t);
  }

  lemma {:induction false} MForm(g: Gf, a: bv8, b: bv8, c: bv8, d: bv8)
    requires Field(g)
    ensures g.add(g.x(a), g.add(g.add(Three(g, b), c), d)) == M(g, a, b, c, d)
  {
    Assoc(g, Three(g, b), c, d);
    Assoc(g, g.x(b), b, g.add(c, d));
    Assoc(g, g.x(a), g.x(b), g.add(b, g.add(c, d)));
  }

  /** Four table look-ups make one mixed column. */
  lemma {:induction false} FtColumn(g: Gf, b: Column)
    requires Field(g)
    ensures Unpack(Sum4(Ft0(g, b.b0), Ft1(g, b.b1), Ft2(g, b.b2), Ft3(g, b.b3))) == Mix(g, Sub(g, b))
  {
    var s0, s1, s2, s3 := g.sub(b.b0), g.sub(b.b1), g.sub(b.b2), g.sub(b.b3);
    UnpackSum4(g, Ft0(g, b.b0), Ft1(g, b.b1), Ft2(g, b.b2), Ft3(g, b.b3));
    UnpackPack(Column(g.x(s0), s0, s0, Three(g, s0)));
    UnpackPack(Column(Three(g, s1), g.x(s1), s1, s1));
    UnpackPack(Column(s2, Three(g, s2), g.x(s2), s2));
    UnpackPack(Column(s3, s3, Three(g, s3), g.x(s3)));
    Rot4(g, g.x(s0), Three(g, s1), s2, s3);
    Rot4(g, s0, g.x(s1), Three(g, s2), s3);
    Rot4(g, s0, s1, g.x(s2), Three(g, s3));
    Rot4(g, Three(g, s0), s1, s2, g.x(s3));
    MForm(g, s0, s1, s2, s3);
    MForm(g, s1, s2, s3, s0);
    MForm(g, s2, s3, s0, s1);
    MForm(g, s3, s0, s1, s2);
  }

  lemma {:induction false} ItColumn(g: Gf, b: Column)
    requires Field(g)
    ensures Unpack(Sum4(It0(g, b.b0), It1(g, b.b1), It2(g, b.b2), It3(g, b.b3))) == InvMix(g, InvSub(g, b))
  {
    var s0, s1, s2, s3 := g.inv(b.b0), g.inv(b.b1), g.inv(b.b2), g.inv(b.b3);
    UnpackSum4(g, It0(g, b.b0), It1(g, b.b1), It2(g, b.b2), It3(g, b.b3));
    UnpackPack(Column(MulE(g, s0), Mul9(g, s0), MulD(g, s0), MulB(g, s0)));
    UnpackPack(Column(MulB(g, s1), MulE(g, s1), Mul9(g, s1), MulD(g, s1)));
    UnpackPack(Column(MulD(g, s2), MulB(g, s2), MulE(g, s2), Mul9(g, s2)));
    UnpackPack(Column(Mul9(g, s3), MulD(g, s3), MulB(g, s3), MulE(g, s3)));
    Rot4(g, MulE(g, s0), MulB(g, s1), MulD(g, s2), Mul9(g, s3));
    Rot4(g, Mul9(g, s0), MulE(g, s1), MulB(g, s2), MulD(g, s3));
    Rot4(g, MulD(g, s0), Mul9(g, s1), MulE(g, s2), MulB(g, s3));
    Rot4(g, MulB(g, s0), MulD(g, s1), Mul9(g, s2), MulE(g, s3));
  }

  lemma {:induction false} AddZero(g: Gf, b: bv8)
    requires Field(g)
    ensures g.add(b, 0) == b && g.add(0, b) == b
  {
    Sum(g, b, 0);
    Sum(g, 0, b);
  }

  lemma {:induction false} PlaceColumn(g: Gf, s0: bv8, s1: bv8, s2: bv8, s3: bv8)
    requires Field(g)
    ensures Unpack(Sum4(Place0(s0), Place1(s1), Place2(s2), Place3(s3))) == Column(s0, s1, s2, s3)
  {
    UnpackSum4(g, Place0(s0), Place1(s1), Place2(s2), Place3(s3));
    UnpackPack(Column(s0, 0, 0, 0));
    UnpackPack(Column(0, s1, 0, 0));
    UnpackPack(Column(0, 0, s2, 0));
    UnpackPack(Column(0, 0, 0, s3));
    AddZero(g, s0);
    AddZero(g, s1);
    AddZero(g, s2);
    AddZero(g, s3);
    AddZero(g, 0);
  }

  function LsBox(g: Gf, x: bv32): bv32 {
    Sum4(Place0(g.sub(B0(x))), Place1(g.sub(B1(x))), Place2(g.sub(B2(x))), Place3(g.sub(B3(x))))
  }

  /** ls_box is SubWord. */
  lemma {:induction false} UnpackLsBox(g: Gf, x: bv32)
    requires Field(g)
    ensures Unpack(LsBox(g, x)) == Sub(g, Unpack(x))
  {
    PlaceColumn(g, g.sub(B0(x)), g.sub(B1(x)), g.sub(B2(x)), g.sub(B3(x)));
  }
}
