/** The key schedule of section 5.2 of FIPS-197 and the round keys it gives. */
module AesKey {
  import opened AesAlgebra
  import opened AesCipher
  import opened AesWords

  /** x^(i - 1) */
  function RconByte(g: Gf, i: nat): bv8
    requires i >= 1
  {
    if i == 1 then 1 else g.x(RconByte(g, i - 1))
  }

  function Rcon(g: Gf, i: nat): Column
    requires i >= 1
  {
    Column(RconByte(g, i), 0, 0, 0)
  }

  predicate KeySize(nk: nat) { nk == 4 || nk == 6 || nk == 8 }

  /** Word i of the expanded key. */
  function KeyWord(g: Gf, key: seq<Column>, i: nat): Column
    requires KeySize(|key|)
    decreases i, 0
  {
    if i < |key| then key[i] else Xor(g, KeyWord(g, key, i - |key|), Temp(g, key, i))
  }

  /** What is added to the word one key length back. */
  function Temp(g: Gf, key: seq<Column>, i: nat): Column
    requires KeySize(|key|) && i >= |key|
    decreases i - 1, 1
  {
    var t := KeyWord(g, key, i - 1);
    if i % |key| == 0 then Xor(g, Sub(g, Rot(t)), Rcon(g, i / |key|))
    else if |key| > 6 && i % |key| == 4 then Sub(g, t)
    else t
  }

  function RoundKey(g: Gf, key: seq<Column>, r: nat): State
    requires KeySize(|key|)
  {
    State(KeyWord(g, key, 4 * r), KeyWord(g, key, 4 * r + 1), KeyWord(g, key, 4 * r + 2), KeyWord(g, key, 4 * r + 3))
  }

  /** The |key| + 7 round keys. */
  function RoundKeys(g: Gf, key: seq<Column>): (w: seq<State>)
    requires KeySize(|key|)
    ensures |w| == |key| + 7
    ensures forall r :: 0 <= r < |w| ==> w[r] == RoundKey(g, key, r)
  {
    seq(|key| + 7, r requires 0 <= r < |key| + 7 => RoundKey(g, key, r))
  }

  /** rco_tab */
  const RCO: seq<bv32> := [1, 2, 4, 8, 16, 32, 64, 128, 27, 54]

  lemma {:induction false} RcoDoubles(i: nat)
    requires i < 9
    ensures RCO[i + 1] == StarX(RCO[i])
  {
    assert StarX(1) == 2 && StarX(2) == 4 && StarX(4) == 8 && StarX(8) == 16 && StarX(16) == 32;
    assert StarX(32) == 64 && StarX(64) == 128 && StarX(128) == 27 && StarX(27) == 54;
  }

  lemma {:induction false} TimesZero(g: Gf)
    requires Field(g)
    ensures g.x(0) == 0
  {
    DoubleIs(g, 0);
  }

  /** The table holds the round constants. */
  lemma {:induction false} RcoIsRcon(g: Gf, i: nat)
    requires Field(g) && i < 10
    ensures Unpack(RCO[i]) == Rcon(g, i + 1)
    decreases i
  {
    if i == 0 {
      assert Unpack(1) == Column(1, 0, 0, 0);
    } else {
      RcoIsRcon(g, i - 1);
      RcoDoubles(i - 1);
      UnpackStarX(g, RCO[i - 1]);
      TimesZero(g);
    }
  }

  lemma {:induction false} XorComm(g: Gf, a: Column, b: Column)
    requires Field(g)
    ensures Xor(g, a, b) == Xor(g, b, a)
  {
    Comm(g, a.b0, b.b0);
    Comm(g, a.b1, b.b1);
    Comm(g, a.b2, b.b2);
    Comm(g, a.b3, b.b3);
  }

  /** One word of the schedule from the running value `t`. */
  lemma {:induction false} NextWord(g: Gf, key: seq<Column>, i: nat, t: bv32, back: bv32)
    requires Field(g) && KeySize(|key|) && i >= |key|
    requires Unpack(t) == Temp(g, key, i) && Unpack(back) == KeyWord(g, key, i - |key|)
    ensures Unpack(Xor32(t, back)) == KeyWord(g, key, i) && Unpack(Xor32(back, t)) == KeyWord(g, key, i)
  {
    UnpackXor(g, t, back);
    UnpackXor(g, back, t);
    XorComm(g, Unpack(t), Unpack(back));
  }

  // ---- where the decryption key of word i goes ----

  /** n - (i & ~3) + (i & 3) */
  function Mirror(n: nat, i: nat): (j: int) { n - i / 4 * 4 + i % 4 }

  lemma {:induction false} MirrorTwice(n: nat, i: nat)
    requires n % 4 == 0 && i < n + 4
    ensures 0 <= Mirror(n, i) < n + 4 && Mirror(n, Mirror(n, i)) == i
    ensures 4 <= i < n ==> 4 <= Mirror(n, i) < n
  {
    var q, c, p := i / 4, i % 4, n / 4;
    assert i == 4 * q + c && n == 4 * p;
    var j := 4 * (p - q) + c;
    assert j / 4 == p - q && j % 4 == c;
  }
}
