/** crypto_aes_ctx: the key schedule filled in place, and one block encrypted and decrypted by table rounds. */
module AesContext {
  import opened AesAlgebra
  import opened AesCipher
  import opened AesWords
  import opened AesKey

  const EINVAL := 22

  function ColumnAt(b: seq<bv8>, i: nat): Column
    requires 4 * i + 4 <= |b|
  {
    Column(b[4 * i], b[4 * i + 1], b[4 * i + 2], b[4 * i + 3])
  }

  /** The words of a key. */
  function Columns(b: seq<bv8>): (c: seq<Column>)
    requires |b| % 4 == 0
    ensures |c| == |b| / 4
    ensures forall i :: 0 <= i < |c| ==> c[i] == ColumnAt(b, i)
  {
    seq(|b| / 4, i requires 0 <= i < |b| / 4 => ColumnAt(b, i))
  }

  /** A block as a state: byte r of column c is byte r + 4c. */
  function StateOf(b: seq<bv8>): State
    requires |b| == 16
  {
    State(ColumnAt(b, 0), ColumnAt(b, 1), ColumnAt(b, 2), ColumnAt(b, 3))
  }

  function ColumnBytes(c: Column): seq<bv8> { [c.b0, c.b1, c.b2, c.b3] }

  function BlockOf(s: State): (b: seq<bv8>)
    ensures |b| == 16
  {
    ColumnBytes(s.c0) + ColumnBytes(s.c1) + ColumnBytes(s.c2) + ColumnBytes(s.c3)
  }

  lemma {:induction false} StateOfBlock(s: State)
    ensures StateOf(BlockOf(s)) == s
  {
  }

  lemma {:induction false} BlockOfState(b: seq<bv8>)
    requires |b| == 16
    ensures BlockOf(StateOf(b)) == b
  {
  }

  /** What encrypting and decrypting a block under a key mean. */
  function Encrypted(g: Gf, key: seq<Column>, b: seq<bv8>): (c: seq<bv8>)
    requires KeySize(|key|) && |b| == 16
    ensures |c| == 16
  {
    BlockOf(Cipher(g, StateOf(b), RoundKeys(g, key)))
  }

  function Decrypted(g: Gf, key: seq<Column>, b: seq<bv8>): (c: seq<bv8>)
    requires KeySize(|key|) && |b| == 16
    ensures |c| == 16
  {
    BlockOf(EqInvCipher(g, StateOf(b), DecKeys(g, RoundKeys(g, key))))
  }

  /** For every key of the three sizes and every block, decryption undoes encryption. */
  lemma {:induction false} DecryptUndoesEncrypt(g: Gf, key: seq<Column>, b: seq<bv8>)
    requires Field(g) && KeySize(|key|) && |b| == 16
    ensures Decrypted(g, key, Encrypted(g, key, b)) == b
  {
    var s := StateOf(b);
    StateOfBlock(Cipher(g, s, RoundKeys(g, key)));
    EqInvCipherUndoes(g, s, RoundKeys(g, key));
    BlockOfState(b);
  }

  /** Four words of a buffer or of a key schedule as a state. */
  ghost function Words(a: array<bv32>, at: nat): State
    requires at + 4 <= a.Length
    reads a
  {
    State(Unpack(a[at]), Unpack(a[at + 1]), Unpack(a[at + 2]), Unpack(a[at + 3]))
  }

  function Row(x0: bv32, x1: bv32, x2: bv32, x3: bv32): Column { Column(B0(x0), B1(x1), B2(x2), B3(x3)) }

  /** f_rn */
  function FRn(g: Gf, x0: bv32, x1: bv32, x2: bv32, x3: bv32, k: bv32): bv32 {
    Xor32(Sum4(Ft0(g, B0(x0)), Ft1(g, B1(x1)), Ft2(g, B2(x2)), Ft3(g, B3(x3))), k)
  }

  /** f_rl */
  function FRl(g: Gf, x0: bv32, x1: bv32, x2: bv32, x3: bv32, k: bv32): bv32 {
    Xor32(Sum4(Place0(g.sub(B0(x0))), Place1(g.sub(B1(x1))), Place2(g.sub(B2(x2))), Place3(g.sub(B3(x3)))), k)
  }

  /** i_rn */
  function IRn(g: Gf, x0: bv32, x1: bv32, x2: bv32, x3: bv32, k: bv32): bv32 {
    Xor32(Sum4(It0(g, B0(x0)), It1(g, B1(x1)), It2(g, B2(x2)), It3(g, B3(x3))), k)
  }

  /** i_rl */
  function IRl(g: Gf, x0: bv32, x1: bv32, x2: bv32, x3: bv32, k: bv32): bv32 {
    Xor32(Sum4(Place0(g.inv(B0(x0))), Place1(g.inv(B1(x1))), Place2(g.inv(B2(x2))), Place3(g.inv(B3(x3)))), k)
  }

  lemma {:induction false} FRnIs(g: Gf, x0: bv32, x1: bv32, x2: bv32, x3: bv32, k: bv32)
    requires Field(g)
    ensures Unpack(FRn(g, x0, x1, x2, x3, k)) == Xor(g, Mix(g, Sub(g, Row(x0, x1, x2, x3))), Unpack(k))
  {
    FtColumn(g, Row(x0, x1, x2, x3));
    UnpackXor(g, Sum4(Ft0(g, B0(x0)), Ft1(g, B1(x1)), Ft2(g, B2(x2)), Ft3(g, B3(x3))), k);
  }

  lemma {:induction false} FRlIs(g: Gf, x0: bv32, x1: bv32, x2: bv32, x3: bv32, k: bv32)
    requires Field(g)
    ensures Unpack(FRl(g, x0, x1, x2, x3, k)) == Xor(g, Sub(g, Row(x0, x1, x2, x3)), Unpack(k))
  {
    PlaceColumn(g, g.sub(B0(x0)), g.sub(B1(x1)), g.sub(B2(x2)), g.sub(B3(x3)));
    UnpackXor(g, Sum4(Place0(g.sub(B0(x0))), Place1(g.sub(B1(x1))),
                      Place2(g.sub(B2(x2))), Place3(g.sub(B3(x3)))), k);
  }

  lemma {:induction false} IRnIs(g: Gf, x0: bv32, x1: bv32, x2: bv32, x3: bv32, k: bv32)
    requires Field(g)
    ensures Unpack(IRn(g, x0, x1, x2, x3, k)) == Xor(g, InvMix(g, InvSub(g, Row(x0, x1, x2, x3))), Unpack(k))
  {
    ItColumn(g, Row(x0, x1, x2, x3));
    UnpackXor(g, Sum4(It0(g, B0(x0)), It1(g, B1(x1)), It2(g, B2(x2)), It3(g, B3(x3))), k);
  }

  lemma {:induction false} IRlIs(g: Gf, x0: bv32, x1: bv32, x2: bv32, x3: bv32, k: bv32)
    requires Field(g)
    ensures Unpack(IRl(g, x0, x1, x2, x3, k)) == Xor(g, InvSub(g, Row(x0, x1, x2, x3)), Unpack(k))
  {
    PlaceColumn(g, g.inv(B0(x0)), g.inv(B1(x1)), g.inv(B2(x2)), g.inv(B3(x3)));
    UnpackXor(g, Sum4(Place0(g.inv(B0(x0))), Place1(g.inv(B1(x1))),
                      Place2(g.inv(B2(x2))), Place3(g.inv(B3(x3)))), k);
  }

  /** f_nround: one full round from buffer `bi` into `bo`. */
  method FNRound(g: Gf, bo: array<bv32>, bi: array<bv32>, key: array<bv32>, kp: nat)
    requires Field(g) && bo.Length == 4 == bi.Length && bo != bi && bo != key && kp + 4 <= key.Length
    modifies bo
    ensures Words(bo, 0) == Round(g, old(Words(bi, 0)), old(Words(key, kp)))
  {
    bo[0] := FRn(g, bi[0], bi[1], bi[2], bi[3], key[kp]);
    bo[1] := FRn(g, bi[1], bi[2], bi[3], bi[0], key[kp + 1]);
    bo[2] := FRn(g, bi[2], bi[3], bi[0], bi[1], key[kp + 2]);
    bo[3] := FRn(g, bi[3], bi[0], bi[1], bi[2], key[kp + 3]);
    FRnIs(g, bi[0], bi[1], bi[2], bi[3], key[kp]);
    FRnIs(g, bi[1], bi[2], bi[3], bi[0], key[kp + 1]);
    FRnIs(g, bi[2], bi[3], bi[0], bi[1], key[kp + 2]);
    FRnIs(g, bi[3], bi[0], bi[1], bi[2], key[kp + 3]);
  }

  /** f_lround */
  method FLRound(g: Gf, bo: array<bv32>, bi: array<bv32>, key: array<bv32>, kp: nat)
    requires Field(g) && bo.Length == 4 == bi.Length && bo != bi && bo != key && kp + 4 <= key.Length
    modifies bo
    ensures Words(bo, 0) == LastRound(g, old(Words(bi, 0)), old(Words(key, kp)))
  {
    bo[0] := FRl(g, bi[0], bi[1], bi[2], bi[3], key[kp]);
    bo[1] := FRl(g, bi[1], bi[2], bi[3], bi[0], key[kp + 1]);
    bo[2] := FRl(g, bi[2], bi[3], bi[0], bi[1], key[kp + 2]);
    bo[3] := FRl(g, bi[3], bi[0], bi[1], bi[2], key[kp + 3]);
    FRlIs(g, bi[0], bi[1], bi[2], bi[3], key[kp]);
    FRlIs(g, bi[1], bi[2], bi[3], bi[0], key[kp + 1]);
    FRlIs(g, bi[2], bi[3], bi[0], bi[1], key[kp + 2]);
    FRlIs(g, bi[3], bi[0], bi[1], bi[2], key[kp + 3]);
  }

  /** i_nround */
  method INRound(g: Gf, bo: array<bv32>, bi: array<bv32>, key: array<bv32>, kp: nat)
    requires Field(g) && bo.Length == 4 == bi.Length && bo != bi && bo != key && kp + 4 <= key.Length
    modifies bo
    ensures Words(bo, 0) == EqRound(g, old(Words(bi, 0)), old(Words(key, kp)))
  {
    bo[0] := IRn(g, bi[0], bi[3], bi[2], bi[1], key[kp]);
    bo[1] := IRn(g, bi[1], bi[0], bi[3], bi[2], key[kp + 1]);
    bo[2] := IRn(g, bi[2], bi[1], bi[0], bi[3], key[kp + 2]);
    bo[3] := IRn(g, bi[3], bi[2], bi[1], bi[0], key[kp + 3]);
    IRnIs(g, bi[0], bi[3], bi[2], bi[1], key[kp]);
    IRnIs(g, bi[1], bi[0], bi[3], bi[2], key[kp + 1]);
    IRnIs(g, bi[2], bi[1], bi[0], bi[3], key[kp + 2]);
    IRnIs(g, bi[3], bi[2], bi[1], bi[0], key[kp + 3]);
  }

  /** i_lround */
  method ILRound(g: Gf, bo: array<bv32>, bi: array<bv32>, key: array<bv32>, kp: nat)
    requires Field(g) && bo.Length == 4 == bi.Length && bo != bi && bo != key && kp + 4 <= key.Length
    modifies bo
    ensures Words(bo, 0) == EqLastRound(g, old(Words(bi, 0)), old(Words(key, kp)))
  {
    bo[0] := IRl(g, bi[0], bi[3], bi[2], bi[1], key[kp]);
    bo[1] := IRl(g, bi[1], bi[0], bi[3], bi[2], key[kp + 1]);
    bo[2] := IRl(g, bi[2], bi[1], bi[0], bi[3], key[kp + 2]);
    bo[3] := IRl(g, bi[3], bi[2], bi[1], bi[0], key[kp + 3]);
    IRlIs(g, bi[0], bi[3], bi[2], bi[1], key[kp]);
    IRlIs(g, bi[1], bi[0], bi[3], bi[2], key[kp + 1]);
    IRlIs(g, bi[2], bi[1], bi[0], bi[3], key[kp + 2]);
    IRlIs(g, bi[3], bi[2], bi[1], bi[0], key[kp + 3]);
  }

  /** Word j of the decryption schedule is where the Equivalent Inverse Cipher looks for it. */
  ghost predicate DecWord(g: Gf, enc: seq<bv32>, dec: seq<bv32>, n: nat, j: nat) {
    && j < |dec| && 0 <= Mirror(n, j) < |enc|
    && Unpack(dec[j]) == if 4 <= j < n then InvMix(g, Unpack(enc[Mirror(n, j)])) else Unpack(enc[Mirror(n, j)])
  }

  /** The outer words are in place, and the inner ones that come from the first i words. */
  ghost predicate DecWords(g: Gf, enc: seq<bv32>, dec: seq<bv32>, n: nat, i: nat) {
    forall j :: 0 <= j < n + 4 && (4 <= j < n ==> Mirror(n, j) < i) ==> DecWord(g, enc, dec, n, j)
  }

  lemma {:induction false} DecOuter(g: Gf, enc: seq<bv32>, dec: seq<bv32>, n: nat)
    requires |enc| == 60 == |dec| && n % 4 == 0 && 4 <= n <= 56
    requires dec[..4] == enc[n..n + 4] && dec[n..n + 4] == enc[..4]
    ensures DecWords(g, enc, dec, n, 4)
  {
    forall j | 0 <= j < n + 4 && (4 <= j < n ==> Mirror(n, j) < 4)
      ensures DecWord(g, enc, dec, n, j)
    {
      MirrorTwice(n, j);
      if j < 4 {
        assert Mirror(n, j) == n + j && dec[j] == dec[..4][j] && enc[n + j] == enc[n..n + 4][j];
      } else {
        assert j >= n && Mirror(n, j) == j - n;
        assert dec[j] == dec[n..n + 4][j - n] && enc[j - n] == enc[..4][j - n];
      }
    }
  }

  lemma {:induction false} DecStep(g: Gf, enc: seq<bv32>, dec: seq<bv32>, n: nat, i: nat)
    requires Field(g) && |enc| == 60 == |dec| && n % 4 == 0 && 4 <= i < n <= 56 && 0 <= Mirror(n, i) < 60
    requires DecWords(g, enc, dec, n, i)
    ensures DecWords(g, enc, dec[Mirror(n, i) := ImixCol(enc[i])], n, i + 1)
  {
    var dec' := dec[Mirror(n, i) := ImixCol(enc[i])];
    MirrorTwice(n, i);
    forall j | 0 <= j < n + 4 && (4 <= j < n ==> Mirror(n, j) < i + 1)
      ensures DecWord(g, enc, dec', n, j)
    {
      MirrorTwice(n, j);
      if Mirror(n, j) == i {
        UnpackImixCol(g, enc[i]);
      } else {
        assert DecWord(g, enc, dec, n, j);
      }
    }
  }

  lemma {:induction false} DecKeyIs(g: Gf, key: seq<Column>, r: nat)
    requires KeySize(|key|) && r < |key| + 7
    ensures r == 0 || r == |key| + 6 ==> DecKeys(g, RoundKeys(g, key))[r] == RoundKey(g, key, |key| + 6 - r)
    ensures !(r == 0 || r == |key| + 6) ==>
              DecKeys(g, RoundKeys(g, key))[r] == InvMixColumns(g, RoundKey(g, key, |key| + 6 - r))
  {
    var w := RoundKeys(g, key);
    assert DecKeys(g, w)[r] == DecKey(g, w, r) && w[|key| + 6 - r] == RoundKey(g, key, |key| + 6 - r);
  }

  /** Word i only adds its predecessor. */
  predicate Plain(nk: nat, i: nat)
    requires nk > 0
  {
    i % nk != 0 && !(nk > 6 && i % nk == 4)
  }

  lemma {:induction false} GroupIndex(nk: nat, i: nat)
    requires KeySize(nk)
    ensures nk * (i + 1) % nk == 0 && nk * (i + 1) / nk == i + 1
  {
    if nk == 4 {
      assert 4 * (i + 1) / 4 == i + 1;
    } else if nk == 6 {
      assert 6 * (i + 1) / 6 == i + 1;
    } else {
      assert 8 * (i + 1) / 8 == i + 1;
    }
  }

  /** crypto_aes_ctx, for one S-box. */
  class Context {
    const g: Gf
    var keyLength: nat
    const keyEnc: array<bv32>
    const keyDec: array<bv32>

    constructor (g: Gf)
      requires Field(g)
      ensures this.g == g && Shaped() && fresh(keyEnc) && fresh(keyDec)
    {
      this.g := g;
      keyLength := 0;
      keyEnc := new bv32[60];
      keyDec := new bv32[60];
    }

    ghost predicate Shaped() { keyEnc.Length == 60 == keyDec.Length && keyEnc != keyDec && Field(g) }

    /** The first n words of key_enc follow the schedule of `key`. */
    ghost predicate Prefix(key: seq<Column>, n: nat)
      requires Shaped() && KeySize(|key|) && n <= 60
      reads keyEnc
    {
      forall i :: 0 <= i < n ==> Unpack(keyEnc[i]) == KeyWord(g, key, i)
    }

    /** Both schedules hold `key`. */
    ghost predicate Ready(key: seq<Column>)
      requires Shaped()
      reads this`keyLength, keyEnc, keyDec
    {
      && KeySize(|key|) && keyLength == 4 * |key|
      && Prefix(key, keyLength + 28)
      && DecWords(g, keyEnc[..], keyDec[..], keyLength + 24, keyLength + 24)
    }

    /** The first steps of loop4, loop6 and loop8: rotate, substitute, add the round constant. */
    method Group(t: bv32, i: nat, ghost key: seq<Column>) returns (t': bv32)
      requires Shaped() && KeySize(|key|) && i < 10
      requires Unpack(t) == KeyWord(g, key, |key| * (i + 1) - 1)
      ensures Unpack(t') == Temp(g, key, |key| * (i + 1))
    {
      t' := Ror8(t);
      RorBytes(t);
      UnpackLsBox(g, t');
      RcoIsRcon(g, i);
      UnpackXor(g, LsBox(g, t'), RCO[i]);
      t' := Xor32(LsBox(g, t'), RCO[i]);
      GroupIndex(|key|, i);
    }

    /** The rest of the macros: `count` words, each the one before it added to the one a key length back. */
    method Fill(from: nat, count: nat, t0: bv32, ghost key: seq<Column>, nk: nat) returns (t: bv32)
      requires Shaped() && nk == |key| && KeySize(nk) && nk <= from && 0 < count && from + count <= 60
      requires Prefix(key, from) && Unpack(t0) == Temp(g, key, from)
      requires forall i :: from < i < from + count ==> Plain(nk, i)
      modifies keyEnc
      ensures Prefix(key, from + count)
      ensures Unpack(t) == KeyWord(g, key, from + count - 1)
    {
      t := t0;
      for m := 0 to count
        invariant Prefix(key, from + m)
        invariant Unpack(t) == if m == 0 then Temp(g, key, from) else KeyWord(g, key, from + m - 1)
      {
        assert m > 0 ==> Plain(nk, from + m);
        assert Unpack(t) == Temp(g, key, from + m);
        t := Put(from + m, t, key, nk);
      }
    }

    method Put(i: nat, t: bv32, ghost key: seq<Column>, nk: nat) returns (t': bv32)
      requires Shaped() && nk == |key| && KeySize(nk) && nk <= i < 60
      requires Prefix(key, i) && Unpack(t) == Temp(g, key, i)
      modifies keyEnc
      ensures Prefix(key, i + 1) && Unpack(t') == KeyWord(g, key, i)
    {
      NextWord(g, key, i, t, keyEnc[i - nk]);
      t' := Xor32(t, keyEnc[i - nk]);
      keyEnc[i] := t';
    }

    method Schedule128(ghost key: seq<Column>)
      requires Shaped() && |key| == 4 && Prefix(key, 4)
      modifies keyEnc
      ensures Prefix(key, 44)
    {
      var t := keyEnc[3];
      for i := 0 to 10
        invariant Prefix(key, 4 * i + 4) && Unpack(t) == KeyWord(g, key, 4 * i + 3)
      {
        t := Group(t, i, key);
        t := Fill(4 * i + 4, 4, t, key, 4);
      }
    }

    method Schedule192(ghost key: seq<Column>)
      requires Shaped() && |key| == 6 && Prefix(key, 6)
      modifies keyEnc
      ensures Prefix(key, 52)
    {
      var t := keyEnc[5];
      for i := 0 to 8
        invariant Prefix(key, 6 * i + 6) && Unpack(t) == KeyWord(g, key, 6 * i + 5)
      {
        t := Group(t, i, key);
        t := Fill(6 * i + 6, 6, t, key, 6);
      }
    }

    /** loop8tophalf */
    method TopHalf(i: nat, t: bv32, ghost key: seq<Column>) returns (t': bv32)
      requires Shaped() && |key| == 8 && i <= 6
      requires Prefix(key, 8 * i + 8) && Unpack(t) == KeyWord(g, key, 8 * i + 7)
      modifies keyEnc
      ensures Prefix(key, 8 * i + 12) && Unpack(t') == KeyWord(g, key, 8 * i + 11)
    {
      t' := Group(t, i, key);
      t' := Fill(8 * i + 8, 4, t', key, 8);
    }

    /** The second half of loop8. */
    method SecondHalf(from: nat, t: bv32, ghost key: seq<Column>) returns (t': bv32)
      requires Shaped() && |key| == 8 && from % 8 == 4 && 8 <= from <= 56
      requires Prefix(key, from) && Unpack(t) == KeyWord(g, key, from - 1)
      modifies keyEnc
      ensures Prefix(key, from + 4) && Unpack(t') == KeyWord(g, key, from + 3)
    {
      UnpackLsBox(g, t);
      t' := Fill(from, 4, LsBox(g, t), key, 8);
    }

    method Loop8(i: nat, t: bv32, ghost key: seq<Column>) returns (t': bv32)
      requires Shaped() && |key| == 8 && i < 6
      requires Prefix(key, 8 * i + 8) && Unpack(t) == KeyWord(g, key, 8 * i + 7)
      modifies keyEnc
      ensures Prefix(key, 8 * i + 16) && Unpack(t') == KeyWord(g, key, 8 * i + 15)
    {
      t' := TopHalf(i, t, key);
      t' := SecondHalf(8 * i + 12, t', key);
    }

    method Schedule256(ghost key: seq<Column>)
      requires Shaped() && |key| == 8 && Prefix(key, 8)
      modifies keyEnc
      ensures Prefix(key, 60)
    {
      var t, i := keyEnc[7], 0;
      while i < 6
        invariant 0 <= i <= 6 && Prefix(key, 8 * i + 8) && Unpack(t) == KeyWord(g, key, 8 * i + 7)
      {
        t := Loop8(i, t, key);
        i := i + 1;
      }
      t := TopHalf(i, t, key);
    }

    /** le32_to_cpu(key[i]) into key_enc[i], for the words the key has. */
    method LoadKey(inKey: seq<bv8>)
      requires Shaped() && KeySize(|inKey| / 4) && |inKey| % 4 == 0
      modifies keyEnc
      ensures Prefix(Columns(inKey), |inKey| / 4)
    {
      for i := 0 to |inKey| / 4
        invariant Prefix(Columns(inKey), i)
      {
        keyEnc[i] := Pack(ColumnAt(inKey, i));
        UnpackPack(ColumnAt(inKey, i));
      }
    }

    method OuterWords(n: nat)
      requires Shaped() && n % 4 == 0 && 4 <= n <= 56
      modifies keyDec
      ensures DecWords(g, keyEnc[..], keyDec[..], n, 4)
    {
      keyDec[n], keyDec[n + 1], keyDec[n + 2], keyDec[n + 3] := keyEnc[0], keyEnc[1], keyEnc[2], keyEnc[3];
      keyDec[0], keyDec[1], keyDec[2], keyDec[3] := keyEnc[n], keyEnc[n + 1], keyEnc[n + 2], keyEnc[n + 3];
      DecOuter(g, keyEnc[..], keyDec[..], n);
    }

    /** Words 0-3 and the last four change places as they are; the others go inverse-mixed. */
    method DecSchedule(n: nat)
      requires Shaped() && n % 4 == 0 && 4 <= n <= 56
      modifies keyDec
      ensures DecWords(g, keyEnc[..], keyDec[..], n, n)
    {
      OuterWords(n);
      for i := 4 to n
        invariant DecWords(g, keyEnc[..], keyDec[..], n, i)
      {
        MirrorTwice(n, i);
        DecStep(g, keyEnc[..], keyDec[..], n, i);
        ghost var before := keyDec[..];
        keyDec[Mirror(n, i)] := ImixCol(keyEnc[i]);
        assert keyDec[..] == before[Mirror(n, i) := ImixCol(keyEnc[i])];
      }
    }

    /** crypto_aes_expand_key */
    method ExpandKey(inKey: seq<bv8>) returns (err: int)
      requires Shaped()
      modifies this`keyLength, keyEnc, keyDec
      ensures |inKey| == 16 || |inKey| == 24 || |inKey| == 32 ==> err == 0 && Ready(Columns(inKey))
      ensures !(|inKey| == 16 || |inKey| == 24 || |inKey| == 32) ==>
                err == -EINVAL && unchanged(this) && unchanged(keyEnc) && unchanged(keyDec)
    {
      if |inKey| != 16 && |inKey| != 24 && |inKey| != 32 {
        return -EINVAL;
      }
      keyLength := |inKey|;
      ghost var key := Columns(inKey);
      LoadKey(inKey);
      if |inKey| == 16 {
        Schedule128(key);
      } else if |inKey| == 24 {
        Schedule192(key);
      } else {
        Schedule256(key);
      }
      DecSchedule(keyLength + 24);
      err := 0;
    }

    /** Four words of key_enc are a round key. */
    lemma {:induction false} EncKeyAt(key: seq<Column>, r: nat)
      requires Shaped() && Ready(key) && r < |key| + 7
      ensures 4 * r + 4 <= 60 && Words(keyEnc, 4 * r) == RoundKeys(g, key)[r]
    {
    }

    /** Four words of key_dec are a round key of the Equivalent Inverse Cipher. */
    lemma {:induction false} DecKeyAt(key: seq<Column>, r: nat)
      requires Shaped() && Ready(key) && r < |key| + 7
      ensures 4 * r + 4 <= 60 && Words(keyDec, 4 * r) == DecKeys(g, RoundKeys(g, key))[r]
    {
      DecKeyWord(key, r, 0);
      DecKeyWord(key, r, 1);
      DecKeyWord(key, r, 2);
      DecKeyWord(key, r, 3);
      DecKeyIs(g, key, r);
    }

    lemma {:induction false} DecKeyWord(key: seq<Column>, r: nat, c: nat)
      requires Shaped() && Ready(key) && r < |key| + 7 && c < 4
      ensures 4 * r + c < 60
      ensures Unpack(keyDec[4 * r + c]) ==
                if r == 0 || r == |key| + 6 then KeyWord(g, key, 4 * (|key| + 6 - r) + c)
                else InvMix(g, KeyWord(g, key, 4 * (|key| + 6 - r) + c))
    {
      var n, j := keyLength + 24, 4 * r + c;
      MirrorTwice(n, j);
      assert DecWord(g, keyEnc[..], keyDec[..], n, j);
      assert j / 4 == r && j % 4 == c && Mirror(n, j) == 4 * (|key| + 6 - r) + c;
    }

    lemma {:induction false} EncKeyed(key: seq<Column>)
      requires Shaped() && Ready(key)
      ensures Keyed(keyEnc, RoundKeys(g, key))
    {
      forall r | 0 <= r < |key| + 7
        ensures KeyedAt(keyEnc, RoundKeys(g, key), r)
      {
        EncKeyAt(key, r);
      }
    }

    lemma {:induction false} DecKeyed(key: seq<Column>)
      requires Shaped() && Ready(key)
      ensures Keyed(keyDec, DecKeys(g, RoundKeys(g, key)))
    {
      forall r | 0 <= r < |key| + 7
        ensures KeyedAt(keyDec, DecKeys(g, RoundKeys(g, key)), r)
      {
        DecKeyAt(key, r);
      }
    }

    /** aes_encrypt */
    method Encrypt(input: seq<bv8>, ghost key: seq<Column>) returns (output: seq<bv8>)
      requires Shaped() && Ready(key) && |input| == 16
      ensures output == Encrypted(g, key, input)
    {
      EncKeyed(key);
      output := EncryptBlock(g, keyEnc, keyLength, input, RoundKeys(g, key));
    }

    /** aes_decrypt */
    method Decrypt(input: seq<bv8>, ghost key: seq<Column>) returns (output: seq<bv8>)
      requires Shaped() && Ready(key) && |input| == 16
      ensures output == Decrypted(g, key, input)
    {
      DecKeyed(key);
      output := DecryptBlock(g, keyDec, keyLength, input, DecKeys(g, RoundKeys(g, key)));
    }
  }

  /** Four words of a schedule are a round key. */
  ghost predicate KeyedAt(a: array<bv32>, w: seq<State>, r: nat)
    reads a
  {
    r < |w| && 4 * r + 4 <= a.Length && Words(a, 4 * r) == w[r]
  }

  ghost predicate Keyed(a: array<bv32>, w: seq<State>)
    reads a
  {
    forall r :: 0 <= r < |w| ==> KeyedAt(a, w, r)
  }

  /** Buffer `b` holds the state after `r` full rounds from `s`. */
  ghost predicate After(g: Gf, b: array<bv32>, w: seq<State>, s: State, r: nat)
    requires b.Length == 4 && r < |w|
    reads b
  {
    Words(b, 0) == Forward(g, s, w, r)
  }

  method FullRound(g: Gf, bo: array<bv32>, bi: array<bv32>, key: array<bv32>, kp: nat,
               ghost w: seq<State>, ghost s: State, ghost r: nat)
    requires Field(g) && bo.Length == 4 == bi.Length && bo != bi && bo != key
    requires r + 1 < |w| && KeyedAt(key, w, r + 1) && kp == 4 * r + 4 && After(g, bi, w, s, r)
    modifies bo
    ensures After(g, bo, w, s, r + 1)
  {
    FNRound(g, bo, bi, key, kp);
  }

  /** f_nround(b1, b0, kp), f_nround(b0, b1, kp) */
  method TwoRounds(g: Gf, b0: array<bv32>, b1: array<bv32>, key: array<bv32>, kp: nat,
               ghost w: seq<State>, ghost s: State, ghost r: nat)
    requires Field(g) && b0.Length == 4 == b1.Length && b0 != b1 && b0 != key && b1 != key
    requires Keyed(key, w) && r + 2 < |w| && kp == 4 * r + 4 && After(g, b0, w, s, r)
    modifies b0, b1
    ensures After(g, b0, w, s, r + 2)
  {
    assert KeyedAt(key, w, r + 1) && KeyedAt(key, w, r + 2);
    FullRound(g, b1, b0, key, kp, w, s, r);
    FullRound(g, b0, b1, key, kp + 4, w, s, r + 1);
  }

  method EncryptBlock(g: Gf, key: array<bv32>, keyLength: nat, input: seq<bv8>, ghost w: seq<State>)
    returns (output: seq<bv8>)
    requires Field(g) && Keyed(key, w) && |input| == 16
    requires (keyLength == 16 && |w| == 11) || (keyLength == 24 && |w| == 13) || (keyLength == 32 && |w| == 15)
    ensures output == BlockOf(Cipher(g, StateOf(input), w))
  {
    var b0, b1 := new bv32[4], new bv32[4];
    ghost var s := StateOf(input);
    assert KeyedAt(key, w, 0);
    Start(g, b0, input, key, w);
    var kp := ExtraRounds(g, b0, b1, key, keyLength, w, s);
    ghost var r := |w| - 11;
    EightRounds(g, b0, b1, key, kp, w, s, r);
    output := LastTwo(g, b0, b1, key, kp + 32, w, s, r + 8);
  }

  /** Two rounds more for each step of the key length above 128 bits. */
  method ExtraRounds(g: Gf, b0: array<bv32>, b1: array<bv32>, key: array<bv32>, keyLength: nat,
                 ghost w: seq<State>, ghost s: State) returns (kp: nat)
    requires Field(g) && b0.Length == 4 == b1.Length && b0 != b1 && b0 != key && b1 != key && Keyed(key, w)
    requires (keyLength == 16 && |w| == 11) || (keyLength == 24 && |w| == 13) || (keyLength == 32 && |w| == 15)
    requires After(g, b0, w, s, 0)
    modifies b0, b1
    ensures kp == 4 * (|w| - 11) + 4 && After(g, b0, w, s, |w| - 11)
  {
    kp := 4;
    ghost var r: nat := 0;
    if keyLength > 24 {
      TwoRounds(g, b0, b1, key, kp, w, s, r);
      kp, r := kp + 8, r + 2;
    }
    if keyLength > 16 {
      TwoRounds(g, b0, b1, key, kp, w, s, r);
      kp, r := kp + 8, r + 2;
    }
  }

  /** The eight rounds that every key length has before the last two. */
  method EightRounds(g: Gf, b0: array<bv32>, b1: array<bv32>, key: array<bv32>, kp: nat,
                ghost w: seq<State>, ghost s: State, ghost r: nat)
    requires Field(g) && b0.Length == 4 == b1.Length && b0 != b1 && b0 != key && b1 != key
    requires Keyed(key, w) && r + 8 < |w| && kp == 4 * r + 4 && After(g, b0, w, s, r)
    modifies b0, b1
    ensures After(g, b0, w, s, r + 8)
  {
    TwoRounds(g, b0, b1, key, kp, w, s, r);
    TwoRounds(g, b0, b1, key, kp + 8, w, s, r + 2);
    TwoRounds(g, b0, b1, key, kp + 16, w, s, r + 4);
    TwoRounds(g, b0, b1, key, kp + 24, w, s, r + 6);
  }

  /** f_nround(b1, b0, kp), f_lround(b0, b1, kp), and the result stored. */
  method LastTwo(g: Gf, b0: array<bv32>, b1: array<bv32>, key: array<bv32>, kp: nat,
                ghost w: seq<State>, ghost s: State, ghost r: nat) returns (output: seq<bv8>)
    requires Field(g) && b0.Length == 4 == b1.Length && b0 != b1 && b0 != key && b1 != key
    requires Keyed(key, w) && r + 3 == |w| && kp == 4 * r + 4 && After(g, b0, w, s, r)
    modifies b0, b1
    ensures output == BlockOf(Cipher(g, s, w))
  {
    assert KeyedAt(key, w, r + 1) && KeyedAt(key, w, r + 2);
    FullRound(g, b1, b0, key, kp, w, s, r);
    output := FinalRound(g, b0, b1, key, kp + 4, w, s);
  }

  method FinalRound(g: Gf, b0: array<bv32>, b1: array<bv32>, key: array<bv32>, kp: nat,
                   ghost w: seq<State>, ghost s: State) returns (output: seq<bv8>)
    requires Field(g) && b0.Length == 4 == b1.Length && b0 != b1 && b0 != key
    requires |w| >= 2 && KeyedAt(key, w, |w| - 1) && kp == 4 * (|w| - 1) && After(g, b1, w, s, |w| - 2)
    modifies b0
    ensures output == BlockOf(Cipher(g, s, w))
  {
    FLRound(g, b0, b1, key, kp);
    output := Store(b0);
  }

  method Start(g: Gf, b0: array<bv32>, input: seq<bv8>, key: array<bv32>, ghost w: seq<State>)
    requires Field(g) && b0.Length == 4 && b0 != key && |input| == 16 && KeyedAt(key, w, 0)
    modifies b0
    ensures After(g, b0, w, StateOf(input), 0)
  {
    Whiten(g, b0, input, key);
  }

  /** Buffer `b` holds the state after `r` rounds of the Equivalent Inverse Cipher from `s`. */
  ghost predicate AfterInverse(g: Gf, b: array<bv32>, w: seq<State>, s: State, r: nat)
    requires b.Length == 4 && r < |w|
    reads b
  {
    Words(b, 0) == EqForward(g, s, w, r)
  }

  method FullInverse(g: Gf, bo: array<bv32>, bi: array<bv32>, key: array<bv32>, kp: nat,
               ghost w: seq<State>, ghost s: State, ghost r: nat)
    requires Field(g) && bo.Length == 4 == bi.Length && bo != bi && bo != key
    requires r + 1 < |w| && KeyedAt(key, w, r + 1) && kp == 4 * r + 4 && AfterInverse(g, bi, w, s, r)
    modifies bo
    ensures AfterInverse(g, bo, w, s, r + 1)
  {
    INRound(g, bo, bi, key, kp);
  }

  /** i_nround(b1, b0, kp), i_nround(b0, b1, kp) */
  method TwoInverse(g: Gf, b0: array<bv32>, b1: array<bv32>, key: array<bv32>, kp: nat,
               ghost w: seq<State>, ghost s: State, ghost r: nat)
    requires Field(g) && b0.Length == 4 == b1.Length && b0 != b1 && b0 != key && b1 != key
    requires Keyed(key, w) && r + 2 < |w| && kp == 4 * r + 4 && AfterInverse(g, b0, w, s, r)
    modifies b0, b1
    ensures AfterInverse(g, b0, w, s, r + 2)
  {
    assert KeyedAt(key, w, r + 1) && KeyedAt(key, w, r + 2);
    FullInverse(g, b1, b0, key, kp, w, s, r);
    FullInverse(g, b0, b1, key, kp + 4, w, s, r + 1);
  }

  method DecryptBlock(g: Gf, key: array<bv32>, keyLength: nat, input: seq<bv8>, ghost w: seq<State>)
    returns (output: seq<bv8>)
    requires Field(g) && Keyed(key, w) && |input| == 16
    requires (keyLength == 16 && |w| == 11) || (keyLength == 24 && |w| == 13) || (keyLength == 32 && |w| == 15)
    ensures output == BlockOf(EqInvCipher(g, StateOf(input), w))
  {
    var b0, b1 := new bv32[4], new bv32[4];
    ghost var s := StateOf(input);
    assert KeyedAt(key, w, 0);
    StartInverse(g, b0, input, key, w);
    var kp := ExtraInverse(g, b0, b1, key, keyLength, w, s);
    ghost var r := |w| - 11;
    EightInverse(g, b0, b1, key, kp, w, s, r);
    output := LastInverse(g, b0, b1, key, kp + 32, w, s, r + 8);
  }

  /** Two rounds more for each step of the key length above 128 bits. */
  method ExtraInverse(g: Gf, b0: array<bv32>, b1: array<bv32>, key: array<bv32>, keyLength: nat,
                 ghost w: seq<State>, ghost s: State) returns (kp: nat)
    requires Field(g) && b0.Length == 4 == b1.Length && b0 != b1 && b0 != key && b1 != key && Keyed(key, w)
    requires (keyLength == 16 && |w| == 11) || (keyLength == 24 && |w| == 13) || (keyLength == 32 && |w| == 15)
    requires AfterInverse(g, b0, w, s, 0)
    modifies b0, b1
    ensures kp == 4 * (|w| - 11) + 4 && AfterInverse(g, b0, w, s, |w| - 11)
  {
    kp := 4;
    ghost var r: nat := 0;
    if keyLength > 24 {
      TwoInverse(g, b0, b1, key, kp, w, s, r);
      kp, r := kp + 8, r + 2;
    }
    if keyLength > 16 {
      TwoInverse(g, b0, b1, key, kp, w, s, r);
      kp, r := kp + 8, r + 2;
    }
  }

  /** The eight rounds that every key length has before the last two. */
  method EightInverse(g: Gf, b0: array<bv32>, b1: array<bv32>, key: array<bv32>, kp: nat,
                ghost w: seq<State>, ghost s: State, ghost r: nat)
    requires Field(g) && b0.Length == 4 == b1.Length && b0 != b1 && b0 != key && b1 != key
    requires Keyed(key, w) && r + 8 < |w| && kp == 4 * r + 4 && AfterInverse(g, b0, w, s, r)
    modifies b0, b1
    ensures AfterInverse(g, b0, w, s, r + 8)
  {
    TwoInverse(g, b0, b1, key, kp, w, s, r);
    TwoInverse(g, b0, b1, key, kp + 8, w, s, r + 2);
    TwoInverse(g, b0, b1, key, kp + 16, w, s, r + 4);
    TwoInverse(g, b0, b1, key, kp + 24, w, s, r + 6);
  }

  /** i_nround(b1, b0, kp), i_lround(b0, b1, kp), and the result stored. */
  method LastInverse(g: Gf, b0: array<bv32>, b1: array<bv32>, key: array<bv32>, kp: nat,
                ghost w: seq<State>, ghost s: State, ghost r: nat) returns (output: seq<bv8>)
    requires Field(g) && b0.Length == 4 == b1.Length && b0 != b1 && b0 != key && b1 != key
    requires Keyed(key, w) && r + 3 == |w| && kp == 4 * r + 4 && AfterInverse(g, b0, w, s, r)
    modifies b0, b1
    ensures output == BlockOf(EqInvCipher(g, s, w))
  {
    assert KeyedAt(key, w, r + 1) && KeyedAt(key, w, r + 2);
    FullInverse(g, b1, b0, key, kp, w, s, r);
    output := FinalInverse(g, b0, b1, key, kp + 4, w, s);
  }

  method FinalInverse(g: Gf, b0: array<bv32>, b1: array<bv32>, key: array<bv32>, kp: nat,
                   ghost w: seq<State>, ghost s: State) returns (output: seq<bv8>)
    requires Field(g) && b0.Length == 4 == b1.Length && b0 != b1 && b0 != key
    requires |w| >= 2 && KeyedAt(key, w, |w| - 1) && kp == 4 * (|w| - 1) && AfterInverse(g, b1, w, s, |w| - 2)
    modifies b0
    ensures output == BlockOf(EqInvCipher(g, s, w))
  {
    ILRound(g, b0, b1, key, kp);
    output := Store(b0);
  }

  method StartInverse(g: Gf, b0: array<bv32>, input: seq<bv8>, key: array<bv32>, ghost w: seq<State>)
    requires Field(g) && b0.Length == 4 && b0 != key && |input| == 16 && KeyedAt(key, w, 0)
    modifies b0
    ensures AfterInverse(g, b0, w, StateOf(input), 0)
  {
    Whiten(g, b0, input, key);
  }

  /** The first key addition, from the bytes of a block. */
  method Whiten(g: Gf, b0: array<bv32>, input: seq<bv8>, key: array<bv32>)
    requires Field(g) && b0.Length == 4 <= key.Length && b0 != key && |input| == 16
    modifies b0
    ensures Words(b0, 0) == AddRoundKey(g, StateOf(input), old(Words(key, 0)))
  {
    for i := 0 to 4
      invariant forall k :: 0 <= k < i ==> Unpack(b0[k]) == Xor(g, ColumnAt(input, k), Unpack(key[k]))
    {
      UnpackPack(ColumnAt(input, i));
      UnpackXor(g, Pack(ColumnAt(input, i)), key[i]);
      b0[i] := Xor32(Pack(ColumnAt(input, i)), key[i]);
    }
  }

  /** cpu_to_le32 of the four words. */
  method Store(b0: array<bv32>) returns (output: seq<bv8>)
    requires b0.Length == 4
    ensures output == BlockOf(Words(b0, 0))
  {
    output := ColumnBytes(Unpack(b0[0])) + ColumnBytes(Unpack(b0[1]))
            + ColumnBytes(Unpack(b0[2])) + ColumnBytes(Unpack(b0[3]));
  }

  /** One context, one key: what it encrypts it decrypts. */
  method RoundTrip(c: Context, inKey: seq<bv8>, block: seq<bv8>) returns (err: int, back: seq<bv8>)
    requires c.Shaped() && |block| == 16
    modifies c, c.keyEnc, c.keyDec
    ensures err == 0 <==> |inKey| == 16 || |inKey| == 24 || |inKey| == 32
    ensures err == 0 ==> back == block
  {
    back := [];
    err := c.ExpandKey(inKey);
    if err == 0 {
      var out := c.Encrypt(block, Columns(inKey));
      back := c.Decrypt(out, Columns(inKey));
      DecryptUndoesEncrypt(c.g, Columns(inKey), block);
    }
  }
}
