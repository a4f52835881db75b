/** The cipher and the key schedule said byte by byte, as the equations of FIPS-197 give them. */
module AesStandard {
  import opened AesAlgebra
  import opened AesCipher
  import opened AesWords
  import opened AesKey
  import opened AesContext

  /** Byte `r` of a column, and the byte in row `r` and column `c` of a state. */
  function Byte(k: Column, r: nat): bv8
    requires r < 4
  {
    if r == 0 then k.b0 else if r == 1 then k.b1 else if r == 2 then k.b2 else k.b3
  }

  function Col(s: State, c: nat): Column
    requires c < 4
  {
    if c == 0 then s.c0 else if c == 1 then s.c1 else if c == 2 then s.c2 else s.c3
  }

  function At(s: State, r: nat, c: nat): bv8
    requires r < 4 && c < 4
  {
    Byte(Col(s, c), r)
  }

  /** x^n modulo x^8 + x^4 + x^3 + x + 1 */
  function XPower(n: nat): bv8 { if n == 0 then 1 else XTime(XPower(n - 1)) }

  // ---- bytes of columns ----

  lemma {:induction false} XorByte(g: Gf, a: Column, b: Column, r: nat)
    requires r < 4
    ensures Byte(Xor(g, a, b), r) == g.add(Byte(a, r), Byte(b, r))
  {
  }

  lemma {:induction false} SubByte(g: Gf, a: Column, r: nat)
    requires r < 4
    ensures Byte(Sub(g, a), r) == g.sub(Byte(a, r))
  {
  }

  lemma {:induction false} RotByte(a: Column, r: nat)
    requires r < 4
    ensures Byte(Rot(a), r) == Byte(a, (r + 1) % 4)
  {
  }

  lemma {:induction false} AddZero(g: Gf, a: bv8)
    requires Field(g)
    ensures g.add(a, 0) == a
  {
    assert Sums(g, a, 0);
  }

  lemma {:induction false} RconIs(g: Gf, i: nat)
    requires Field(g) && i >= 1
    ensures RconByte(g, i) == XPower(i - 1)
    decreases i
  {
    if i > 1 {
      RconIs(g, i - 1);
      assert Doubles(g, RconByte(g, i - 1));
    }
  }

  // ---- section 5.2 ----

  /** What byte `j` of word `i` adds to the byte one key length back, `last` being the word before. */
  function Added(g: Gf, nk: nat, i: nat, j: nat, last: Column): bv8
    requires KeySize(nk) && nk <= i && j < 4
  {
    if i % nk == 0 then
      (if j == 0 then g.add(g.sub(Byte(last, 1)), XPower(i / nk - 1)) else g.sub(Byte(last, (j + 1) % 4)))
    else if nk == 8 && i % 8 == 4 then g.sub(Byte(last, j))
    else Byte(last, j)
  }

  lemma {:induction false} TempByte(g: Gf, key: seq<Column>, i: nat, j: nat)
    requires Field(g) && KeySize(|key|) && |key| <= i && j < 4
    ensures Byte(Temp(g, key, i), j) == Added(g, |key|, i, j, KeyWord(g, key, i - 1))
  {
    var t := KeyWord(g, key, i - 1);
    if i % |key| == 0 {
      assert i / |key| >= 1;
      XorByte(g, Sub(g, Rot(t)), Rcon(g, i / |key|), j);
      SubByte(g, Rot(t), j);
      RotByte(t, j);
      RconIs(g, i / |key|);
      AddZero(g, g.sub(Byte(t, (j + 1) % 4)));
    } else {
      SubByte(g, t, j);
    }
  }

  /** Every word of the schedule after the key: at a multiple of the key length the word before it, its bytes rotated by
      one and substituted, with the power of x; in the middle of eight the word before substituted; else that word. */
  lemma {:induction false} ScheduleBytes(g: Gf, key: seq<Column>, i: nat, j: nat)
    requires Field(g) && KeySize(|key|) && |key| <= i && j < 4
    ensures Byte(KeyWord(g, key, i), j) ==
              g.add(Byte(KeyWord(g, key, i - |key|), j), Added(g, |key|, i, j, KeyWord(g, key, i - 1)))
  {
    TempByte(g, key, i, j);
    XorByte(g, KeyWord(g, key, i - |key|), Temp(g, key, i), j);
  }

  /** key_enc after crypto_aes_expand_key: the bytes of the key, and then each byte from the words before it. */
  lemma {:induction false} KeyEncBytes(x: Context, inKey: seq<bv8>, i: nat, j: nat)
    requires x.Shaped() && |inKey| % 4 == 0 && x.Ready(Columns(inKey)) && i < |inKey| + 28 && j < 4
    ensures |inKey| + 28 <= x.keyEnc.Length
    ensures var nk := |inKey| / 4;
            && (i < nk ==> Byte(Unpack(x.keyEnc[i]), j) == inKey[4 * i + j])
            && (i >= nk ==> Byte(Unpack(x.keyEnc[i]), j) ==
                              x.g.add(Byte(Unpack(x.keyEnc[i - nk]), j),
                                      Added(x.g, nk, i, j, Unpack(x.keyEnc[i - 1]))))
  {
    var key := Columns(inKey);
    assert x.Prefix(key, |inKey| + 28);
    if i < |key| {
      assert key[i] == ColumnAt(inKey, i);
    } else {
      ScheduleBytes(x.g, key, i, j);
    }
  }

  // ---- section 5.1 ----

  /** {02} a + {03} b + c + d */
  function Mixed(g: Gf, a: bv8, b: bv8, c: bv8, d: bv8): bv8 {
    g.add(g.add(g.x(a), g.add(g.x(b), b)), g.add(c, d))
  }

  lemma {:induction false} MixedIs(g: Gf, a: bv8, b: bv8, c: bv8, d: bv8)
    requires Field(g)
    ensures M(g, a, b, c, d) == Mixed(g, a, b, c, d)
  {
    Assoc(g, g.add(g.x(a), g.x(b)), b, g.add(c, d));
    Assoc(g, g.x(a), g.x(b), b);
  }

  lemma {:induction false} MixRow(g: Gf, k: Column, r: nat)
    requires r < 4
    ensures Byte(Mix(g, k), r) == M(g, Byte(k, r), Byte(k, (r + 1) % 4), Byte(k, (r + 2) % 4), Byte(k, (r + 3) % 4))
  {
    if r == 0 {
    } else if r == 1 {
    } else {
    }
  }

  lemma {:induction false} MixByte(g: Gf, k: Column, r: nat)
    requires Field(g) && r < 4
    ensures Byte(Mix(g, k), r) ==
              Mixed(g, Byte(k, r), Byte(k, (r + 1) % 4), Byte(k, (r + 2) % 4), Byte(k, (r + 3) % 4))
  {
    MixRow(g, k, r);
    MixedIs(g, Byte(k, r), Byte(k, (r + 1) % 4), Byte(k, (r + 2) % 4), Byte(k, (r + 3) % 4));
  }

  /** ShiftRows rotates row r left by r places. */
  lemma {:induction false} ShiftAt(s: State, r: nat, c: nat)
    requires r < 4 && c < 4
    ensures At(ShiftRows(s), r, c) == At(s, r, (c + r) % 4)
  {
  }

  lemma {:induction false} SubAt(g: Gf, s: State, r: nat, c: nat)
    requires r < 4 && c < 4
    ensures At(SubBytes(g, s), r, c) == g.sub(At(s, r, c))
  {
    SubByte(g, Col(s, c), r);
  }

  lemma {:induction false} KeyAt(g: Gf, s: State, k: State, r: nat, c: nat)
    requires r < 4 && c < 4
    ensures At(AddRoundKey(g, s, k), r, c) == g.add(At(s, r, c), At(k, r, c))
  {
    XorByte(g, Col(s, c), Col(k, c), r);
  }

  /** The byte that comes to row `r` of column `c` before the columns are mixed. */
  function Moved(g: Gf, s: State, r: nat, c: nat): bv8
    requires r < 4 && c < 4
  {
    g.sub(At(s, r, (c + r) % 4))
  }

  lemma {:induction false} MovedIs(g: Gf, s: State, r: nat, c: nat)
    requires r < 4 && c < 4
    ensures At(ShiftRows(SubBytes(g, s)), r, c) == Moved(g, s, r, c)
  {
    ShiftAt(SubBytes(g, s), r, c);
    SubAt(g, s, r, (c + r) % 4);
  }

  /** `t` comes from `s` by a full round with the four key words from word `w` on. */
  ghost predicate FullRound(g: Gf, key: seq<Column>, s: State, w: nat, t: State)
    requires KeySize(|key|)
  {
    forall r, c :: 0 <= r < 4 && 0 <= c < 4 ==> FullAt(g, key, s, w, t, r, c)
  }

  ghost predicate NextState(g: Gf, key: seq<Column>, st: seq<State>, i: nat)
    requires KeySize(|key|) && 0 < i < |st|
  {
    FullRound(g, key, st[i - 1], 4 * i, st[i])
  }

  ghost predicate FullAt(g: Gf, key: seq<Column>, s: State, w: nat, t: State, r: nat, c: nat)
    requires KeySize(|key|) && r < 4 && c < 4
  {
    At(t, r, c) ==
      g.add(Mixed(g, Moved(g, s, r, c), Moved(g, s, (r + 1) % 4, c), Moved(g, s, (r + 2) % 4, c),
                  Moved(g, s, (r + 3) % 4, c)),
            Byte(KeyWord(g, key, w + c), r))
  }

  lemma {:induction false} RoundKeyAt(g: Gf, key: seq<Column>, i: nat, r: nat, c: nat)
    requires KeySize(|key|) && r < 4 && c < 4
    ensures At(RoundKey(g, key, i), r, c) == Byte(KeyWord(g, key, 4 * i + c), r)
  {
  }

  lemma {:induction false} RoundAt(g: Gf, key: seq<Column>, s: State, i: nat, r: nat, c: nat)
    requires Field(g) && KeySize(|key|) && r < 4 && c < 4
    ensures FullAt(g, key, s, 4 * i, Round(g, s, RoundKey(g, key, i)), r, c)
  {
    var m := ShiftRows(SubBytes(g, s));
    KeyAt(g, MixColumns(g, m), RoundKey(g, key, i), r, c);
    RoundKeyAt(g, key, i, r, c);
    MixByte(g, Col(m, c), r);
    assert Col(MixColumns(g, m), c) == Mix(g, Col(m, c));
    MovedIs(g, s, r, c);
    MovedIs(g, s, (r + 1) % 4, c);
    MovedIs(g, s, (r + 2) % 4, c);
    MovedIs(g, s, (r + 3) % 4, c);
  }

  lemma {:induction false} LastRoundAt(g: Gf, key: seq<Column>, s: State, i: nat, r: nat, c: nat)
    requires KeySize(|key|) && r < 4 && c < 4
    ensures At(LastRound(g, s, RoundKey(g, key, i)), r, c) ==
              g.add(Moved(g, s, r, c), Byte(KeyWord(g, key, 4 * i + c), r))
  {
    KeyAt(g, ShiftRows(SubBytes(g, s)), RoundKey(g, key, i), r, c);
    RoundKeyAt(g, key, i, r, c);
    MovedIs(g, s, r, c);
  }

  /** `st` are the states between the rounds of the encryption of `b` to `out`: the first is the block with the first
      four words added, each next one comes by a full round, and the block is the last by a round without the mix. */
  ghost predicate Rounds(g: Gf, key: seq<Column>, b: seq<bv8>, st: seq<State>, out: seq<bv8>)
    requires KeySize(|key|) && |b| == 16 == |out|
  {
    && |st| == |key| + 6
    && First(g, key, b, st[0])
    && (forall i :: 0 < i < |st| ==> NextState(g, key, st, i))
    && Last(g, key, st[|st| - 1], out)
  }

  ghost predicate First(g: Gf, key: seq<Column>, b: seq<bv8>, s: State)
    requires KeySize(|key|) && |b| == 16
  {
    forall r, c :: 0 <= r < 4 && 0 <= c < 4 ==> FirstAt(g, key, b, s, r, c)
  }

  ghost predicate Last(g: Gf, key: seq<Column>, s: State, out: seq<bv8>)
    requires KeySize(|key|) && |out| == 16
  {
    forall r, c :: 0 <= r < 4 && 0 <= c < 4 ==> LastAt(g, key, s, out, r, c)
  }

  ghost predicate FirstAt(g: Gf, key: seq<Column>, b: seq<bv8>, s: State, r: nat, c: nat)
    requires KeySize(|key|) && |b| == 16 && r < 4 && c < 4
  {
    At(s, r, c) == g.add(b[4 * c + r], Byte(KeyWord(g, key, c), r))
  }

  ghost predicate LastAt(g: Gf, key: seq<Column>, s: State, out: seq<bv8>, r: nat, c: nat)
    requires KeySize(|key|) && |out| == 16 && r < 4 && c < 4
  {
    out[4 * c + r] == g.add(Moved(g, s, r, c), Byte(KeyWord(g, key, 4 * (|key| + 6) + c), r))
  }

  lemma {:induction false} StateAt(b: seq<bv8>, r: nat, c: nat)
    requires |b| == 16 && r < 4 && c < 4
    ensures At(StateOf(b), r, c) == b[4 * c + r]
  {
    assert Col(StateOf(b), c) == ColumnAt(b, c);
    if r == 0 {
    } else if r == 1 {
    } else {
    }
  }

  lemma {:induction false} BlockAt(s: State, r: nat, c: nat)
    requires r < 4 && c < 4
    ensures BlockOf(s)[4 * c + r] == At(s, r, c)
  {
    StateAt(BlockOf(s), r, c);
    StateOfBlock(s);
  }

  lemma {:induction false} FirstIs(g: Gf, key: seq<Column>, b: seq<bv8>)
    requires KeySize(|key|) && |b| == 16
    ensures First(g, key, b, Forward(g, StateOf(b), RoundKeys(g, key), 0))
  {
    var s := Forward(g, StateOf(b), RoundKeys(g, key), 0);
    forall r, c | 0 <= r < 4 && 0 <= c < 4
      ensures FirstAt(g, key, b, s, r, c)
    {
      KeyAt(g, StateOf(b), RoundKey(g, key, 0), r, c);
      RoundKeyAt(g, key, 0, r, c);
      StateAt(b, r, c);
    }
  }

  lemma {:induction false} LastIs(g: Gf, key: seq<Column>, s: State)
    requires KeySize(|key|)
    ensures Last(g, key, s, BlockOf(LastRound(g, s, RoundKey(g, key, |key| + 6))))
  {
    var t := LastRound(g, s, RoundKey(g, key, |key| + 6));
    forall r, c | 0 <= r < 4 && 0 <= c < 4
      ensures LastAt(g, key, s, BlockOf(t), r, c)
    {
      LastRoundAt(g, key, s, |key| + 6, r, c);
      BlockAt(t, r, c);
    }
  }

  lemma {:induction false} RoundIsFull(g: Gf, key: seq<Column>, s: State, i: nat)
    requires Field(g) && KeySize(|key|)
    ensures FullRound(g, key, s, 4 * i, Round(g, s, RoundKey(g, key, i)))
  {
    forall r, c | 0 <= r < 4 && 0 <= c < 4
      ensures FullAt(g, key, s, 4 * i, Round(g, s, RoundKey(g, key, i)), r, c)
    {
      RoundAt(g, key, s, i, r, c);
    }
  }

  /** Encryption under a key of the three sizes is that of the standard, byte by byte: 10, 12 or 14 rounds. */
  lemma {:induction false} EncryptsByBytes(g: Gf, key: seq<Column>, b: seq<bv8>) returns (st: seq<State>)
    requires Field(g) && KeySize(|key|) && |b| == 16
    ensures Rounds(g, key, b, st, Encrypted(g, key, b))
  {
    var s, w := StateOf(b), RoundKeys(g, key);
    st := seq(|key| + 6, i requires 0 <= i < |key| + 6 => Forward(g, s, w, i));
    FirstIs(g, key, b);
    forall i | 0 < i < |st|
      ensures NextState(g, key, st, i)
    {
      RoundIsFull(g, key, st[i - 1], i);
      assert st[i] == Round(g, st[i - 1], RoundKey(g, key, i));
    }
    assert Encrypted(g, key, b) == BlockOf(LastRound(g, st[|key| + 5], RoundKey(g, key, |key| + 6)));
    LastIs(g, key, st[|key| + 5]);
  }

  // ---- values of the appendices ----

  /** Appendix A.1: the first word after the key 2b7e1516 28aed2a6 abf71588 09cf4f3c. */
  lemma {:induction false} ExampleWord(g: Gf, key: seq<Column>)
    requires Field(g) && |key| == 4
    requires key[0] == Column(0x2b, 0x7e, 0x15, 0x16) && key[3] == Column(0x09, 0xcf, 0x4f, 0x3c)
    requires g.sub(0xcf) == 0x8a && g.sub(0x4f) == 0x84 && g.sub(0x3c) == 0xeb && g.sub(0x09) == 0x01
    ensures KeyWord(g, key, 4) == Column(0xa0, 0xfa, 0xfe, 0x17)
  {
    ScheduleBytes(g, key, 4, 0);
    ScheduleBytes(g, key, 4, 1);
    ScheduleBytes(g, key, 4, 2);
    ScheduleBytes(g, key, 4, 3);
    Add(g, 0x8a, 0x01);
    Add(g, 0x2b, 0x8b);
    Add(g, 0x7e, 0x84);
    Add(g, 0x15, 0xeb);
    Add(g, 0x16, 0x01);
  }

  lemma {:induction false} Add(g: Gf, a: bv8, b: bv8)
    requires Field(g)
    ensures g.add(a, b) == a ^ b
  {
    assert Sums(g, a, b);
  }

  lemma {:induction false} Double(g: Gf, a: bv8)
    requires Field(g)
    ensures g.x(a) == XTime(a)
  {
    assert Doubles(g, a);
  }

  /** Appendix B, round 1: the first column d4bf5d30 is mixed to 046681e5. */
  lemma {:induction false} ExampleMix(g: Gf)
    requires Field(g)
    ensures Mix(g, Column(0xd4, 0xbf, 0x5d, 0x30)) == Column(0x04, 0x66, 0x81, 0xe5)
  {
    assert g.x(0xd4) == 0xb3 && g.x(0xbf) == 0x65 && g.x(0x5d) == 0xba && g.x(0x30) == 0x60 by {
      Double(g, 0xd4);
      Double(g, 0xbf);
      Double(g, 0x5d);
      Double(g, 0x30);
    }
    assert M(g, 0xd4, 0xbf, 0x5d, 0x30) == 0x04 by {
      Add(g, 0xb3, 0x65);
      Add(g, 0x5d, 0x30);
      Add(g, 0xbf, 0x6d);
      Add(g, 0xd6, 0xd2);
    }
    assert M(g, 0xbf, 0x5d, 0x30, 0xd4) == 0x66 by {
      Add(g, 0x65, 0xba);
      Add(g, 0x30, 0xd4);
      Add(g, 0x5d, 0xe4);
      Add(g, 0xdf, 0xb9);
    }
    assert M(g, 0x5d, 0x30, 0xd4, 0xbf) == 0x81 by {
      Add(g, 0xba, 0x60);
      Add(g, 0xd4, 0xbf);
      Add(g, 0x30, 0x6b);
      Add(g, 0xda, 0x5b);
    }
    assert M(g, 0x30, 0xd4, 0xbf, 0x5d) == 0xe5 by {
      Add(g, 0x60, 0xb3);
      Add(g, 0xbf, 0x5d);
      Add(g, 0xd4, 0xe2);
      Add(g, 0xd3, 0x36);
    }
  }
}
