/** The cipher of FIPS-197 on columns of bytes, its inverse, and the Equivalent Inverse Cipher. */
module AesCipher {
  import opened AesAlgebra

  datatype State = State(c0: Column, c1: Column, c2: Column, c3: Column)

  function AddRoundKey(g: Gf, s: State, k: State): State {
    State(Xor(g, s.c0, k.c0), Xor(g, s.c1, k.c1), Xor(g, s.c2, k.c2), Xor(g, s.c3, k.c3))
  }

  function SubBytes(g: Gf, s: State): State { State(Sub(g, s.c0), Sub(g, s.c1), Sub(g, s.c2), Sub(g, s.c3)) }

  function InvSubBytes(g: Gf, s: State): State {
    State(InvSub(g, s.c0), InvSub(g, s.c1), InvSub(g, s.c2), InvSub(g, s.c3))
  }

  /** Row r is rotated left by r places. */
  function ShiftRows(s: State): State {
    State(Column(s.c0.b0, s.c1.b1, s.c2.b2, s.c3.b3), Column(s.c1.b0, s.c2.b1, s.c3.b2, s.c0.b3),
          Column(s.c2.b0, s.c3.b1, s.c0.b2, s.c1.b3), Column(s.c3.b0, s.c0.b1, s.c1.b2, s.c2.b3))
  }

  /** Row r is rotated right by r places. */
  function InvShiftRows(s: State): State {
    State(Column(s.c0.b0, s.c3.b1, s.c2.b2, s.c1.b3), Column(s.c1.b0, s.c0.b1, s.c3.b2, s.c2.b3),
          Column(s.c2.b0, s.c1.b1, s.c0.b2, s.c3.b3), Column(s.c3.b0, s.c2.b1, s.c1.b2, s.c0.b3))
  }

  function MixColumns(g: Gf, s: State): State { State(Mix(g, s.c0), Mix(g, s.c1), Mix(g, s.c2), Mix(g, s.c3)) }

  function InvMixColumns(g: Gf, s: State): State {
    State(InvMix(g, s.c0), InvMix(g, s.c1), InvMix(g, s.c2), InvMix(g, s.c3))
  }

  // ---- section 5.1 ----

  function Round(g: Gf, s: State, k: State): State { AddRoundKey(g, MixColumns(g, ShiftRows(SubBytes(g, s))), k) }

  function LastRound(g: Gf, s: State, k: State): State { AddRoundKey(g, ShiftRows(SubBytes(g, s)), k) }

  /** The state after `r` full rounds with the round keys `w`. */
  function Forward(g: Gf, s: State, w: seq<State>, r: nat): State
    requires r < |w|
  {
    if r == 0 then AddRoundKey(g, s, w[0]) else Round(g, Forward(g, s, w, r - 1), w[r])
  }

  /** Cipher with |w| - 1 rounds. */
  function Cipher(g: Gf, s: State, w: seq<State>): State
    requires |w| >= 2
  {
    LastRound(g, Forward(g, s, w, |w| - 2), w[|w| - 1])
  }

  // ---- section 5.3 ----

  function Backward(g: Gf, s: State, w: seq<State>, r: nat): State
    requires r < |w|
  {
    if r == 0 then AddRoundKey(g, s, w[|w| - 1])
    else InvMixColumns(g, AddRoundKey(g, InvSubBytes(g, InvShiftRows(Backward(g, s, w, r - 1))), w[|w| - 1 - r]))
  }

  function InvCipher(g: Gf, s: State, w: seq<State>): State
    requires |w| >= 2
  {
    AddRoundKey(g, InvSubBytes(g, InvShiftRows(Backward(g, s, w, |w| - 2))), w[0])
  }

  // ---- section 5.3.5 ----

  function EqRound(g: Gf, s: State, k: State): State {
    AddRoundKey(g, InvMixColumns(g, InvShiftRows(InvSubBytes(g, s))), k)
  }

  function EqLastRound(g: Gf, s: State, k: State): State { AddRoundKey(g, InvShiftRows(InvSubBytes(g, s)), k) }

  function EqForward(g: Gf, s: State, dw: seq<State>, r: nat): State
    requires r < |dw|
  {
    if r == 0 then AddRoundKey(g, s, dw[0]) else EqRound(g, EqForward(g, s, dw, r - 1), dw[r])
  }

  function EqInvCipher(g: Gf, s: State, dw: seq<State>): State
    requires |dw| >= 2
  {
    EqLastRound(g, EqForward(g, s, dw, |dw| - 2), dw[|dw| - 1])
  }

  function DecKey(g: Gf, w: seq<State>, i: nat): State
    requires i < |w|
  {
    if i == 0 || i == |w| - 1 then w[|w| - 1 - i] else InvMixColumns(g, w[|w| - 1 - i])
  }

  /** The round keys reversed, all but the outer two inverse-mixed. */
  function DecKeys(g: Gf, w: seq<State>): (dw: seq<State>)
    ensures |dw| == |w|
    ensures forall i :: 0 <= i < |w| ==> dw[i] == DecKey(g, w, i)
  {
    seq(|w|, i requires 0 <= i < |w| => DecKey(g, w, i))
  }

  // ---- each step is undone ----

  lemma {:induction false} UndoKey(g: Gf, s: State, k: State)
    requires Field(g)
    ensures AddRoundKey(g, AddRoundKey(g, s, k), k) == s
  {
    XorTwice(g, s.c0, k.c0);
    XorTwice(g, s.c1, k.c1);
    XorTwice(g, s.c2, k.c2);
    XorTwice(g, s.c3, k.c3);
  }

  lemma {:induction false} UndoMix(g: Gf, s: State)
    requires Field(g)
    ensures InvMixColumns(g, MixColumns(g, s)) == s
  {
    InvMixMix(g, s.c0);
    InvMixMix(g, s.c1);
    InvMixMix(g, s.c2);
    InvMixMix(g, s.c3);
  }

  lemma {:induction false} UndoSub(g: Gf, s: State)
    requires Field(g)
    ensures InvSubBytes(g, InvShiftRows(ShiftRows(SubBytes(g, s)))) == s
  {
    InvSubSub(g, s.c0);
    InvSubSub(g, s.c1);
    InvSubSub(g, s.c2);
    InvSubSub(g, s.c3);
    UndoShift(SubBytes(g, s));
  }

  lemma {:induction false} UndoShift(s: State)
    ensures InvShiftRows(ShiftRows(s)) == s
  {
  }

  lemma {:induction false} SubShiftCommute(g: Gf, s: State)
    ensures InvShiftRows(InvSubBytes(g, s)) == InvSubBytes(g, InvShiftRows(s))
  {
  }

  lemma {:induction false} InvMixAddsKey(g: Gf, s: State, k: State)
    requires Field(g)
    ensures InvMixColumns(g, AddRoundKey(g, s, k)) == AddRoundKey(g, InvMixColumns(g, s), InvMixColumns(g, k))
  {
    InvMixXor(g, s.c0, k.c0);
    InvMixXor(g, s.c1, k.c1);
    InvMixXor(g, s.c2, k.c2);
    InvMixXor(g, s.c3, k.c3);
  }

  // ---- the inverse cipher ----

  /** After r inverse rounds stands what the cipher had before its last r mixes. */
  lemma {:induction false} BackwardMeets(g: Gf, s: State, w: seq<State>, r: nat)
    requires Field(g) && |w| >= 2 && r <= |w| - 2
    ensures Backward(g, Cipher(g, s, w), w, r) == ShiftRows(SubBytes(g, Forward(g, s, w, |w| - 2 - r)))
    decreases r
  {
    var f := Forward(g, s, w, |w| - 2 - r);
    var inner := ShiftRows(SubBytes(g, f));
    if r == 0 {
      UndoKey(g, inner, w[|w| - 1]);
    } else {
      BackwardMeets(g, s, w, r - 1);
      var f' := Forward(g, s, w, |w| - 1 - r);
      assert f' == AddRoundKey(g, MixColumns(g, inner), w[|w| - 1 - r]);
      UndoSub(g, f');
      UndoKey(g, MixColumns(g, inner), w[|w| - 1 - r]);
      UndoMix(g, inner);
    }
  }

  lemma {:induction false} InvCipherUndoes(g: Gf, s: State, w: seq<State>)
    requires Field(g) && |w| >= 2
    ensures InvCipher(g, Cipher(g, s, w), w) == s
  {
    BackwardMeets(g, s, w, |w| - 2);
    UndoSub(g, Forward(g, s, w, 0));
    UndoKey(g, s, w[0]);
  }

  // ---- the equivalent inverse cipher ----

  lemma {:induction false} EqRoundMeets(g: Gf, s: State, k: State)
    requires Field(g)
    ensures EqRound(g, s, InvMixColumns(g, k))
         == InvMixColumns(g, AddRoundKey(g, InvSubBytes(g, InvShiftRows(s)), k))
  {
    SubShiftCommute(g, s);
    InvMixAddsKey(g, InvSubBytes(g, InvShiftRows(s)), k);
  }

  ghost predicate KeyAt(g: Gf, w: seq<State>, dw: seq<State>, i: nat) {
    i < |w| == |dw| && dw[i] == DecKey(g, w, i)
  }

  ghost predicate Meets(g: Gf, s: State, w: seq<State>, dw: seq<State>, r: nat)
    requires r < |w| == |dw|
  {
    EqForward(g, s, dw, r) == Backward(g, s, w, r)
  }

  lemma {:induction false} EqForwardStart(g: Gf, s: State, w: seq<State>, dw: seq<State>)
    requires |w| >= 2 && KeyAt(g, w, dw, 0)
    ensures Meets(g, s, w, dw, 0)
  {
    assert dw[0] == w[|w| - 1];
  }

  lemma {:induction false} EqForwardStep(g: Gf, s: State, w: seq<State>, dw: seq<State>, r: nat)
    requires Field(g) && |w| >= 2 && 0 < r <= |w| - 2 && KeyAt(g, w, dw, r)
    requires Meets(g, s, w, dw, r - 1)
    ensures Meets(g, s, w, dw, r)
  {
    EqRoundMeets(g, Backward(g, s, w, r - 1), w[|w| - 1 - r]);
  }

  lemma {:induction false} EqForwardMeets(g: Gf, s: State, w: seq<State>, dw: seq<State>, r: nat)
    requires Field(g) && |w| >= 2 && r <= |w| - 2 && |dw| == |w|
    requires forall i :: 0 <= i < |w| ==> KeyAt(g, w, dw, i)
    ensures Meets(g, s, w, dw, r)
    decreases r
  {
    if r == 0 {
      EqForwardStart(g, s, w, dw);
    } else {
      EqForwardMeets(g, s, w, dw, r - 1);
      EqForwardStep(g, s, w, dw, r);
    }
  }

  /** With the reversed, inverse-mixed keys the Equivalent Inverse Cipher is the inverse cipher. */
  lemma {:induction false} EqIsInvCipher(g: Gf, s: State, w: seq<State>)
    requires Field(g) && |w| >= 2
    ensures EqInvCipher(g, s, DecKeys(g, w)) == InvCipher(g, s, w)
  {
    EqForwardMeets(g, s, w, DecKeys(g, w), |w| - 2);
    SubShiftCommute(g, Backward(g, s, w, |w| - 2));
  }

  /** Decryption undoes encryption, for every number of rounds and all round keys. */
  lemma {:induction false} EqInvCipherUndoes(g: Gf, s: State, w: seq<State>)
    requires Field(g) && |w| >= 2
    ensures EqInvCipher(g, Cipher(g, s, w), DecKeys(g, w)) == s
  {
    EqIsInvCipher(g, Cipher(g, s, w), w);
    InvCipherUndoes(g, s, w);
  }
}
