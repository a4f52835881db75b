/** blk_update_request and req_bio_endio of block/blk-core.c: completing a request bit by bit. */
module PartialCompletion {
  import opened Segments
  import opened SegmentRequests

  /** A bio of a request: bi_io_vec, bi_idx, bi_size, bi_sector. */
  datatype Chunk = Chunk(id: nat, vecs: seq<Vec>, idx: nat, size: nat, sector: nat)

  /** The length of `k` vectors beginning with number `from`. */
  function VecsLen(vecs: seq<Vec>, from: nat, k: nat): nat
    requires from + k <= |vecs|
  {
    if k == 0 then 0 else VecsLen(vecs, from, k - 1) + vecs[from + k - 1].len
  }

  /** The length of the first `p` bios. */
  function BiosLen(bios: seq<Chunk>, p: nat): nat
    requires p <= |bios|
  {
    if p == 0 then 0 else BiosLen(bios, p - 1) + bios[p - 1].size
  }

  predicate WellFormed(b: Chunk) {
    b.idx <= |b.vecs| && b.size > 0 && b.size == VecsLen(b.vecs, b.idx, |b.vecs| - b.idx)
  }

  predicate AllWellFormed(bios: seq<Chunk>) { forall i :: 0 <= i < |bios| ==> WellFormed(bios[i]) }

  /** The addresses a bio, or a chain of them, has still to transfer. */
  ghost function ChunkBytes(b: Chunk): seq<nat>
    requires b.idx <= |b.vecs|
  {
    VecBytes(b.vecs[b.idx..])
  }

  ghost function AllBytes(bios: seq<Chunk>): seq<nat>
    requires AllWellFormed(bios)
  {
    if bios == [] then [] else ChunkBytes(bios[0]) + AllBytes(bios[1..])
  }

  // ---- lengths ----

  lemma {:induction false} VecsLenMono(vecs: seq<Vec>, from: nat, k: nat, k': nat)
    requires k <= k' && from + k' <= |vecs|
    ensures VecsLen(vecs, from, k) <= VecsLen(vecs, from, k')
    decreases k'
  {
    if k < k' {
      VecsLenMono(vecs, from, k, k' - 1);
    }
  }

  /** As long as bytes are missing from the total, there is a vector left. */
  lemma {:induction false} VectorLeft(b: Chunk, k: nat)
    requires WellFormed(b) && b.idx + k <= |b.vecs| && VecsLen(b.vecs, b.idx, k) < b.size
    ensures b.idx + k < |b.vecs| && VecsLen(b.vecs, b.idx, k + 1) <= b.size
  {
    VecsLenMono(b.vecs, b.idx, k + 1, |b.vecs| - b.idx);
  }

  lemma {:induction false} BiosLenMono(bios: seq<Chunk>, p: nat, p': nat)
    requires p <= p' <= |bios|
    ensures BiosLen(bios, p) <= BiosLen(bios, p')
    decreases p'
  {
    if p < p' {
      BiosLenMono(bios, p, p' - 1);
    }
  }

  // ---- bytes ----

  lemma {:induction false} VecBytesFrom(vecs: seq<Vec>, from: nat, k: nat)
    requires from + k <= |vecs|
    ensures VecsLen(vecs, from, k) <= |VecBytes(vecs[from..])|
    ensures VecBytes(vecs[from..])[VecsLen(vecs, from, k)..] == VecBytes(vecs[from + k..])
  {
    if k != 0 {
      VecBytesFrom(vecs, from, k - 1);
      var rest := vecs[from + k - 1..];
      assert rest[1..] == vecs[from + k..] && rest[0] == vecs[from + k - 1];
      PeelFront(VecBytes(vecs[from..]), VecsLen(vecs, from, k - 1), Range(rest[0].addr, rest[0].len),
              VecBytes(rest[1..]));
    }
  }

  lemma {:induction false} PeelFront(all: seq<nat>, n: nat, a: seq<nat>, b: seq<nat>)
    requires n <= |all| && all[n..] == a + b
    ensures n + |a| <= |all| && all[n + |a|..] == b
  {
    assert all[n..][|a|..] == all[n + |a|..];
  }

  lemma {:induction false} ChunkLength(b: Chunk)
    requires WellFormed(b)
    ensures |ChunkBytes(b)| == b.size
  {
    VecBytesFrom(b.vecs, b.idx, |b.vecs| - b.idx);
    assert b.vecs[|b.vecs|..] == [];
  }

  lemma {:induction false} AllBytesFrom(bios: seq<Chunk>, p: nat)
    requires AllWellFormed(bios) && p <= |bios|
    ensures BiosLen(bios, p) <= |AllBytes(bios)|
    ensures AllBytes(bios)[BiosLen(bios, p)..] == AllBytes(bios[p..])
  {
    if p == 0 {
      assert bios[0..] == bios;
    } else {
      AllBytesFrom(bios, p - 1);
      var rest := bios[p - 1..];
      assert rest[1..] == bios[p..] && rest[0] == bios[p - 1];
      ChunkLength(rest[0]);
      PeelFront(AllBytes(bios), BiosLen(bios, p - 1), ChunkBytes(rest[0]), AllBytes(rest[1..]));
    }
  }

  lemma {:induction false} AllBytesLength(bios: seq<Chunk>)
    requires AllWellFormed(bios)
    ensures |AllBytes(bios)| == BiosLen(bios, |bios|)
  {
    AllBytesFrom(bios, |bios|);
    assert bios[|bios|..] == [];
  }

  /** What blk_update_request leaves of a bio of which `k` vectors and `off` bytes of the next are
      done, `done` bytes in all. */
  function Advanced(b: Chunk, k: nat, done: nat, off: nat): Chunk
    requires b.idx + k < |b.vecs| && off <= b.vecs[b.idx + k].len && done <= b.size
  {
    var v := b.vecs[b.idx + k];
    b.(idx := b.idx + k, size := b.size - done, sector := b.sector + done / 512,
       vecs := b.vecs[b.idx + k := v.(addr := v.addr + off, len := v.len - off)])
  }

  lemma {:induction false} AdvancedLen(b: Chunk, k: nat, off: nat, v: seq<Vec>, m: nat)
    requires b.idx + k < |b.vecs| && off <= b.vecs[b.idx + k].len && b.idx + k + m <= |b.vecs|
    requires v == b.vecs[b.idx + k := b.vecs[b.idx + k].(addr := b.vecs[b.idx + k].addr + off,
            len := b.vecs[b.idx + k].len - off)]
    ensures VecsLen(b.vecs, b.idx, k + m) == VecsLen(b.vecs, b.idx, k) + VecsLen(v, b.idx + k, m)
        + if m == 0 then 0 else off
  {
    if m != 0 {
      AdvancedLen(b, k, off, v, m - 1);
    }
  }

  lemma {:induction false} AdvancedOk(b: Chunk, k: nat, off: nat)
    requires WellFormed(b) && b.idx + k < |b.vecs| && off <= b.vecs[b.idx + k].len
    requires VecsLen(b.vecs, b.idx, k) + off < b.size
    ensures WellFormed(Advanced(b, k, VecsLen(b.vecs, b.idx, k) + off, off))
  {
    var a := Advanced(b, k, VecsLen(b.vecs, b.idx, k) + off, off);
    AdvancedLen(b, k, off, a.vecs, |b.vecs| - a.idx);
  }

  /** Cutting `off` bytes off the first of some vectors. */
  lemma {:induction false} CutFirst(rest: seq<Vec>, cut: seq<Vec>, off: nat)
    requires rest != [] && off <= rest[0].len && |cut| == |rest| && cut[1..] == rest[1..]
    requires cut[0] == rest[0].(addr := rest[0].addr + off, len := rest[0].len - off)
    ensures VecBytes(rest) == Range(rest[0].addr, off) + VecBytes(cut)
  {
    RangeSplit(rest[0].addr, off, rest[0].len - off);
    Regroup(Range(rest[0].addr, off), Range(cut[0].addr, cut[0].len), [], VecBytes(rest[1..]));
  }

  lemma {:induction false} AdvancedBytes(b: Chunk, k: nat, off: nat)
    requires WellFormed(b) && b.idx + k < |b.vecs| && off <= b.vecs[b.idx + k].len
    requires VecsLen(b.vecs, b.idx, k) + off < b.size
    ensures var a := Advanced(b, k, VecsLen(b.vecs, b.idx, k) + off, off);
            && VecsLen(b.vecs, b.idx, k) + off <= |ChunkBytes(b)|
            && ChunkBytes(a) == ChunkBytes(b)[VecsLen(b.vecs, b.idx, k) + off..]
  {
    var a := Advanced(b, k, VecsLen(b.vecs, b.idx, k) + off, off);
    VecBytesFrom(b.vecs, b.idx, k);
    var rest, cut := b.vecs[a.idx..], a.vecs[a.idx..];
    assert cut[1..] == rest[1..];
    CutFirst(rest, cut, off);
    PeelFront(ChunkBytes(b), VecsLen(b.vecs, b.idx, k), Range(rest[0].addr, off), VecBytes(cut));
  }

  lemma {:induction false} DropWithin(all: seq<nat>, n: nat, a: seq<nat>, b: seq<nat>, done: nat)
    requires n <= |all| && all[n..] == a + b && done <= |a|
    ensures n + done <= |all| && all[n + done..] == a[done..] + b
  {
    assert all[n..][done..] == all[n + done..];
    assert (a + b)[done..] == a[done..] + b;
  }

  /** A chain whose bio `p` has lost its first `done` bytes, and what stood before it. */
  lemma {:induction false} ChainFrom(bios: seq<Chunk>, p: nat, b: Chunk, done: nat, rest: seq<Chunk>)
    requires AllWellFormed(bios) && p < |bios| && WellFormed(b) && done < bios[p].size
    requires done <= |ChunkBytes(bios[p])| && ChunkBytes(b) == ChunkBytes(bios[p])[done..]
    requires rest == [b] + bios[p + 1..]
    ensures AllWellFormed(rest)
    ensures var n := BiosLen(bios, p) + done;
            n < |AllBytes(bios)| && AllBytes(rest) == AllBytes(bios)[n..] && b.size <= |AllBytes(bios)| - n
  {
    AllBytesFrom(bios, p);
    var was := bios[p..];
    assert was[0] == bios[p] && was[1..] == bios[p + 1..] && rest[1..] == bios[p + 1..];
    ChunkLength(b);
    DropWithin(AllBytes(bios), BiosLen(bios, p), ChunkBytes(bios[p]), AllBytes(bios[p + 1..]), done);
  }

  /** The chain after the bio in front has been cut where the completion stopped. */
  lemma {:induction false} CutChain(bios: seq<Chunk>, p: nat, k: nat, off: nat, rest: seq<Chunk>)
    requires AllWellFormed(bios) && p < |bios| && bios[p].idx + k < |bios[p].vecs|
    requires off <= bios[p].vecs[bios[p].idx + k].len && VecsLen(bios[p].vecs, bios[p].idx, k) + off < bios[p].size
    requires var done := VecsLen(bios[p].vecs, bios[p].idx, k) + off;
             rest == [if done == 0 then bios[p] else Advanced(bios[p], k, done, off)] + bios[p + 1..]
    ensures AllWellFormed(rest)
    ensures var n := BiosLen(bios, p) + VecsLen(bios[p].vecs, bios[p].idx, k) + off;
            n < |AllBytes(bios)| && AllBytes(rest) == AllBytes(bios)[n..] && rest[0].size <= |AllBytes(bios)| - n
  {
    var done := VecsLen(bios[p].vecs, bios[p].idx, k) + off;
    AdvancedOk(bios[p], k, off);
    AdvancedBytes(bios[p], k, off);
    ChainFrom(bios, p, rest[0], done, rest);
  }

  // ---- the loop ----

  /** The loop of blk_update_request: `p` bios are finished whole, and of the bio in front of the
      rest the first `k` vectors, `done` bytes, and `left` bytes of the next. */
  method Consume(bios: seq<Chunk>, n: nat) returns (p: nat, total: nat, k: nat, done: nat, left: nat)
    requires AllWellFormed(bios)
    ensures p <= |bios|
    ensures p == |bios| ==> n >= BiosLen(bios, p)
    ensures p < |bios| ==> var b := bios[p];
      && b.idx + k < |b.vecs| && done == VecsLen(b.vecs, b.idx, k) && left <= b.vecs[b.idx + k].len
      && done + left < b.size && total == n == BiosLen(bios, p) + done + left
  {
    var nr: nat := n;
    p, total, k, done, left := 0, 0, 0, 0, 0;
    while p < |bios|
      invariant p <= |bios| && total + nr == n && total == BiosLen(bios, p) + done
      invariant p < |bios| ==> bios[p].idx + k <= |bios[p].vecs| && done == VecsLen(bios[p].vecs, bios[p].idx, k)
      invariant p < |bios| && k > 0 ==> nr + done < bios[p].size
      invariant k == 0 || p == |bios| ==> done == 0
      decreases |bios| - p, if p == |bios| then 0 else |bios[p].vecs| - bios[p].idx - k
    {
      var b := bios[p];
      var nbytes: nat;
      if nr >= b.size {
        nbytes := b.size;
        p, k, done := p + 1, 0, 0;
      } else {
        VectorLeft(b, k);                            // "bio idx >= vcnt" cannot happen
        nbytes := b.vecs[b.idx + k].len;
        assert nbytes <= b.size;                     // BIO_BUG_ON(nbytes > bio->bi_size)
        if nbytes > nr {
          left, total := nr, total + nr;
          return;
        }
        k := k + 1;
        done := done + nbytes;
      }
      total := total + nbytes;
      nr := nr - nbytes;
      if p < |bios| && nr <= 0 {
        VectorLeft(bios[p], k);
        return;
      }
    }
  }

  // ---- the request ----

  /** The data and the start sector a request stands for. */
  datatype View = View(bytes: seq<nat>, sector: nat)

  /** Completing `n` bytes means dropping them from the front. */
  function Complete(v: View, n: nat): View {
    if n >= |v.bytes| then View([], v.sector) else View(v.bytes[n..], v.sector + n / 512)
  }

  /** Completing in two steps leaves the data of completing at once. */
  lemma {:induction false} CompleteTwiceData(v: View, a: nat, b: nat)
    ensures Complete(Complete(v, a), b).bytes == Complete(v, a + b).bytes
  {
    if a < |v.bytes| && a + b < |v.bytes| {
      assert v.bytes[a..][b..] == v.bytes[a + b..];
    }
  }

  /** The sector follows exactly when the two steps do not share a sector that neither finishes. */
  lemma {:induction false} CompleteTwiceSector(v: View, a: nat, b: nat)
    requires a + b < |v.bytes|
    ensures Complete(Complete(v, a), b).sector == Complete(v, a + b).sector <==> a % 512 + b % 512 < 512
  {
    assert v.bytes[a..][b..] == v.bytes[a + b..];
    var x, y := a / 512, b / 512;
    assert a + b == (x + y) * 512 + (a % 512 + b % 512);
  }

  /** `b` is what is left of bio `p` after `n` bytes of the chain, with its start moved by the whole sectors done. */
  ghost predicate Begun(bios: seq<Chunk>, p: nat, n: nat, b: Chunk)
    requires p <= |bios|
  {
    && p < |bios| && BiosLen(bios, p) <= n
    && b.id == bios[p].id && b.sector == bios[p].sector + (n - BiosLen(bios, p)) / 512
  }

  function Ids(bios: seq<Chunk>): seq<nat> {
    seq(|bios|, i requires 0 <= i < |bios| => bios[i].id)
  }

  class Request {
    var bios: seq<Chunk>       // req->bio and the chain behind it
    var ended: seq<nat>        // bios handed to bio_endio, in order
    var dataLen: nat           // __data_len
    var sector: nat            // __sector

    ghost predicate Valid() reads this { AllWellFormed(bios) && dataLen == |AllBytes(bios)| }

    ghost function V(): View
      requires Valid()
      reads this
    {
      View(AllBytes(bios), sector)
    }

    /** blk_update_request: exactly the first `n` bytes are gone, and the bios they complete have
        been ended, in order and once each; nothing else of the chain has changed. */
    method UpdateRequest(n: nat) returns (more: bool)
      requires Valid()
      modifies this
      ensures Valid() && V() == Complete(old(V()), n)
      ensures more <==> V().bytes != []
      ensures more <==> bios != []
      ensures exists p :: 0 <= p <= |old(bios)| && ended == old(ended) + Ids(old(bios)[..p])
                && |bios| == |old(bios)| - p && (forall i :: 0 < i < |bios| ==> bios[i] == old(bios)[p + i])
                && (bios != [] ==> Begun(old(bios), p, n, bios[0]))
    {
      if bios == [] {
        assert ended == old(ended) + Ids(old(bios)[..0]);
        return false;
      }
      var p, total, k, done, left := Consume(bios, n);
      ended := ended + Ids(bios[..p]);
      if p == |bios| {
        AllBytesLength(bios);
        bios, dataLen := [], 0;
        return false;
      }
      bios := Cut(bios, p, k, done + left, left);
      dataLen := dataLen - total;
      sector := sector + total / 512;
      assert dataLen >= bios[0].size;                // "request botched" cannot happen
      return true;
    }
  }

  /** The chain without its first `p` bios and with the next one advanced. */
  method Cut(bios: seq<Chunk>, p: nat, k: nat, done: nat, off: nat) returns (rest: seq<Chunk>)
    requires AllWellFormed(bios) && p < |bios| && bios[p].idx + k < |bios[p].vecs|
    requires off <= bios[p].vecs[bios[p].idx + k].len && done < bios[p].size
    requires done == VecsLen(bios[p].vecs, bios[p].idx, k) + off
    ensures AllWellFormed(rest) && |rest| == |bios| - p && forall i :: 0 < i < |rest| ==> rest[i] == bios[p + i]
    ensures rest[0].id == bios[p].id && rest[0].sector == bios[p].sector + done / 512
    ensures var n := BiosLen(bios, p) + done;
            n < |AllBytes(bios)| && AllBytes(rest) == AllBytes(bios)[n..] && rest[0].size <= |AllBytes(bios)| - n
  {
    var b := bios[p];
    if done != 0 {
      b := Advanced(b, k, done, off);
    }
    rest := [b] + bios[p + 1..];
    CutChain(bios, p, k, off, rest);
  }
}
