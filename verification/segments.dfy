/** Physical segments of a request (block/blk-merge.c): what a layout of its vectors into segments
    is, and that the mapper's greedy one is as small as any. */
module Segments {
  import opened Arithmetic

  /** One bio_vec: a physical range, and whether its page lies above the bounce limit. */
  datatype Vec = Vec(addr: nat, len: nat, high: bool)

  /** Queue limits; `window` is queue_segment_boundary + 1. */
  datatype Limits = Limits(cluster: bool, maxSize: nat, window: nat, maxSegs: nat, maxSectors: nat)

  /** The number of the window an address lies in. */
  function Frame(addr: nat, window: nat): nat
    requires window > 0
    decreases addr
  {
    if addr < window then 0 else 1 + Frame(addr - window, window)
  }

  lemma {:induction false} FrameBounds(addr: nat, window: nat)
    requires window > 0
    ensures Times(Frame(addr, window), window) <= addr < Times(Frame(addr, window) + 1, window)
    decreases addr
  {
    if addr >= window {
      FrameBounds(addr - window, window);
      TimesAdd(Frame(addr - window, window), 1, window);
      TimesAdd(Frame(addr - window, window) + 1, 1, window);
    }
    assert Times(1, window) == window && Times(0, window) == 0;
  }

  lemma {:induction false} FrameOnly(addr: nat, window: nat, f: nat)
    requires window > 0 && Times(f, window) <= addr < Times(f + 1, window)
    ensures Frame(addr, window) == f
  {
    FrameBounds(addr, window);
    if Frame(addr, window) < f {
      TimesMono(Frame(addr, window) + 1, f, window);
    } else if f < Frame(addr, window) {
      TimesMono(f + 1, Frame(addr, window), window);
    }
  }

  /** BIOVEC_PHYS_MERGEABLE and BIOVEC_SEG_BOUNDARY: the two ranges touch and the pair stays
      within one boundary window. */
  predicate Linked(q: Limits, a: Vec, b: Vec) {
    && a.addr + a.len == b.addr
    && q.window > 0 && b.addr + b.len > 0
    && Frame(a.addr, q.window) == Frame(b.addr + b.len - 1, q.window)
  }

  /** May `b` join a segment of `size` bytes that ends with `a`? */
  predicate CanExtend(q: Limits, a: Vec, size: nat, b: Vec) {
    q.cluster && size + b.len <= q.maxSize && Linked(q, a, b)
  }

  // ---- layouts ----
  // A layout of the vectors after the first says of each whether it starts a new segment.

  ghost predicate Fits(q: Limits, prev: Vec, size: nat, rest: seq<Vec>, starts: seq<bool>)
    decreases |rest|
  {
    |starts| == |rest| &&
    (rest == [] ||
     (if starts[0] then Fits(q, rest[0], rest[0].len, rest[1..], starts[1..])
      else CanExtend(q, prev, size, rest[0]) && Fits(q, rest[0], size + rest[0].len, rest[1..], starts[1..])))
  }

  function Starts(starts: seq<bool>): nat {
    if starts == [] then 0 else (if starts[0] then 1 else 0) + Starts(starts[1..])
  }

  /** The size of the segment that is open at the end. */
  function LastSize(size: nat, rest: seq<Vec>, starts: seq<bool>): nat
    requires |starts| == |rest|
    decreases |rest|
  {
    if rest == [] then size
    else LastSize(if starts[0] then rest[0].len else size + rest[0].len, rest[1..], starts[1..])
  }

  /** The size the segment that is open at the beginning grows to. */
  function FirstSize(size: nat, rest: seq<Vec>, starts: seq<bool>): nat
    requires |starts| == |rest|
    decreases |rest|
  {
    if rest == [] || starts[0] then size
    else FirstSize(size + rest[0].len, rest[1..], starts[1..])
  }

  function LastVec(prev: Vec, rest: seq<Vec>): Vec { if rest == [] then prev else rest[|rest| - 1] }

  /** `vecs` can be cut into exactly `nr` segments the queue accepts, the first of at most `front`
      and the last of at most `back` bytes. */
  ghost predicate Layout(q: Limits, vecs: seq<Vec>, starts: seq<bool>, nr: nat, front: nat, back: nat) {
    && vecs != [] && Fits(q, vecs[0], vecs[0].len, vecs[1..], starts)
    && nr == 1 + Starts(starts)
    && FirstSize(vecs[0].len, vecs[1..], starts) <= front
    && LastSize(vecs[0].len, vecs[1..], starts) <= back
  }

  ghost predicate Coverable(q: Limits, vecs: seq<Vec>, nr: nat, front: nat, back: nat) {
    exists starts: seq<bool> :: Layout(q, vecs, starts, nr, front, back)
  }

  lemma {:induction false} SizeBounds(size: nat, rest: seq<Vec>, starts: seq<bool>)
    requires |starts| == |rest|
    ensures FirstSize(size, rest, starts) >= size
    ensures Starts(starts) == 0 ==> FirstSize(size, rest, starts) == LastSize(size, rest, starts)
    decreases |rest|
  {
    if rest != [] {
      SizeBounds(if starts[0] then rest[0].len else size + rest[0].len, rest[1..], starts[1..]);
    }
  }

  lemma {:induction false} StartsConcat(s: seq<bool>, s': seq<bool>)
    ensures Starts(s + s') == Starts(s) + Starts(s')
  {
    if s == [] {
      assert s + s' == s';
    } else {
      assert (s + s')[1..] == s[1..] + s';
      StartsConcat(s[1..], s');
    }
  }

  /** A layout of one list continued by a layout of another. */
  lemma {:induction false} FitsConcat(q: Limits, prev: Vec, size: nat, r: seq<Vec>, s: seq<bool>, r': seq<Vec>,
                                      s': seq<bool>)
    requires Fits(q, prev, size, r, s)
    requires Fits(q, LastVec(prev, r), LastSize(size, r, s), r', s')
    ensures Fits(q, prev, size, r + r', s + s')
    ensures LastSize(size, r + r', s + s') == LastSize(LastSize(size, r, s), r', s')
    ensures FirstSize(size, r + r', s + s') ==
            if Starts(s) > 0 then FirstSize(size, r, s) else FirstSize(LastSize(size, r, s), r', s')
    decreases |r|
  {
    if r == [] {
      assert r + r' == r' && s + s' == s';
    } else {
      assert (r + r')[1..] == r[1..] + r' && (s + s')[1..] == s[1..] + s';
      FitsConcat(q, r[0], if s[0] then r[0].len else size + r[0].len, r[1..], s[1..], r', s');
    }
  }

  /** A layout still fits if its first segment is `extra` bytes bigger and has room for them. */
  lemma {:induction false} FitsOffset(q: Limits, prev: Vec, size: nat, extra: nat, rest: seq<Vec>, starts: seq<bool>)
    requires Fits(q, prev, size, rest, starts) && extra + FirstSize(size, rest, starts) <= q.maxSize
    ensures Fits(q, prev, extra + size, rest, starts)
    ensures FirstSize(extra + size, rest, starts) == extra + FirstSize(size, rest, starts)
    ensures LastSize(extra + size, rest, starts) ==
            LastSize(size, rest, starts) + if Starts(starts) == 0 then extra else 0
    decreases |rest|
  {
    if rest != [] && !starts[0] {
      SizeBounds(size + rest[0].len, rest[1..], starts[1..]);
      FitsOffset(q, rest[0], size + rest[0].len, extra, rest[1..], starts[1..]);
    }
  }

  /** Two lists side by side. */
  lemma {:induction false} SideBySide(q: Limits, v: seq<Vec>, nr: nat, front: nat, back: nat, v': seq<Vec>,
                                      nr': nat, front': nat, back': nat)
    requires Coverable(q, v, nr, front, back) && Coverable(q, v', nr', front', back')
    ensures Coverable(q, v + v', nr + nr', front, back')
  {
    var s :| Layout(q, v, s, nr, front, back);
    var s' :| Layout(q, v', s', nr', front', back');
    var t := s + ([true] + s');
    SizeBounds(v[0].len, v[1..], s);
    assert ([true] + s')[1..] == s' && v'[..][1..] == v'[1..];
    FitsConcat(q, v[0], v[0].len, v[1..], s, v', [true] + s');
    assert (v + v')[1..] == v[1..] + v';
    StartsConcat(s, [true] + s');
    assert Layout(q, v + v', t, nr + nr', front, back');
  }

  /** The second of two touching lists, its first segment continuing one of `extra` bytes. */
  lemma {:induction false} ContinueLayout(q: Limits, prev: Vec, extra: nat, v: seq<Vec>, s: seq<bool>)
    requires v != [] && Fits(q, v[0], v[0].len, v[1..], s) && q.cluster && Linked(q, prev, v[0])
    requires extra + FirstSize(v[0].len, v[1..], s) <= q.maxSize
    ensures Fits(q, prev, extra, v, [false] + s)
    ensures FirstSize(extra, v, [false] + s) == extra + FirstSize(v[0].len, v[1..], s)
    ensures LastSize(extra, v, [false] + s) ==
            LastSize(v[0].len, v[1..], s) + if Starts(s) == 0 then extra else 0
  {
    SizeBounds(v[0].len, v[1..], s);
    FitsOffset(q, v[0], v[0].len, extra, v[1..], s);
    assert ([false] + s)[1..] == s;
  }

  /** Two lists whose touching segments become one. */
  lemma {:induction false} Joined(q: Limits, v: seq<Vec>, nr: nat, front: nat, back: nat, v': seq<Vec>,
                                  nr': nat, front': nat, back': nat)
    requires Coverable(q, v, nr, front, back) && Coverable(q, v', nr', front', back')
    requires q.cluster && back + front' <= q.maxSize && Linked(q, v[|v| - 1], v'[0])
    ensures nr + nr' >= 2
    ensures Coverable(q, v + v', nr + nr' - 1,
                      if nr == 1 then back + front' else front, if nr' == 1 then back + front' else back')
  {
    var s :| Layout(q, v, s, nr, front, back);
    var s' :| Layout(q, v', s', nr', front', back');
    var last := LastSize(v[0].len, v[1..], s);
    var t' := [false] + s';
    assert LastVec(v[0], v[1..]) == v[|v| - 1];
    ContinueLayout(q, v[|v| - 1], last, v', s');
    SizeBounds(v'[0].len, v'[1..], s');
    FitsConcat(q, v[0], v[0].len, v[1..], s, v', t');
    assert Starts(t') == Starts(s') by { assert t'[1..] == s'; }
    StartsConcat(s, t');
    assert (v + v')[1..] == v[1..] + v';
    assert Layout(q, v + v', s + t', nr + nr' - 1,
                  if nr == 1 then back + front' else front, if nr' == 1 then back + front' else back');
  }

  lemma {:induction false} Loosen(q: Limits, v: seq<Vec>, nr: nat, front: nat, back: nat, front': nat, back': nat)
    requires Coverable(q, v, nr, front, back) && front <= front' && back <= back'
    ensures Coverable(q, v, nr, front', back')
  {
    var s :| Layout(q, v, s, nr, front, back);
    assert Layout(q, v, s, nr, front', back');
  }

  /** When everything is one segment, its size is bounded by either end. */
  lemma {:induction false} OneSegment(q: Limits, v: seq<Vec>, front: nat, back: nat)
    requires Coverable(q, v, 1, front, back)
    ensures Coverable(q, v, 1, back, back) && Coverable(q, v, 1, front, front)
  {
    var s :| Layout(q, v, s, 1, front, back);
    SizeBounds(v[0].len, v[1..], s);
    assert Layout(q, v, s, 1, back, back) && Layout(q, v, s, 1, front, front);
  }

  // ---- the mapper ----

  /** How many further entries blk_rq_map_sg writes: it extends the open one whenever it can. */
  function MapMore(q: Limits, prev: Vec, size: nat, rest: seq<Vec>): nat
    decreases |rest|
  {
    if rest == [] then 0
    else if CanExtend(q, prev, size, rest[0]) then MapMore(q, rest[0], size + rest[0].len, rest[1..])
    else 1 + MapMore(q, rest[0], rest[0].len, rest[1..])
  }

  function MapCount(q: Limits, vecs: seq<Vec>): nat {
    if vecs == [] then 0 else 1 + MapMore(q, vecs[0], vecs[0].len, vecs[1..])
  }

  /** A smaller open segment never costs more, a bigger one costs at most one more. */
  lemma {:induction false} MapMoreSize(q: Limits, prev: Vec, small: nat, big: nat, rest: seq<Vec>)
    requires small <= big
    ensures MapMore(q, prev, small, rest) <= MapMore(q, prev, big, rest) <= 1 + MapMore(q, prev, small, rest)
    decreases |rest|
  {
    if rest != [] {
      var x := rest[0];
      MapMoreSize(q, x, small + x.len, big + x.len, rest[1..]);
      MapMoreSize(q, x, x.len, small + x.len, rest[1..]);
    }
  }

  /** No layout has fewer segments than the mapper's. */
  lemma {:induction false} GreedyLeast(q: Limits, prev: Vec, small: nat, size: nat, rest: seq<Vec>, starts: seq<bool>)
    requires Fits(q, prev, size, rest, starts) && small <= size
    ensures MapMore(q, prev, small, rest) <= Starts(starts)
    decreases |rest|
  {
    if rest != [] {
      var x := rest[0];
      if starts[0] {
        GreedyLeast(q, x, x.len, x.len, rest[1..], starts[1..]);
        MapMoreSize(q, x, x.len, small + x.len, rest[1..]);
      } else {
        GreedyLeast(q, x, small + x.len, size + x.len, rest[1..], starts[1..]);
      }
    }
  }

  lemma {:induction false} MapCountLeast(q: Limits, vecs: seq<Vec>, nr: nat, front: nat, back: nat)
    requires Coverable(q, vecs, nr, front, back)
    ensures MapCount(q, vecs) <= nr
  {
    var s :| Layout(q, vecs, s, nr, front, back);
    GreedyLeast(q, vecs[0], vecs[0].len, vecs[0].len, vecs[1..], s);
  }

  // ---- the counter ----

  /** The layout __blk_recalc_rq_segments settles on: as the mapper's, but a high page shares its
      segment with nobody. */
  function RecalcStarts(q: Limits, prev: Vec, size: nat, rest: seq<Vec>): (starts: seq<bool>)
    ensures |starts| == |rest|
    decreases |rest|
  {
    if rest == [] then []
    else if !rest[0].high && !prev.high && CanExtend(q, prev, size, rest[0]) then
      [false] + RecalcStarts(q, rest[0], size + rest[0].len, rest[1..])
    else
      [true] + RecalcStarts(q, rest[0], rest[0].len, rest[1..])
  }

  lemma {:induction false} RecalcFits(q: Limits, prev: Vec, size: nat, rest: seq<Vec>)
    ensures Fits(q, prev, size, rest, RecalcStarts(q, prev, size, rest))
    decreases |rest|
  {
    if rest != [] {
      var t := RecalcStarts(q, prev, size, rest);
      if t[0] {
        RecalcFits(q, rest[0], rest[0].len, rest[1..]);
      } else {
        RecalcFits(q, rest[0], size + rest[0].len, rest[1..]);
      }
    }
  }

  /** The count of __blk_recalc_rq_segments, and the sizes of its outer segments. */
  function RecalcCount(q: Limits, vecs: seq<Vec>): nat {
    if vecs == [] then 0 else 1 + Starts(RecalcStarts(q, vecs[0], vecs[0].len, vecs[1..]))
  }

  function RecalcFront(q: Limits, vecs: seq<Vec>): nat
    requires vecs != []
  {
    FirstSize(vecs[0].len, vecs[1..], RecalcStarts(q, vecs[0], vecs[0].len, vecs[1..]))
  }

  function RecalcBack(q: Limits, vecs: seq<Vec>): nat
    requires vecs != []
  {
    LastSize(vecs[0].len, vecs[1..], RecalcStarts(q, vecs[0], vecs[0].len, vecs[1..]))
  }

  /** A recount never says less than the mapper writes. */
  lemma {:induction false} RecalcCoversMap(q: Limits, vecs: seq<Vec>)
    ensures MapCount(q, vecs) <= RecalcCount(q, vecs)
  {
    if vecs != [] {
      RecalcFits(q, vecs[0], vecs[0].len, vecs[1..]);
      GreedyLeast(q, vecs[0], vecs[0].len, vecs[0].len, vecs[1..],
                  RecalcStarts(q, vecs[0], vecs[0].len, vecs[1..]));
    }
  }

  /** With no page to be bounced the recount is exactly what the mapper writes. */
  lemma {:induction false} RecalcExact(q: Limits, vecs: seq<Vec>)
    requires forall i :: 0 <= i < |vecs| ==> !vecs[i].high
    ensures RecalcCount(q, vecs) == MapCount(q, vecs)
  {
    if vecs != [] {
      RecalcMore(q, vecs[0], vecs[0].len, vecs[1..]);
    }
  }

  lemma {:induction false} RecalcMore(q: Limits, prev: Vec, size: nat, rest: seq<Vec>)
    requires !prev.high && forall i :: 0 <= i < |rest| ==> !rest[i].high
    ensures Starts(RecalcStarts(q, prev, size, rest)) == MapMore(q, prev, size, rest)
    decreases |rest|
  {
    if rest != [] {
      var t := RecalcStarts(q, prev, size, rest);
      if t[0] {
        RecalcMore(q, rest[0], rest[0].len, rest[1..]);
        assert t == [true] + RecalcStarts(q, rest[0], rest[0].len, rest[1..]);
      } else {
        RecalcMore(q, rest[0], size + rest[0].len, rest[1..]);
        assert t == [false] + RecalcStarts(q, rest[0], size + rest[0].len, rest[1..]);
      }
    }
  }
}
