/** Requests that grow by merging and are mapped to a scatterlist (block/blk-merge.c). */
module SegmentRequests {
  import opened Segments
  import opened SegmentDivision

  datatype Bio = Bio(vecs: seq<Vec>, sectors: nat, front: nat, back: nat, valid: bool, segs: nat)

  function Flat(bios: seq<Bio>): seq<Vec> {
    if bios == [] then [] else bios[0].vecs + Flat(bios[1..])
  }

  lemma {:induction false} FlatConcat(a: seq<Bio>, b: seq<Bio>)
    ensures Flat(a + b) == Flat(a) + Flat(b)
  {
    if a == [] {
      assert a + b == b;
    } else {
      assert (a + b)[1..] == a[1..] + b;
      FlatConcat(a[1..], b);
    }
  }

  lemma {:induction false} FlatOne(b: Bio)
    ensures Flat([b]) == b.vecs
  {
    assert [b][1..] == [];
    assert b.vecs + [] == b.vecs;
  }

  /** bi_seg_front_size and bi_seg_back_size do not enter the data of a request. */
  lemma {:induction false} FlatSame(a: seq<Bio>, b: seq<Bio>)
    requires |a| == |b| && forall i :: 0 <= i < |a| ==> a[i].vecs == b[i].vecs
    ensures Flat(a) == Flat(b)
  {
    if a != [] {
      FlatSame(a[1..], b[1..]);
    }
  }

  function Max(a: nat, b: nat): nat { if a > b then a else b }

  ghost predicate HasData(bios: seq<Bio>) { bios != [] && forall i :: 0 <= i < |bios| ==> bios[i].vecs != [] }

  /** A bio whose cached count is marked valid. */
  ghost predicate Counted(q: Limits, b: Bio) { b.valid ==> Coverable(q, b.vecs, b.segs, b.front, b.back) }

  /** What the loop of __blk_recalc_rq_segments has found out so far, and what is still to come. */
  ghost predicate Counting(q: Limits, all: seq<Vec>, nr: nat, size: nat, prev: Vec, front0: nat, front: nat,
                           rest: seq<Vec>) {
    all != [] &&
    var goal := RecalcStarts(q, all[0], all[0].len, all[1..]);
    if nr == 0 then rest == all && front == front0
    else
      var more := RecalcStarts(q, prev, size, rest);
      && nr + Starts(more) == 1 + Starts(goal)
      && LastSize(size, rest, more) == LastSize(all[0].len, all[1..], goal)
      && (if nr == 1 then front == front0 && FirstSize(size, rest, more) == FirstSize(all[0].len, all[1..], goal)
          else front == Max(front0, FirstSize(all[0].len, all[1..], goal)))
  }

  /** Starting a segment with the next vector. */
  lemma {:induction false} CountNew(q: Limits, all: seq<Vec>, nr: nat, size: nat, prev: Vec, front0: nat,
                                    front: nat, rest: seq<Vec>)
    requires Counting(q, all, nr, size, prev, front0, front, rest) && rest != []
    requires nr == 0 || rest[0].high || prev.high || !CanExtend(q, prev, size, rest[0])
    ensures Counting(q, all, nr + 1, rest[0].len, rest[0], front0,
                     if nr == 1 then Max(front, size) else front, rest[1..])
  {
    var x := rest[0];
    var more := RecalcStarts(q, x, x.len, rest[1..]);
    if nr != 0 {
      assert ([true] + more)[1..] == more;
    }
  }

  lemma {:induction false} CountExtend(q: Limits, all: seq<Vec>, nr: nat, size: nat, prev: Vec, front0: nat,
                                       front: nat, rest: seq<Vec>)
    requires Counting(q, all, nr, size, prev, front0, front, rest) && rest != [] && nr != 0
    requires !rest[0].high && !prev.high && CanExtend(q, prev, size, rest[0])
    ensures Counting(q, all, nr, size + rest[0].len, rest[0], front0, front, rest[1..])
  {
    var more := RecalcStarts(q, rest[0], size + rest[0].len, rest[1..]);
    assert ([false] + more)[1..] == more;
  }

  lemma {:induction false} CountDone(q: Limits, all: seq<Vec>, nr: nat, size: nat, prev: Vec, front0: nat,
                                     front: nat, back: nat)
    requires Counting(q, all, nr, size, prev, front0, front, []) && nr != 0
    ensures Coverable(q, all, nr, if nr == 1 then Max(front, size) else front, Max(back, size))
    ensures nr == RecalcCount(q, all) && size == RecalcBack(q, all)
    ensures (if nr == 1 then Max(front, size) else front) == Max(front0, RecalcFront(q, all))
  {
    var goal := RecalcStarts(q, all[0], all[0].len, all[1..]);
    RecalcFits(q, all[0], all[0].len, all[1..]);
    assert Layout(q, all, goal, nr, if nr == 1 then Max(front, size) else front, Max(back, size));
  }

  /** One round of the inner loop of __blk_recalc_rq_segments. */
  method CountOne(q: Limits, nr: nat, size: nat, front: nat, prev: Vec, highprv: bool, x: Vec,
                  ghost all: seq<Vec>, ghost front0: nat, ghost rest: seq<Vec>)
    returns (nr': nat, size': nat, front': nat, highprv': bool)
    requires Counting(q, all, nr, size, prev, front0, front, rest) && rest != [] && x == rest[0]
    requires if nr == 0 then highprv else highprv == prev.high
    ensures Counting(q, all, nr', size', x, front0, front', rest[1..])
    ensures nr' > 0 && highprv' == x.high && front' >= front
  {
    nr', size', front', highprv' := nr, size, front, highprv;
    if !x.high && !highprv && CanExtend(q, prev, size, x) {
      CountExtend(q, all, nr, size, prev, front0, front, rest);
      size' := size + x.len;
    } else {
      CountNew(q, all, nr, size, prev, front0, front, rest);
      if nr == 1 && size > front {
        front' := size;
      }
      nr' := nr + 1;
      size' := x.len;
      highprv' := x.high;
    }
  }

  /** The inner loop of __blk_recalc_rq_segments: the vectors of one bio. */
  method CountBio(q: Limits, nr: nat, size: nat, front: nat, prev: Vec, highprv: bool, vecs: seq<Vec>,
                  ghost all: seq<Vec>, ghost front0: nat, ghost after: seq<Vec>)
    returns (nr': nat, size': nat, front': nat, prev': Vec, highprv': bool)
    requires Counting(q, all, nr, size, prev, front0, front, vecs + after) && vecs != []
    requires if nr == 0 then highprv else highprv == prev.high
    ensures Counting(q, all, nr', size', prev', front0, front', after)
    ensures nr' > 0 && highprv' == prev'.high && front' >= front
  {
    nr', size', front', prev', highprv' := nr, size, front, prev, highprv;
    var i := 0;
    assert vecs[0..] == vecs;
    while i < |vecs|
      invariant 0 <= i <= |vecs| && (i > 0 ==> nr' > 0)
      invariant if nr' == 0 then highprv' else highprv' == prev'.high
      invariant front' >= front
      invariant Counting(q, all, nr', size', prev', front0, front', vecs[i..] + after)
    {
      ghost var rest := vecs[i..] + after;
      assert rest[1..] == vecs[i + 1..] + after && rest[0] == vecs[i];
      nr', size', front', highprv' := CountOne(q, nr', size', front', prev', highprv', vecs[i], all, front0, rest);
      prev' := vecs[i];
      i := i + 1;
    }
    assert vecs[|vecs|..] + after == after;
  }

  /** __blk_recalc_rq_segments: the number of segments, with the first bio's front size and the
      last bio's back size raised to what was seen. */
  method RecalcSegments(q: Limits, bios: seq<Bio>) returns (nr: nat, out: seq<Bio>)
    requires bios == [] || HasData(bios)
    ensures bios == [] ==> nr == 0 && out == []
    ensures |out| == |bios|
    ensures bios != [] ==>
      && out == Marked(bios, out[0].front, out[|out| - 1].back)
      && out[0].front >= bios[0].front && out[|out| - 1].back >= bios[|bios| - 1].back
      && Coverable(q, Flat(bios), nr, out[0].front, out[|out| - 1].back)
      && nr == RecalcCount(q, Flat(bios))
      && out[0].front == Max(bios[0].front, RecalcFront(q, Flat(bios)))
      && out[|out| - 1].back == Max(bios[|bios| - 1].back, RecalcBack(q, Flat(bios)))
  {
    if bios == [] {
      return 0, [];
    }
    nr := 0;
    var size: nat, front: nat, highprv := 0, bios[0].front, true;
    var prev := bios[0].vecs[0];
    ghost var all := Flat(bios);
    var k := 0;
    while k < |bios|
      invariant 0 <= k <= |bios| && (k > 0 ==> nr > 0)
      invariant nr > 0 ==> highprv == prev.high
      invariant nr == 0 ==> highprv
      invariant front >= bios[0].front
      invariant Counting(q, all, nr, size, prev, bios[0].front, front, Flat(bios[k..]))
    {
      assert bios[k..][1..] == bios[k + 1..];
      nr, size, front, prev, highprv :=
        CountBio(q, nr, size, front, prev, highprv, bios[k].vecs, all, bios[0].front, Flat(bios[k + 1..]));
      k := k + 1;
    }
    assert Flat(bios[|bios|..]) == [];
    var last := bios[|bios| - 1];
    CountDone(q, all, nr, size, prev, bios[0].front, front, last.back);
    if nr == 1 && size > front {
      front := size;
    }
    out := Marked(bios, front, if size > last.back then size else last.back);
  }

  function Marked(bios: seq<Bio>, front: nat, back: nat): (out: seq<Bio>)
    requires bios != []
    ensures |out| == |bios| && forall i :: 0 <= i < |bios| ==> out[i].vecs == bios[i].vecs
    ensures out[0].front == front && out[|out| - 1].back == back
  {
    var f := bios[0 := bios[0].(front := front)];
    f[|bios| - 1 := f[|bios| - 1].(back := back)]
  }

  /** blk_recount_segments */
  method Recount(q: Limits, b: Bio) returns (b': Bio)
    requires b.vecs != []
    ensures b' == b.(front := b'.front, back := b'.back, valid := true, segs := b'.segs)
    ensures b'.front >= b.front && b'.back >= b.back
    ensures Coverable(q, b'.vecs, b'.segs, b'.front, b'.back) && b'.segs == RecalcCount(q, b.vecs)
  {
    var nr, out := RecalcSegments(q, [b]);
    FlatOne(b);
    assert out[0] == b.(front := out[0].front, back := out[0].back);
    b' := out[0].(valid := true, segs := nr);
  }

  lemma {:induction false} Appended(q: Limits, bios: seq<Bio>, nr: nat, b: Bio)
    requires HasData(bios) && Coverable(q, Flat(bios), nr, bios[0].front, bios[|bios| - 1].back)
    requires b.vecs != [] && Coverable(q, b.vecs, b.segs, b.front, b.back)
    ensures HasData(bios + [b]) && Flat(bios + [b]) == Flat(bios) + b.vecs
    ensures Coverable(q, Flat(bios + [b]), nr + b.segs, bios[0].front, b.back)
  {
    SideBySide(q, Flat(bios), nr, bios[0].front, bios[|bios| - 1].back, b.vecs, b.segs, b.front, b.back);
    FlatConcat(bios, [b]);
    FlatOne(b);
  }

  lemma {:induction false} Prepended(q: Limits, bios: seq<Bio>, nr: nat, b: Bio)
    requires HasData(bios) && Coverable(q, Flat(bios), nr, bios[0].front, bios[|bios| - 1].back)
    requires b.vecs != [] && Coverable(q, b.vecs, b.segs, b.front, b.back)
    ensures HasData([b] + bios) && Flat([b] + bios) == b.vecs + Flat(bios)
    ensures Coverable(q, Flat([b] + bios), nr + b.segs, b.front, bios[|bios| - 1].back)
  {
    SideBySide(q, b.vecs, b.segs, b.front, b.back, Flat(bios), nr, bios[0].front, bios[|bios| - 1].back);
    assert ([b] + bios)[1..] == bios;
  }

  datatype Sg = Sg(addr: nat, len: nat)

  /** The addresses a list of ranges names, in order. */
  ghost function Range(addr: nat, len: nat): seq<nat> { seq(len, i => addr + i) }

  ghost function VecBytes(v: seq<Vec>): seq<nat> {
    if v == [] then [] else Range(v[0].addr, v[0].len) + VecBytes(v[1..])
  }

  ghost function SgBytes(s: seq<Sg>): seq<nat> {
    if s == [] then [] else SgBytes(s[..|s| - 1]) + Range(s[|s| - 1].addr, s[|s| - 1].len)
  }

  lemma {:induction false} SgAppend(s: seq<Sg>, e: Sg)
    ensures SgBytes(s + [e]) == SgBytes(s) + Range(e.addr, e.len)
  {
    assert (s + [e])[..|s|] == s;
  }

  /** bio_phys_segments: the count a bio carries, made up if it has none. */
  function SegsOf(q: Limits, b: Bio): nat { if b.valid then b.segs else RecalcCount(q, b.vecs) }

  class Request {
    var bios: seq<Bio>
    var nr: nat            // nr_phys_segments
    var sectors: nat
    var noMerge: bool      // REQ_NOMERGE

    ghost function Vecs(): seq<Vec> reads this { Flat(bios) }

    /** The carried count belongs to some layout whose outer segments the first and last bio
        over-approximate. */
    ghost predicate Valid(q: Limits) reads this {
      HasData(bios) && Coverable(q, Vecs(), nr, bios[0].front, bios[|bios| - 1].back)
    }

    /** blk_rq_bio_prep: a request made from one bio. */
    constructor (q: Limits, bio: Bio)
      requires bio.vecs != [] && Counted(q, bio)
      ensures Valid(q) && Vecs() == bio.vecs && sectors == bio.sectors && !noMerge
    {
      var b := bio;
      if !bio.valid {
        b := Recount(q, bio);
      }
      bios, nr, sectors, noMerge := [b], b.segs, bio.sectors, false;
      new;
      FlatOne(b);
    }

    /** ll_new_hw_segment */
    method NewHwSegment(q: Limits, bio: Bio) returns (ok: bool)
      modifies this`nr, this`noMerge
      ensures ok <==> old(nr) + bio.segs <= q.maxSegs
      ensures nr == old(nr) + if ok then bio.segs else 0
      ensures noMerge == (old(noMerge) || !ok)
    {
      if nr + bio.segs > q.maxSegs {
        noMerge := true;
        return false;
      }
      nr := nr + bio.segs;
      return true;
    }

    /** ll_back_merge_fn and the splice of bio_attempt_back_merge. */
    method BackMerge(q: Limits, bio: Bio) returns (ok: bool)
      requires Valid(q) && bio.vecs != [] && Counted(q, bio)
      modifies this
      ensures Valid(q)
      ensures Vecs() == if ok then old(Vecs()) + bio.vecs else old(Vecs())
      ensures sectors == old(sectors) + if ok then bio.sectors else 0
      ensures ok <==> old(sectors) + bio.sectors <= q.maxSectors && old(nr) + SegsOf(q, bio) <= q.maxSegs
      ensures nr == old(nr) + if ok then SegsOf(q, bio) else 0
      ensures noMerge == (old(noMerge) || !ok)
    {
      if sectors + bio.sectors > q.maxSectors {
        noMerge := true;
        return false;
      }
      var n := |bios|;
      if !bios[n - 1].valid {
        RecountTail(q);
      }
      var b := bio;
      if !b.valid {
        b := Recount(q, b);
      }
      ok := NewHwSegment(q, b);
      if ok {
        Appended(q, bios, old(nr), b);
        bios := bios + [b];
        sectors := sectors + b.sectors;
      }
    }

    /** req->bio->bi_seg_front_size = size */
    method SetFront(size: nat)
      requires HasData(bios)
      modifies this`bios
      ensures HasData(bios) && Vecs() == old(Vecs()) && |bios| == |old(bios)|
      ensures bios[0].front == size && bios[|bios| - 1].back == old(bios[|bios| - 1].back)
      ensures bios[|bios| - 1].vecs == old(bios[|bios| - 1].vecs)
    {
      bios := bios[0 := bios[0].(front := size)];
      FlatSame(bios, old(bios));
    }

    /** rq->biotail->bi_seg_back_size = size */
    method SetBack(size: nat)
      requires HasData(bios)
      modifies this`bios
      ensures HasData(bios) && Vecs() == old(Vecs()) && |bios| == |old(bios)|
      ensures bios[|bios| - 1].back == size && bios[0].front == old(bios[0].front)
    {
      bios := bios[|bios| - 1 := bios[|bios| - 1].(back := size)];
      FlatSame(bios, old(bios));
    }

    /** The end of attempt_merge: `next` gives its bios to this request. */
    method Splice(q: Limits, next: Request, total: nat)
      requires next != this && HasData(bios) && HasData(next.bios)
      requires Coverable(q, Vecs() + next.Vecs(), total, bios[0].front, next.bios[|next.bios| - 1].back)
      modifies this, next
      ensures Valid(q) && nr == total && next.bios == []
      ensures Vecs() == old(Vecs() + next.Vecs()) && sectors == old(sectors + next.sectors)
    {
      FlatConcat(bios, next.bios);
      nr := total;
      bios := bios + next.bios;
      sectors := sectors + next.sectors;
      next.bios := [];
    }

    /** Recounting the last bio on its own only raises its sizes. */
    method RecountTail(q: Limits)
      requires Valid(q)
      modifies this`bios
      ensures Valid(q) && Vecs() == old(Vecs()) && |bios| == |old(bios)|
    {
      var n := |bios|;
      var t := Recount(q, bios[n - 1]);
      ghost var front, back := bios[0].front, bios[n - 1].back;
      bios := bios[n - 1 := t];
      FlatSame(bios, old(bios));
      Loosen(q, Flat(bios), nr, front, back, bios[0].front, bios[n - 1].back);
    }

    method RecountHead(q: Limits)
      requires Valid(q)
      modifies this`bios
      ensures Valid(q) && Vecs() == old(Vecs()) && |bios| == |old(bios)|
    {
      var h := Recount(q, bios[0]);
      ghost var n, front, back := |bios|, bios[0].front, bios[|bios| - 1].back;
      bios := bios[0 := h];
      FlatSame(bios, old(bios));
      Loosen(q, Flat(bios), nr, front, back, bios[0].front, bios[n - 1].back);
    }

    /** ll_front_merge_fn and the splice of bio_attempt_front_merge. */
    method FrontMerge(q: Limits, bio: Bio) returns (ok: bool)
      requires Valid(q) && bio.vecs != [] && Counted(q, bio)
      modifies this
      ensures Valid(q)
      ensures Vecs() == if ok then bio.vecs + old(Vecs()) else old(Vecs())
      ensures sectors == old(sectors) + if ok then bio.sectors else 0
      ensures ok <==> old(sectors) + bio.sectors <= q.maxSectors && old(nr) + SegsOf(q, bio) <= q.maxSegs
      ensures nr == old(nr) + if ok then SegsOf(q, bio) else 0
      ensures noMerge == (old(noMerge) || !ok)
    {
      if sectors + bio.sectors > q.maxSectors {
        noMerge := true;
        return false;
      }
      var b := bio;
      if !b.valid {
        b := Recount(q, b);
      }
      if !bios[0].valid {
        RecountHead(q);
      }
      ok := NewHwSegment(q, b);
      if ok {
        Prepended(q, bios, old(nr), b);
        bios := [b] + bios;
        sectors := sectors + b.sectors;
      }
    }

    /** blk_recalc_rq_segments, as blk_update_request runs it on what is left of the request. */
    method RecalcAfterCompletion(q: Limits, left: seq<Bio>)
      requires HasData(left)
      modifies this
      ensures Valid(q) && Vecs() == Flat(left) && nr == RecalcCount(q, Flat(left))
    {
      var n, out := RecalcSegments(q, left);
      FlatSame(out, left);
      nr, bios := n, out;
    }

    /** blk_rq_map_sg.  The caller provides room for nr_phys_segments entries; that this is always
        enough is what the carried count is for. */
    method MapSg(q: Limits, sglist: array<Sg>) returns (nsegs: nat)
      requires Valid(q) && nr <= sglist.Length
      modifies sglist
      ensures nsegs == MapCount(q, Vecs()) && nsegs <= nr
      ensures SgBytes(sglist[..nsegs]) == VecBytes(Vecs())
      ensures SizesOk(q, [], Vecs()) ==> SizesOk(q, sglist[..nsegs], [])
      ensures Sliced(q, Vecs(), sglist[..nsegs])
      ensures Inside(q, Vecs()) ==> AllInside(q, sglist[..nsegs])
      ensures !q.cluster ==> nsegs == |Vecs()|
    {
      nsegs := MapBios(q, sglist);
      FlatEnds(bios);
      EntriesSliced(q, Vecs());
      SlicedInside(q, Vecs(), sglist[..nsegs]);
    }

    /** The loop over the bios. */
    method MapBios(q: Limits, sglist: array<Sg>) returns (nsegs: nat)
      requires Valid(q) && nr <= sglist.Length
      modifies sglist
      ensures nsegs == MapCount(q, Vecs()) && nsegs <= nr
      ensures SgBytes(sglist[..nsegs]) == VecBytes(Vecs())
      ensures SizesOk(q, [], Vecs()) ==> SizesOk(q, sglist[..nsegs], [])
      ensures Vecs() != [] && sglist[..nsegs] == Entries(q, [], Vecs()[0], Vecs())
    {
      ghost var all := Vecs();
      FlatEnds(bios);
      ghost var end := Entries(q, [], all[0], all);
      MapCountLeast(q, all, nr, bios[0].front, bios[|bios| - 1].back);
      MappingStart(q, all, bios[0].vecs[0]);
      nsegs := 0;
      assert sglist[..nsegs] == [] && bios[0..] == bios;
      var prev := bios[0].vecs[0];
      var k := 0;
      ghost var rest := all;
      while k < |bios|
        invariant 0 <= k <= |bios| && (k > 0 ==> nsegs > 0) && rest == Flat(bios[k..])
        invariant nsegs <= sglist.Length && Mapping(q, all, sglist[..nsegs], prev, rest)
        invariant Leads(q, sglist[..nsegs], prev, rest, end)
      {
        ghost var after := Flat(bios[k + 1..]);
        assert rest == bios[k].vecs + after by { assert bios[k..][1..] == bios[k + 1..]; }
        nsegs := MapBio(q, sglist, nsegs, prev, bios[k].vecs, all, after, end);
        prev, rest := bios[k].vecs[|bios[k].vecs| - 1], after;
        k := k + 1;
      }
      assert rest == [];
      MappingDone(q, all, sglist[..nsegs], prev, end);
    }
  }

  lemma {:induction false} MappingStart(q: Limits, all: seq<Vec>, prev: Vec)
    ensures Mapping(q, all, [], prev, all)
  {
  }

  lemma {:induction false} MappingDone(q: Limits, all: seq<Vec>, done: seq<Sg>, prev: Vec, end: seq<Sg>)
    requires Mapping(q, all, done, prev, []) && Leads(q, done, prev, [], end) && done != []
    ensures |done| == MapCount(q, all) && SgBytes(done) == VecBytes(all) && done == end
    ensures SizesOk(q, [], all) ==> SizesOk(q, done, [])
  {
    assert SgBytes(done) + VecBytes([]) == SgBytes(done);
  }

  /** The entries after all of `rest`. */
  function Entries(q: Limits, done: seq<Sg>, prev: Vec, rest: seq<Vec>): seq<Sg>
    decreases |rest|
  {
    if rest == [] then done else Entries(q, MapStep(q, done, prev, rest[0]), rest[0], rest[1..])
  }

  /** The loop will end with `end`. */
  ghost predicate Leads(q: Limits, done: seq<Sg>, prev: Vec, rest: seq<Vec>, end: seq<Sg>) {
    Entries(q, done, prev, rest) == end
  }

  lemma {:induction false} LeadsOn(q: Limits, done: seq<Sg>, prev: Vec, rest: seq<Vec>, end: seq<Sg>)
    requires Leads(q, done, prev, rest, end) && rest != []
    ensures Leads(q, MapStep(q, done, prev, rest[0]), rest[0], rest[1..], end)
  {
  }

  /** What one more vector does to the list of entries. */
  function MapStep(q: Limits, done: seq<Sg>, prev: Vec, x: Vec): (done': seq<Sg>)
    ensures |done'| == |done| || |done'| == |done| + 1
    ensures done' != []
  {
    if done != [] && CanExtend(q, prev, done[|done| - 1].len, x) then
      done[..|done| - 1] + [Sg(done[|done| - 1].addr, done[|done| - 1].len + x.len)]
    else
      done + [Sg(x.addr, x.len)]
  }

  /** One round of the loop of blk_rq_map_sg. */
  method MapOne(q: Limits, sglist: array<Sg>, n: nat, prev: Vec, x: Vec) returns (nsegs: nat)
    requires n <= sglist.Length && |MapStep(q, sglist[..n], prev, x)| <= sglist.Length
    modifies sglist
    ensures nsegs == |MapStep(q, old(sglist[..n]), prev, x)|
    ensures sglist[..nsegs] == MapStep(q, old(sglist[..n]), prev, x)
  {
    if n > 0 && CanExtend(q, prev, sglist[n - 1].len, x) {
      sglist[n - 1] := Sg(sglist[n - 1].addr, sglist[n - 1].len + x.len);
      nsegs := n;
    } else {
      sglist[n] := Sg(x.addr, x.len);
      nsegs := n + 1;
    }
    assert sglist[..nsegs] == MapStep(q, old(sglist[..n]), prev, x);
  }

  lemma {:induction false} MapStepKeeps(q: Limits, all: seq<Vec>, done: seq<Sg>, prev: Vec, rest: seq<Vec>)
    requires Mapping(q, all, done, prev, rest) && rest != []
    ensures Mapping(q, all, MapStep(q, done, prev, rest[0]), rest[0], rest[1..])
    ensures |MapStep(q, done, prev, rest[0])| <= MapCount(q, all)
  {
    if done != [] && CanExtend(q, prev, done[|done| - 1].len, rest[0]) {
      MapStepExtends(q, all, done, prev, rest);
    } else {
      MapNew(q, all, done, prev, rest);
    }
  }

  lemma {:induction false} MapStepExtends(q: Limits, all: seq<Vec>, done: seq<Sg>, prev: Vec, rest: seq<Vec>)
    requires Mapping(q, all, done, prev, rest) && rest != []
    requires done != [] && CanExtend(q, prev, done[|done| - 1].len, rest[0])
    ensures Mapping(q, all, MapStep(q, done, prev, rest[0]), rest[0], rest[1..])
    ensures |MapStep(q, done, prev, rest[0])| <= MapCount(q, all)
  {
    var start, e := done[..|done| - 1], done[|done| - 1];
    assert done == start + [e];
    assert MapStep(q, done, prev, rest[0]) == start + [Sg(e.addr, e.len + rest[0].len)];
    MapExtend(q, all, start, e, prev, rest);
  }

  /** The same, with what the loop keeps. */
  method MapNext(q: Limits, sglist: array<Sg>, n: nat, prev: Vec, x: Vec, ghost all: seq<Vec>, ghost rest: seq<Vec>,
                 ghost end: seq<Sg>)
    returns (nsegs: nat)
    requires n <= sglist.Length && rest != [] && x == rest[0] && MapCount(q, all) <= sglist.Length
    requires Mapping(q, all, sglist[..n], prev, rest) && Leads(q, sglist[..n], prev, rest, end)
    modifies sglist
    ensures 0 < nsegs <= sglist.Length && Mapping(q, all, sglist[..nsegs], x, rest[1..])
    ensures Leads(q, sglist[..nsegs], x, rest[1..], end)
  {
    MapStepKeeps(q, all, sglist[..n], prev, rest);
    LeadsOn(q, sglist[..n], prev, rest, end);
    nsegs := MapOne(q, sglist, n, prev, x);
  }

  /** The vectors of one bio in the loop of blk_rq_map_sg. */
  method MapBio(q: Limits, sglist: array<Sg>, n: nat, prev: Vec, vecs: seq<Vec>, ghost all: seq<Vec>,
                ghost after: seq<Vec>, ghost end: seq<Sg>)
    returns (nsegs: nat)
    requires n <= sglist.Length && Mapping(q, all, sglist[..n], prev, vecs + after) && vecs != []
    requires MapCount(q, all) <= sglist.Length && Leads(q, sglist[..n], prev, vecs + after, end)
    modifies sglist
    ensures 0 < nsegs <= sglist.Length && Mapping(q, all, sglist[..nsegs], vecs[|vecs| - 1], after)
    ensures Leads(q, sglist[..nsegs], vecs[|vecs| - 1], after, end)
  {
    nsegs := n;
    var last := prev;
    var i := 0;
    ghost var rest := vecs + after;
    while i < |vecs|
      invariant 0 <= i <= |vecs| && nsegs <= sglist.Length && (i > 0 ==> nsegs > 0 && last == vecs[i - 1])
      invariant rest == vecs[i..] + after
      invariant Mapping(q, all, sglist[..nsegs], last, rest) && Leads(q, sglist[..nsegs], last, rest, end)
    {
      nsegs := MapNext(q, sglist, nsegs, last, vecs[i], all, rest, end);
      rest := rest[1..];
      last := vecs[i];
      i := i + 1;
    }
    assert rest == after;
  }

  // ---- where the entries begin and end ----

  /** The entries are the segments of a division of the vectors. */
  ghost predicate SlicedAt(q: Limits, vecs: seq<Vec>, n: nat, done: seq<Sg>, cuts: seq<nat>) {
    && Divided(q, false, vecs, n, cuts) && |done| == |cuts| - 1
    && (forall i :: 0 <= i < |done| ==> EntryAt(vecs, cuts, done, i))
  }

  /** Entry `i` begins where its first vector does and is as long as all of its vectors. */
  ghost predicate EntryAt(vecs: seq<Vec>, cuts: seq<nat>, done: seq<Sg>, i: nat)
    requires i < |done| == |cuts| - 1
  {
    && cuts[i] < |vecs| && cuts[i] <= cuts[i + 1] <= |vecs|
    && done[i] == Sg(vecs[cuts[i]].addr, Total(vecs, cuts[i], cuts[i + 1]))
  }

  ghost predicate Sliced(q: Limits, vecs: seq<Vec>, done: seq<Sg>) {
    exists cuts: seq<nat> :: SlicedAt(q, vecs, |vecs|, done, cuts)
  }

  /** No entry crosses a boundary. */
  ghost predicate AllInside(q: Limits, done: seq<Sg>) {
    forall i :: 0 <= i < |done| ==> InWindow(q.window, done[i].addr, done[i].len)
  }

  lemma {:induction false} EntriesSliced(q: Limits, vecs: seq<Vec>)
    requires vecs != []
    ensures Sliced(q, vecs, Entries(q, [], vecs[0], vecs))
  {
    var first := [Sg(vecs[0].addr, vecs[0].len)];
    DividedFirst(q, false, vecs);
    TotalOne(vecs, 0);
    assert SlicedAt(q, vecs, 1, first, [0, 1]);
    assert MapStep(q, [], vecs[0], vecs[0]) == first;
    EntriesSlicedFrom(q, vecs, 1, first, [0, 1]);
  }

  lemma {:induction false} EntriesSlicedFrom(q: Limits, vecs: seq<Vec>, n: nat, done: seq<Sg>, cuts: seq<nat>)
    requires 0 < n <= |vecs| && SlicedAt(q, vecs, n, done, cuts)
    ensures Sliced(q, vecs, Entries(q, done, vecs[n - 1], vecs[n..]))
    decreases |vecs| - n
  {
    if n < |vecs| {
      assert vecs[n..][0] == vecs[n] && vecs[n..][1..] == vecs[n + 1..];
      var cuts' := SliceStep(q, vecs, n, done, cuts);
      EntriesSlicedFrom(q, vecs, n + 1, MapStep(q, done, vecs[n - 1], vecs[n]), cuts');
    }
  }

  lemma {:induction false} SliceStep(q: Limits, vecs: seq<Vec>, n: nat, done: seq<Sg>, cuts: seq<nat>)
    returns (cuts': seq<nat>)
    requires 0 < n < |vecs| && SlicedAt(q, vecs, n, done, cuts)
    ensures SlicedAt(q, vecs, n + 1, MapStep(q, done, vecs[n - 1], vecs[n]), cuts')
  {
    var last := |done| - 1;
    var done' := MapStep(q, done, vecs[n - 1], vecs[n]);
    assert EntryAt(vecs, cuts, done, last);
    assert Segment(q, false, vecs, cuts[|cuts| - 2], cuts[|cuts| - 2 + 1]);
    if CanExtend(q, vecs[n - 1], done[last].len, vecs[n]) {
      DividedMore(q, false, vecs, n, cuts);
      cuts' := cuts[..|cuts| - 1] + [n + 1];
    } else {
      DividedNew(q, false, vecs, n, cuts);
      TotalOne(vecs, n);
      cuts' := cuts + [n + 1];
    }
    forall i | 0 <= i < |done'|
      ensures EntryAt(vecs, cuts', done', i)
    {
      if i < last {
        assert EntryAt(vecs, cuts, done, i);
      }
    }
  }

  /** No entry crosses a boundary if no vector does, and without clustering each vector is an entry. */
  lemma {:induction false} SlicedInside(q: Limits, vecs: seq<Vec>, done: seq<Sg>)
    requires Sliced(q, vecs, done)
    ensures Inside(q, vecs) ==> AllInside(q, done)
    ensures !q.cluster ==> |done| == |vecs|
  {
    var cuts: seq<nat> :| SlicedAt(q, vecs, |vecs|, done, cuts);
    if Inside(q, vecs) {
      forall i | 0 <= i < |done|
        ensures InWindow(q.window, done[i].addr, done[i].len)
      {
        assert EntryAt(vecs, cuts, done, i);
        assert Segment(q, false, vecs, cuts[i], cuts[i + 1]);
        assert InWindow(q.window, vecs[cuts[i]].addr, vecs[cuts[i]].len);
        SegmentInside(q, false, vecs, cuts[i], cuts[i + 1], cuts[i + 1]);
        TotalMono(vecs, cuts[i], cuts[i] + 1, cuts[i + 1]);
        TotalOne(vecs, cuts[i]);
        InWindowIff(q.window, done[i].addr, done[i].len);
      }
    }
    if !q.cluster {
      Unclustered(q, vecs, |vecs|, cuts, |cuts| - 1);
    }
  }

  lemma {:induction false} Unclustered(q: Limits, vecs: seq<Vec>, n: nat, cuts: seq<nat>, i: nat)
    requires Divided(q, false, vecs, n, cuts) && i < |cuts| && !q.cluster
    ensures cuts[i] == i
    decreases i
  {
    if i > 0 {
      Unclustered(q, vecs, n, cuts, i - 1);
      assert Segment(q, false, vecs, cuts[i - 1], cuts[i - 1 + 1]);
      assert cuts[i - 1] < i < cuts[i] ==> Together(q, false, vecs[i - 1], vecs[i]);
    }
  }

  /** The entries written so far and the vectors still to come name the bytes of the request. */
  ghost predicate SameBytes(all: seq<Vec>, done: seq<Sg>, rest: seq<Vec>) {
    SgBytes(done) + VecBytes(rest) == VecBytes(all)
  }

  /** How many entries are still to be written is known. */
  ghost predicate EntriesLeft(q: Limits, all: seq<Vec>, done: seq<Sg>, prev: Vec, rest: seq<Vec>) {
    && (done == [] ==> rest == all)
    && (done != [] ==>
          var e := done[|done| - 1];
          |done| + MapMore(q, prev, e.len, rest) == MapCount(q, all) && e.addr + e.len == prev.addr + prev.len)
  }

  /** No entry is bigger than the queue allows, if no vector is. */
  ghost predicate SizesOk(q: Limits, done: seq<Sg>, rest: seq<Vec>) {
    && (forall i :: 0 <= i < |done| ==> done[i].len <= q.maxSize)
    && (forall i :: 0 <= i < |rest| ==> rest[i].len <= q.maxSize)
  }

  /** What the loop of blk_rq_map_sg keeps. */
  ghost predicate Mapping(q: Limits, all: seq<Vec>, done: seq<Sg>, prev: Vec, rest: seq<Vec>) {
    && SameBytes(all, done, rest) && EntriesLeft(q, all, done, prev, rest)
    && (SizesOk(q, [], all) ==> SizesOk(q, done, rest))
  }

  lemma {:induction false} RangeSplit(addr: nat, n: nat, m: nat)
    ensures Range(addr, n + m) == Range(addr, n) + Range(addr + n, m)
  {
  }

  lemma {:induction false} Regroup(a: seq<nat>, b: seq<nat>, c: seq<nat>, d: seq<nat>)
    ensures a + (b + c) + d == a + b + (c + d)
    ensures a + b + d == a + (b + d)
  {
  }

  lemma {:induction false} BytesNew(all: seq<Vec>, done: seq<Sg>, rest: seq<Vec>)
    requires SameBytes(all, done, rest) && rest != []
    ensures SameBytes(all, done + [Sg(rest[0].addr, rest[0].len)], rest[1..])
  {
    var x := rest[0];
    SgAppend(done, Sg(x.addr, x.len));
    Regroup(SgBytes(done), Range(x.addr, x.len), [], VecBytes(rest[1..]));
  }

  lemma {:induction false} BytesExtend(all: seq<Vec>, start: seq<Sg>, e: Sg, rest: seq<Vec>)
    requires SameBytes(all, start + [e], rest) && rest != [] && e.addr + e.len == rest[0].addr
    ensures SameBytes(all, start + [Sg(e.addr, e.len + rest[0].len)], rest[1..])
  {
    var x := rest[0];
    SgAppend(start, e);
    SgAppend(start, Sg(e.addr, e.len + x.len));
    RangeSplit(e.addr, e.len, x.len);
    Regroup(SgBytes(start), Range(e.addr, e.len), Range(x.addr, x.len), VecBytes(rest[1..]));
  }

  lemma {:induction false} CountNewEntry(q: Limits, all: seq<Vec>, done: seq<Sg>, prev: Vec, rest: seq<Vec>)
    requires EntriesLeft(q, all, done, prev, rest) && rest != []
    requires done == [] || !CanExtend(q, prev, done[|done| - 1].len, rest[0])
    ensures |done| < MapCount(q, all)
    ensures EntriesLeft(q, all, done + [Sg(rest[0].addr, rest[0].len)], rest[0], rest[1..])
  {
  }

  lemma {:induction false} CountLonger(q: Limits, all: seq<Vec>, start: seq<Sg>, e: Sg, prev: Vec, rest: seq<Vec>)
    requires EntriesLeft(q, all, start + [e], prev, rest) && rest != [] && CanExtend(q, prev, e.len, rest[0])
    ensures e.addr + e.len == rest[0].addr
    ensures EntriesLeft(q, all, start + [Sg(e.addr, e.len + rest[0].len)], rest[0], rest[1..])
  {
    assert (start + [e])[|start|] == e;
  }

  lemma {:induction false} SizesNew(q: Limits, done: seq<Sg>, rest: seq<Vec>)
    requires SizesOk(q, done, rest) && rest != []
    ensures SizesOk(q, done + [Sg(rest[0].addr, rest[0].len)], rest[1..])
  {
  }

  lemma {:induction false} SizesLonger(q: Limits, start: seq<Sg>, e: Sg, rest: seq<Vec>)
    requires SizesOk(q, start + [e], rest) && rest != [] && e.len + rest[0].len <= q.maxSize
    ensures SizesOk(q, start + [Sg(e.addr, e.len + rest[0].len)], rest[1..])
  {
    var done := start + [e];
    assert forall i :: 0 <= i < |start| ==> start[i] == done[i];
  }

  lemma {:induction false} MapNew(q: Limits, all: seq<Vec>, done: seq<Sg>, prev: Vec, rest: seq<Vec>)
    requires Mapping(q, all, done, prev, rest) && rest != []
    requires done == [] || !CanExtend(q, prev, done[|done| - 1].len, rest[0])
    ensures |done| < MapCount(q, all)
    ensures Mapping(q, all, done + [Sg(rest[0].addr, rest[0].len)], rest[0], rest[1..])
  {
    BytesNew(all, done, rest);
    CountNewEntry(q, all, done, prev, rest);
    if SizesOk(q, [], all) {
      SizesNew(q, done, rest);
    }
  }

  lemma {:induction false} MapExtend(q: Limits, all: seq<Vec>, start: seq<Sg>, e: Sg, prev: Vec, rest: seq<Vec>)
    requires Mapping(q, all, start + [e], prev, rest) && rest != []
    requires CanExtend(q, prev, e.len, rest[0])
    ensures Mapping(q, all, start + [Sg(e.addr, e.len + rest[0].len)], rest[0], rest[1..])
  {
    CountLonger(q, all, start, e, prev, rest);
    BytesExtend(all, start, e, rest);
    if SizesOk(q, [], all) {
      SizesLonger(q, start, e, rest);
    }
  }

  /** blk_phys_contig_segment on two bios with data. */
  predicate Contiguous(q: Limits, tail: Bio, next: Bio)
    requires tail.vecs != [] && next.vecs != []
  {
    q.cluster && tail.back + next.front <= q.maxSize && Linked(q, tail.vecs[|tail.vecs| - 1], next.vecs[0])
  }

  lemma {:induction false} FlatEnds(bios: seq<Bio>)
    requires HasData(bios)
    ensures Flat(bios) != [] && Flat(bios)[0] == bios[0].vecs[0]
    ensures var t := bios[|bios| - 1].vecs; Flat(bios)[|Flat(bios)| - 1] == t[|t| - 1]
    decreases |bios|
  {
    if |bios| > 1 {
      FlatEnds(bios[1..]);
    } else {
      assert bios[1..] == [];
    }
  }

  /** The last segment of one request may grow into the first of the other. */
  ghost predicate Touching(q: Limits, req: Request, next: Request)
    requires HasData(req.bios) && HasData(next.bios)
    reads req, next
  {
    Contiguous(q, req.bios[|req.bios| - 1], next.bios[0])
  }

  /** Two requests touch exactly when clustering is on, their recorded edge sizes fit one segment, and the last vector
      of the one and the first of the other touch within one window. */
  lemma {:induction false} TouchingIff(q: Limits, req: Request, next: Request)
    requires HasData(req.bios) && HasData(next.bios)
    ensures var v, w := req.Vecs(), next.Vecs();
            && v != [] && w != []
            && (Touching(q, req, next) <==>
                  && q.cluster && req.bios[|req.bios| - 1].back + next.bios[0].front <= q.maxSize
                  && Touch(v[|v| - 1], w[0]) && SameWindow(q, v[|v| - 1], w[0]))
  {
    FlatEnds(req.bios);
    FlatEnds(next.bios);
  }

  /** The segment count ll_merge_requests_fn arrives at, with the sizes it records on the way. */
  method JoinCount(q: Limits, req: Request, next: Request) returns (total: nat)
    requires req != next && req.Valid(q) && next.Valid(q)
    modifies req`bios, next`bios
    ensures req.Valid(q) && next.Valid(q)
    ensures req.Vecs() == old(req.Vecs()) && next.Vecs() == old(next.Vecs())
    ensures req.nr + next.nr >= 1
    ensures total == req.nr + next.nr - if old(Touching(q, req, next)) then 1 else 0
    ensures Coverable(q, req.Vecs() + next.Vecs(), total, req.bios[0].front, next.bios[|next.bios| - 1].back)
  {
    var tail := req.bios[|req.bios| - 1];
    var head := next.bios[0];
    total := req.nr + next.nr;
    if !Contiguous(q, tail, head) {
      SideBySide(q, req.Vecs(), req.nr, req.bios[0].front, tail.back,
                 next.Vecs(), next.nr, head.front, next.bios[|next.bios| - 1].back);
      return;
    }
    total := total - 1;
    RecordJoin(q, req, next);
  }

  /** The sizes ll_merge_requests_fn records when the last segment of one request and the first
      of the next become one. */
  method RecordJoin(q: Limits, req: Request, next: Request)
    requires req != next && req.Valid(q) && next.Valid(q)
    requires Contiguous(q, req.bios[|req.bios| - 1], next.bios[0])
    modifies req`bios, next`bios
    ensures req.Valid(q) && next.Valid(q) && req.nr + next.nr >= 1
    ensures req.Vecs() == old(req.Vecs()) && next.Vecs() == old(next.Vecs())
    ensures Coverable(q, req.Vecs() + next.Vecs(), req.nr + next.nr - 1, req.bios[0].front,
            next.bios[|next.bios| - 1].back)
  {
    var segSize := req.bios[|req.bios| - 1].back + next.bios[0].front;
    RecordedSizes(q, req.bios, req.nr, next.bios, next.nr);
    if req.nr == 1 {
      req.SetFront(segSize);
    }
    if next.nr == 1 {
      next.SetBack(segSize);
    }
  }

  lemma {:induction false} RecordedSizes(q: Limits, a: seq<Bio>, n: nat, b: seq<Bio>, m: nat)
    requires HasData(a) && HasData(b) && Contiguous(q, a[|a| - 1], b[0])
    requires Coverable(q, Flat(a), n, a[0].front, a[|a| - 1].back)
    requires Coverable(q, Flat(b), m, b[0].front, b[|b| - 1].back)
    ensures n >= 1 && m >= 1
    ensures var s := a[|a| - 1].back + b[0].front;
            var front := if n == 1 then s else a[0].front;
            var back := if m == 1 then s else b[|b| - 1].back;
            && Coverable(q, Flat(a), n, front, a[|a| - 1].back)
            && Coverable(q, Flat(b), m, b[0].front, back)
            && Coverable(q, Flat(a) + Flat(b), n + m - 1, front, back)
  {
    FlatEnds(a);
    FlatEnds(b);
    JoinedSizes(q, Flat(a), n, a[0].front, a[|a| - 1].back, Flat(b), m, b[0].front, b[|b| - 1].back);
  }

  /** ll_merge_requests_fn and the splice of attempt_merge, `mergeable` standing for the checks
      that look at neither segments nor sizes. */
  method MergeRequests(q: Limits, req: Request, next: Request, mergeable: bool) returns (ok: bool)
    requires req != next && req.Valid(q) && next.Valid(q)
    modifies req, next
    ensures req.Valid(q)
    ensures ok ==> req.Vecs() == old(req.Vecs() + next.Vecs()) && req.nr <= q.maxSegs
    ensures ok ==> req.sectors == old(req.sectors + next.sectors) && req.sectors <= q.maxSectors && next.bios == []
    ensures ok ==> req.nr == old(req.nr + next.nr) - if old(Touching(q, req, next)) then 1 else 0
    ensures ok <==> mergeable && old(req.sectors + next.sectors) <= q.maxSectors
                    && old(req.nr + next.nr) - (if old(Touching(q, req, next)) then 1 else 0) <= q.maxSegs
    ensures !ok ==> next.Valid(q) && req.Vecs() == old(req.Vecs()) && next.Vecs() == old(next.Vecs())
    ensures !ok ==> req.nr == old(req.nr) && next.nr == old(next.nr)
  {
    if !mergeable || req.sectors + next.sectors > q.maxSectors {
      return false;
    }
    var total := JoinCount(q, req, next);
    if total > q.maxSegs {
      return false;
    }
    req.Splice(q, next, total);
    return true;
  }

  /** The sizes ll_merge_requests_fn leaves behind when the two requests touch. */
  lemma {:induction false} JoinedSizes(q: Limits, v: seq<Vec>, n: nat, front: nat, back: nat, v': seq<Vec>,
                                       m: nat, front': nat, back': nat)
    requires Coverable(q, v, n, front, back) && Coverable(q, v', m, front', back')
    requires q.cluster && back + front' <= q.maxSize && Linked(q, v[|v| - 1], v'[0])
    ensures n >= 1 && m >= 1
    ensures var s := back + front';
            && Coverable(q, v, n, if n == 1 then s else front, back)
            && Coverable(q, v', m, front', if m == 1 then s else back')
            && Coverable(q, v + v', n + m - 1, if n == 1 then s else front, if m == 1 then s else back')
  {
    var s := back + front';
    Joined(q, v, n, front, back, v', m, front', back');
    if n == 1 {
      OneSegment(q, v, front, back);
      Loosen(q, v, 1, back, back, s, back);
    }
    if m == 1 {
      OneSegment(q, v', front', back');
      Loosen(q, v', 1, front', front', front', s);
    }
  }
}
