/** Where the segments of a request begin and end, said by index and address alone. */
module SegmentDivision {
  import opened Arithmetic
  import opened Segments

  /** `b` begins where `a` ends. */
  predicate Touch(a: Vec, b: Vec) { a.addr + a.len == b.addr }

  /** From the first byte of `a` to the last of `b` no boundary of the device's window is crossed. */
  predicate SameWindow(q: Limits, a: Vec, b: Vec) {
    q.window > 0 && b.addr + b.len > 0 && Frame(a.addr, q.window) == Frame(b.addr + b.len - 1, q.window)
  }

  /** Neighbours within one segment; where pages are bounced, neither of them may be. */
  predicate Together(q: Limits, bounce: bool, a: Vec, b: Vec) {
    q.cluster && Touch(a, b) && SameWindow(q, a, b) && (bounce ==> !a.high && !b.high)
  }

  function Total(vecs: seq<Vec>, lo: nat, hi: nat): nat
    requires lo <= hi <= |vecs|
    decreases hi
  {
    if lo == hi then 0 else Total(vecs, lo, hi - 1) + vecs[hi - 1].len
  }

  /** The vectors from `lo` up to `hi` are a segment. */
  ghost predicate Segment(q: Limits, bounce: bool, vecs: seq<Vec>, lo: nat, hi: nat) {
    && lo < hi <= |vecs|
    && (forall k :: lo < k < hi ==> Together(q, bounce, vecs[k - 1], vecs[k]))
    && (hi > lo + 1 ==> Total(vecs, lo, hi) <= q.maxSize)
  }

  /** A segment that ends at `hi` could not go on: clustering is off, the next vector does not touch, the pair
      leaves its window, a page is bounced, or it would be too big. */
  ghost predicate Ends(q: Limits, bounce: bool, vecs: seq<Vec>, lo: nat, hi: nat) {
    lo < hi < |vecs| &&
    (|| !q.cluster || !Touch(vecs[hi - 1], vecs[hi]) || !SameWindow(q, vecs[hi - 1], vecs[hi])
     || (bounce && (vecs[hi - 1].high || vecs[hi].high))
     || Total(vecs, lo, hi) + vecs[hi].len > q.maxSize)
  }

  /** `cuts` are where the segments of the first `n` vectors begin, and where the last of them ends. */
  ghost predicate Divided(q: Limits, bounce: bool, vecs: seq<Vec>, n: nat, cuts: seq<nat>) {
    && |cuts| >= 2 && cuts[0] == 0 && cuts[|cuts| - 1] == n <= |vecs|
    && (forall i :: 0 <= i < |cuts| - 1 ==> Segment(q, bounce, vecs, cuts[i], cuts[i + 1]))
    && (forall i :: 0 <= i < |cuts| - 2 ==> Ends(q, bounce, vecs, cuts[i], cuts[i + 1]))
  }

  lemma {:induction false} TotalOne(vecs: seq<Vec>, k: nat)
    requires k < |vecs|
    ensures Total(vecs, k, k + 1) == vecs[k].len
  {
    assert Total(vecs, k, k) == 0;
  }

  lemma {:induction false} DividedFirst(q: Limits, bounce: bool, vecs: seq<Vec>)
    requires vecs != []
    ensures Divided(q, bounce, vecs, 1, [0, 1])
  {
  }

  /** The next vector begins a segment. */
  lemma {:induction false} DividedNew(q: Limits, bounce: bool, vecs: seq<Vec>, n: nat, cuts: seq<nat>)
    requires Divided(q, bounce, vecs, n, cuts) && Ends(q, bounce, vecs, cuts[|cuts| - 2], n)
    ensures Divided(q, bounce, vecs, n + 1, cuts + [n + 1])
  {
    var c := cuts + [n + 1];
    forall i | 0 <= i < |c| - 1
      ensures Segment(q, bounce, vecs, c[i], c[i + 1])
    {
      if i < |cuts| - 1 {
        assert Segment(q, bounce, vecs, cuts[i], cuts[i + 1]);
      }
    }
    forall i | 0 <= i < |c| - 2
      ensures Ends(q, bounce, vecs, c[i], c[i + 1])
    {
      if i < |cuts| - 2 {
        assert Ends(q, bounce, vecs, cuts[i], cuts[i + 1]);
      }
    }
  }

  /** The next vector joins the last segment. */
  lemma {:induction false} DividedMore(q: Limits, bounce: bool, vecs: seq<Vec>, n: nat, cuts: seq<nat>)
    requires Divided(q, bounce, vecs, n, cuts) && n < |vecs| && Together(q, bounce, vecs[n - 1], vecs[n])
    requires Total(vecs, cuts[|cuts| - 2], n) + vecs[n].len <= q.maxSize
    ensures Divided(q, bounce, vecs, n + 1, cuts[..|cuts| - 1] + [n + 1])
  {
    var c := cuts[..|cuts| - 1] + [n + 1];
    assert |c| == |cuts| && forall i :: 0 <= i < |c| - 1 ==> c[i] == cuts[i];
    forall i | 0 <= i < |c| - 1
      ensures Segment(q, bounce, vecs, c[i], c[i + 1])
    {
      assert Segment(q, bounce, vecs, cuts[i], cuts[i + 1]);
    }
    forall i | 0 <= i < |c| - 2
      ensures Ends(q, bounce, vecs, c[i], c[i + 1])
    {
      assert Ends(q, bounce, vecs, cuts[i], cuts[i + 1]);
    }
  }

  // ---- no segment crosses a boundary ----

  /** A range that is not empty and lies within one window of the device. */
  ghost predicate InWindow(window: nat, addr: nat, len: nat) {
    window > 0 && len > 0 && exists f: nat :: Times(f, window) <= addr && addr + len <= Times(f + 1, window)
  }

  ghost predicate Inside(q: Limits, vecs: seq<Vec>) {
    forall k :: 0 <= k < |vecs| ==> InWindow(q.window, vecs[k].addr, vecs[k].len)
  }

  /** Ranges that lie within one window are those whose ends do. */
  lemma {:induction false} InWindowIff(window: nat, addr: nat, len: nat)
    requires window > 0 && len > 0
    ensures InWindow(window, addr, len) <==> Frame(addr, window) == Frame(addr + len - 1, window)
  {
    FrameBounds(addr, window);
    FrameBounds(addr + len - 1, window);
    if InWindow(window, addr, len) {
      var f: nat :| Times(f, window) <= addr && addr + len <= Times(f + 1, window);
      FrameOnly(addr, window, f);
      FrameOnly(addr + len - 1, window, f);
    }
  }

  lemma {:induction false} SegmentInside(q: Limits, bounce: bool, vecs: seq<Vec>, lo: nat, hi: nat, upto: nat)
    requires Inside(q, vecs) && Segment(q, bounce, vecs, lo, hi) && lo < upto <= hi
    ensures vecs[lo].addr + Total(vecs, lo, upto) == vecs[upto - 1].addr + vecs[upto - 1].len
    ensures SameWindow(q, vecs[lo], vecs[upto - 1])
    decreases upto
  {
    if upto == lo + 1 {
      TotalOne(vecs, lo);
      assert InWindow(q.window, vecs[lo].addr, vecs[lo].len);
      InWindowIff(q.window, vecs[lo].addr, vecs[lo].len);
    } else {
      SegmentInside(q, bounce, vecs, lo, hi, upto - 1);
      assert Together(q, bounce, vecs[upto - 2], vecs[upto - 1]);
      assert InWindow(q.window, vecs[upto - 2].addr, vecs[upto - 2].len);
      InWindowIff(q.window, vecs[upto - 2].addr, vecs[upto - 2].len);
    }
  }

  // ---- the division is the only one ----

  /** Two divisions begin their segments at the same vectors. */
  lemma {:induction false} DividedOnce(q: Limits, bounce: bool, vecs: seq<Vec>, n: nat, a: seq<nat>, b: seq<nat>,
                                       i: nat)
    requires Divided(q, bounce, vecs, n, a) && Divided(q, bounce, vecs, n, b) && i < |a| && i < |b|
    ensures a[i] == b[i]
    decreases i
  {
    if i > 0 {
      DividedOnce(q, bounce, vecs, n, a, b, i - 1);
      if a[i] < b[i] {
        NotShorter(q, bounce, vecs, n, a, b, i);
        assert false;
      }
      if b[i] < a[i] {
        NotShorter(q, bounce, vecs, n, b, a, i);
        assert false;
      }
    }
  }

  lemma {:induction false} TotalMono(vecs: seq<Vec>, lo: nat, hi: nat, more: nat)
    requires lo <= hi <= more <= |vecs|
    ensures Total(vecs, lo, hi) <= Total(vecs, lo, more)
    decreases more
  {
    if hi < more {
      TotalMono(vecs, lo, hi, more - 1);
    }
  }

  lemma {:induction false} CutsUp(q: Limits, bounce: bool, vecs: seq<Vec>, n: nat, a: seq<nat>, i: nat)
    requires Divided(q, bounce, vecs, n, a) && i < |a|
    ensures a[i] <= n && (i < |a| - 1 ==> a[i] < n)
    decreases |a| - i
  {
    if i < |a| - 1 {
      CutsUp(q, bounce, vecs, n, a, i + 1);
      assert Segment(q, bounce, vecs, a[i], a[i + 1]);
    }
  }

  lemma {:induction false} NotShorter(q: Limits, bounce: bool, vecs: seq<Vec>, n: nat, a: seq<nat>, b: seq<nat>, i: nat)
    requires Divided(q, bounce, vecs, n, a) && Divided(q, bounce, vecs, n, b) && 0 < i < |a| && i < |b|
    requires a[i - 1] == b[i - 1]
    ensures a[i] >= b[i]
  {
    if a[i] < b[i] {
      CutsUp(q, bounce, vecs, n, b, i);
      var lo, hi := a[i - 1], a[i];
      assert i < |a| - 1;
      assert Segment(q, bounce, vecs, b[i - 1], b[i - 1 + 1]) && Ends(q, bounce, vecs, a[i - 1], a[i - 1 + 1]);
      assert Together(q, bounce, vecs[hi - 1], vecs[hi]);
      TotalMono(vecs, lo, hi + 1, b[i]);
      assert false;
    }
  }

  // ---- the counter's division ----

  /** The counting of __blk_recalc_rq_segments: its count is the number of segments of the division that shares no
      bounced page, and its two sizes are those of the first and the last of them. */
  lemma {:induction false} RecalcDivides(q: Limits, vecs: seq<Vec>) returns (cuts: seq<nat>)
    requires vecs != []
    ensures Divided(q, true, vecs, |vecs|, cuts) && RecalcCount(q, vecs) == |cuts| - 1
    ensures RecalcFront(q, vecs) == Total(vecs, 0, cuts[1])
    ensures RecalcBack(q, vecs) == Total(vecs, cuts[|cuts| - 2], |vecs|)
  {
    DividedFirst(q, true, vecs);
    TotalOne(vecs, 0);
    cuts := RecalcFrom(q, vecs, 1, [0, 1], vecs[0].len);
    CutsUp(q, true, vecs, |vecs|, cuts, 1);
    CutsUp(q, true, vecs, |vecs|, cuts, |cuts| - 2);
  }

  /** From `cuts` the counter, with `size` bytes in the open segment, arrives at `all`. */
  ghost predicate Counts(q: Limits, vecs: seq<Vec>, n: nat, cuts: seq<nat>, size: nat, all: seq<nat>)
    requires 0 < n <= |vecs|
  {
    var starts := RecalcStarts(q, vecs[n - 1], size, vecs[n..]);
    && 2 <= |cuts| <= |all| && all[1] <= |vecs| && all[|all| - 2] <= |vecs|
    && |all| == |cuts| + Starts(starts) && (|cuts| > 2 ==> all[1] == cuts[1])
    && LastSize(size, vecs[n..], starts) == Total(vecs, all[|all| - 2], |vecs|)
    && (|cuts| == 2 ==> FirstSize(size, vecs[n..], starts) == Total(vecs, 0, all[1]))
  }

  lemma {:induction false} RecalcFrom(q: Limits, vecs: seq<Vec>, n: nat, cuts: seq<nat>, size: nat)
    returns (all: seq<nat>)
    requires 0 < n <= |vecs| && Divided(q, true, vecs, n, cuts)
    requires cuts[|cuts| - 2] <= n && size == Total(vecs, cuts[|cuts| - 2], n)
    ensures Divided(q, true, vecs, |vecs|, all) && Counts(q, vecs, n, cuts, size, all)
    decreases |vecs| - n
  {
    if n == |vecs| {
      all := cuts;
      CutsUp(q, true, vecs, n, cuts, 1);
    } else {
      var more := RecalcJoins(q, vecs, n, size);
      var cuts' := if more then cuts[..|cuts| - 1] + [n + 1] else cuts + [n + 1];
      var size' := if more then size + vecs[n].len else vecs[n].len;
      RecalcCutMore(q, vecs, n, cuts, size);
      all := RecalcFrom(q, vecs, n + 1, cuts', size');
      CountsOn(q, vecs, n, cuts, size, all);
    }
  }

  predicate RecalcJoins(q: Limits, vecs: seq<Vec>, n: nat, size: nat)
    requires 0 < n < |vecs|
  {
    !vecs[n].high && !vecs[n - 1].high && CanExtend(q, vecs[n - 1], size, vecs[n])
  }

  lemma {:induction false} RecalcCutMore(q: Limits, vecs: seq<Vec>, n: nat, cuts: seq<nat>, size: nat)
    requires 0 < n < |vecs| && Divided(q, true, vecs, n, cuts)
    requires cuts[|cuts| - 2] <= n && size == Total(vecs, cuts[|cuts| - 2], n)
    ensures var more := RecalcJoins(q, vecs, n, size);
            var cuts' := if more then cuts[..|cuts| - 1] + [n + 1] else cuts + [n + 1];
            && Divided(q, true, vecs, n + 1, cuts') && cuts'[|cuts'| - 2] <= n + 1
            && Total(vecs, cuts'[|cuts'| - 2], n + 1) == if more then size + vecs[n].len else vecs[n].len
  {
    assert Segment(q, true, vecs, cuts[|cuts| - 2], cuts[|cuts| - 2 + 1]);
    if RecalcJoins(q, vecs, n, size) {
      DividedMore(q, true, vecs, n, cuts);
    } else {
      DividedNew(q, true, vecs, n, cuts);
      TotalOne(vecs, n);
    }
  }

  lemma {:induction false} CountsOn(q: Limits, vecs: seq<Vec>, n: nat, cuts: seq<nat>, size: nat, all: seq<nat>)
    requires 0 < n < |vecs| && |cuts| >= 2 && cuts[1] <= |vecs|
    requires |cuts| == 2 ==> cuts == [0, n] && size == Total(vecs, 0, n)
    requires var more := RecalcJoins(q, vecs, n, size);
             Counts(q, vecs, n + 1, if more then cuts[..|cuts| - 1] + [n + 1] else cuts + [n + 1],
                    if more then size + vecs[n].len else vecs[n].len, all)
    ensures Counts(q, vecs, n, cuts, size, all)
  {
    var rest := vecs[n..];
    assert rest[0] == vecs[n] && rest[1..] == vecs[n + 1..];
    RecalcNext(q, vecs[n - 1], size, rest);
  }

  /** What the counter does with the first of `rest`. */
  lemma {:induction false} RecalcNext(q: Limits, prev: Vec, size: nat, rest: seq<Vec>)
    requires rest != []
    ensures var starts := RecalcStarts(q, prev, size, rest);
            var more := !rest[0].high && !prev.high && CanExtend(q, prev, size, rest[0]);
            var size' := if more then size + rest[0].len else rest[0].len;
            var starts' := RecalcStarts(q, rest[0], size', rest[1..]);
            && Starts(starts) == Starts(starts') + (if more then 0 else 1)
            && LastSize(size, rest, starts) == LastSize(size', rest[1..], starts')
            && FirstSize(size, rest, starts) == if more then FirstSize(size', rest[1..], starts') else size
  {
    var more := !rest[0].high && !prev.high && CanExtend(q, prev, size, rest[0]);
    var size' := if more then size + rest[0].len else rest[0].len;
    var starts' := RecalcStarts(q, rest[0], size', rest[1..]);
    assert ([!more] + starts')[1..] == starts';
  }
}
