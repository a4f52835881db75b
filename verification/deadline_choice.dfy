/** Which request the deadline scheduler takes next, and that it sweeps upwards (block/deadline-iosched.c). */
module DeadlineChoice {
  import opened Lists
  import opened DeadlineModel
  import opened DeadlineInvariant
  import opened DeadlinePlaces
  import opened DeadlineProgress

  /** A running batch goes on with the next request, whatever has expired, until fifo_batch are taken. */
  lemma {:induction false} BatchGoesOn(d: DD, dir: bool, n: Id)
    requires Ok(d) && d.At(dir).next == Some(n) && d.batching < d.fifoBatch
    ensures Dispatch(d).out == d.out + [n]
    ensures Dispatch(d).batching == d.batching + 1 && Dispatch(d).starved == d.starved
  {
  }

  /** No batch is running: fifo_batch are taken, or neither direction has a next request. */
  predicate BatchOver(d: DD) { d.batching >= d.fifoBatch || (d.read.next.None? && d.write.next.None?) }

  /** Then a new batch begins, of reads unless there are none or writes have been passed over writes_starved times;
      passing over waiting writes is counted, and taking them clears the count. */
  lemma {:induction false} NewBatchDirection(d: DD)
    requires Ok(d) && BatchOver(d) && (d.read.fifo != [] || d.write.fifo != [])
    ensures Dispatch(d).batching == 1
    ensures d.read.fifo != [] && (d.write.fifo == [] || d.starved < d.writesStarved) ==>
              (exists x :: x in d.read.fifo && Dispatch(d).out == d.out + [x])
              && Dispatch(d).starved == d.starved + if d.write.fifo == [] then 0 else 1
    ensures d.read.fifo == [] || (d.write.fifo != [] && d.starved >= d.writesStarved) ==>
              (exists x :: x in d.write.fifo && Dispatch(d).out == d.out + [x]) && Dispatch(d).starved == 0
  {
    var dir, x, d' := DispatchShape(d);
  }

  /** In its direction a new batch begins with the oldest request if that has expired or there is no next one, and
      otherwise goes on where the last batch of that direction ended. */
  lemma {:induction false} NewBatchHead(d: DD, dir: bool)
    requires Ok(d) && BatchOver(d) && d.At(dir).fifo != []
    requires if dir then d.read.fifo == [] || d.starved >= d.writesStarved
             else d.write.fifo == [] || d.starved < d.writesStarved
    ensures var l := d.At(dir);
            && l.fifo[0] in d.due
            && (l.next.None? || d.due[l.fifo[0]] < d.now ==> Dispatch(d).out == d.out + [l.fifo[0]])
            && (l.next.Some? && d.due[l.fifo[0]] >= d.now ==> Dispatch(d).out == d.out + [l.next.value])
  {
    assert DirOk(d, dir) && d.At(dir).fifo[0] in d.At(dir).fifo;
    var dir', x, d' := DispatchShape(d);
  }

  // ---- one sweep ----

  /** Only direction `dir` is queued, nothing of it has expired, and the next request is number `i` in sector order. */
  ghost predicate Sweeping(d: DD, dir: bool, i: nat) {
    && Ok(d) && d.At(!dir).fifo == [] && i < |d.At(dir).sort| && d.At(dir).next == Some(d.At(dir).sort[i])
    && forall x :: x in d.At(dir).fifo ==> x in d.due && d.due[x] >= d.now
  }

  lemma {:induction false} TakesNext(d: DD, dir: bool, i: nat)
    requires Sweeping(d, dir, i)
    ensures d.At(dir).sort[i] in d.At(dir).fifo
    ensures Dispatch(d).out == d.out + [d.At(dir).sort[i]]
  {
    var n := d.At(dir).sort[i];
    assert DirOk(d, dir) && n in d.At(dir).sort && n in d.At(dir).fifo;
    if d.batching < d.fifoBatch {
      BatchGoesOn(d, dir, n);
    } else {
      assert d.At(dir).fifo[0] in d.At(dir).fifo;
      NewBatchHead(d, dir);
    }
  }

  lemma {:induction false} LatterAt(l: seq<Id>, i: nat)
    requires NoDup(l) && i < |l|
    ensures Latter(l, l[i]) == if i + 1 < |l| then Some(l[i + 1]) else None
  {
    if i > 0 && |l| >= 2 {
      assert NoDup(l[1..]) && l[0] != l[i];
      LatterAt(l[1..], i - 1);
    }
  }

  lemma {:induction false} WithoutAt(l: seq<Id>, i: nat)
    requires NoDup(l) && i < |l|
    ensures Without(l, l[i]) == l[..i] + l[i + 1..]
  {
    assert NoDup(l[1..]);
    if i == 0 {
      WithoutKeeps(l, l[0], map[]);
    } else {
      assert l[0] != l[i] && l[1..][i - 1] == l[i];
      WithoutAt(l[1..], i - 1);
      assert l[..i] + l[i + 1..] == [l[0]] + (l[1..][..i - 1] + l[1..][i..]);
    }
  }

  lemma {:induction false} SweepsOn(d: DD, dir: bool, i: nat)
    requires Sweeping(d, dir, i)
    ensures var s := d.At(dir).sort;
            && Dispatch(d).At(dir).sort == s[..i] + s[i + 1..]
            && (i + 1 < |s| ==> Sweeping(Dispatch(d), dir, i))
  {
    var l := d.At(dir);
    var n := l.sort[i];
    TakesNext(d, dir, i);
    DispatchOk(d);
    var dir', x, d' := DispatchShape(d);
    assert (d.out + [x])[|d.out|] == x && (d.out + [n])[|d.out|] == n;
    assert x == n && dir' == dir;
    assert NoDup(l.sort) by { assert DirOk(d, dir); }
    MoveAims(d', dir, n);
    LatterAt(l.sort, i);
    WithoutAt(l.sort, i);
  }

  /** Each state comes from the one before it by a dispatch. */
  ghost predicate Dispatches(ds: seq<DD>) {
    forall k :: 0 < k < |ds| ==> Dispatched(ds, k)
  }

  ghost predicate Dispatched(ds: seq<DD>, k: nat)
    requires 0 < k < |ds|
  {
    ds[k] == Dispatch(ds[k - 1])
  }

  /** Of the requests `s` in sector order those from number `i` on, `n` of them, have been taken. */
  ghost predicate Taken(d: DD, dir: bool, s: seq<Id>, i: nat, n: nat, out: seq<Id>)
    requires i + n <= |s|
  {
    d.out == out + s[i..i + n] && d.At(dir).sort == s[..i] + s[i + n..]
  }

  lemma {:induction false} TakenMore(d: DD, d': DD, dir: bool, s: seq<Id>, i: nat, n: nat, out: seq<Id>)
    requires i + n < |s| && Taken(d, dir, s, i, n, out) && d'.out == d.out + [d.At(dir).sort[i]]
    requires d'.At(dir).sort == d.At(dir).sort[..i] + d.At(dir).sort[i + 1..]
    ensures Taken(d', dir, s, i, n + 1, out) && |d.At(dir).sort| == |s| - n
  {
    assert d.At(dir).sort[i] == s[i + n];
    assert s[i..i + n] + [s[i + n]] == s[i..i + (n + 1)];
    assert d.At(dir).sort[..i] == s[..i] && d.At(dir).sort[i + 1..] == s[i + n + 1..];
  }

  lemma {:induction false} Swept(ds: seq<DD>, dir: bool, i: nat, n: nat) returns (d': DD)
    requires Dispatches(ds) && 0 < n < |ds| && Sweeping(ds[n - 1], dir, i)
    ensures d' == ds[n] && d'.out == ds[n - 1].out + [ds[n - 1].At(dir).sort[i]]
    ensures d'.At(dir).sort == ds[n - 1].At(dir).sort[..i] + ds[n - 1].At(dir).sort[i + 1..]
    ensures i + 1 < |ds[n - 1].At(dir).sort| ==> Sweeping(d', dir, i)
  {
    assert Dispatched(ds, n);
    TakesNext(ds[n - 1], dir, i);
    SweepsOn(ds[n - 1], dir, i);
    d' := ds[n];
  }

  lemma {:induction false} SweepStep(ds: seq<DD>, dir: bool, s: seq<Id>, i: nat, n: nat, out: seq<Id>)
    requires Dispatches(ds) && 0 < n < |ds| && i + n <= |s|
    requires Sweeping(ds[n - 1], dir, i) && Taken(ds[n - 1], dir, s, i, n - 1, out)
    ensures Taken(ds[n], dir, s, i, n, out)
    ensures i + n < |s| ==> Sweeping(ds[n], dir, i)
  {
    var d' := Swept(ds, dir, i, n);
    TakenMore(ds[n - 1], d', dir, s, i, n - 1, out);
  }

  /** While one direction is served and none of it has expired, the dispatches take its requests one after the other in
      sector order from the next one upwards, over the ends of batches too. */
  lemma {:induction false} OneSweep(ds: seq<DD>, dir: bool, i: nat, n: nat, s: seq<Id>)
    requires Dispatches(ds) && n < |ds| && Sweeping(ds[0], dir, i) && s == ds[0].At(dir).sort && i + n <= |s|
    ensures Taken(ds[n], dir, s, i, n, ds[0].out)
    ensures i + n < |s| ==> Sweeping(ds[n], dir, i)
    decreases n
  {
    if n == 0 {
      NoneTaken(ds[0], dir, i);
    } else {
      OneSweep(ds, dir, i, n - 1, s);
      SweepStep(ds, dir, s, i, n, ds[0].out);
    }
  }

  lemma {:induction false} NoneTaken(d: DD, dir: bool, i: nat)
    requires i <= |d.At(dir).sort|
    ensures Taken(d, dir, d.At(dir).sort, i, 0, d.out)
  {
    var s := d.At(dir).sort;
    assert s[i..i] == [] && s == s[..i] + s[i..];
  }

  // ---- the sector order and the next request ----

  lemma {:induction false} Behind(l: seq<Id>, r: Id, k: nat)
    requires 0 < k <= |l|
    ensures [l[0]] + (l[1..][..k - 1] + [r] + l[1..][k - 1..]) == l[..k] + [r] + l[k..]
  {
  }

  /** A request goes behind every one that starts no later and before every one that starts later. */
  lemma {:induction false} SortedPlace(l: seq<Id>, r: Id, pos: map<Id, nat>) returns (k: nat)
    requires Ordered(l, pos) && r in pos
    ensures k <= |l| && (forall x :: x in l ==> x in pos) && InsertSorted(l, r, pos) == l[..k] + [r] + l[k..]
    ensures forall i :: 0 <= i < k ==> pos[l[i]] <= pos[r]
    ensures forall i :: k <= i < |l| ==> pos[r] < pos[l[i]]
  {
    if l == [] || pos[r] < pos[l[0]] {
      k := 0;
      assert forall i :: 0 <= i < |l| ==> l[i] in l;
    } else {
      var rest := l[1..];
      k := SortedPlace(rest, r, pos);
      k := k + 1;
      assert [l[0]] + (rest[..k - 1] + [r] + rest[k - 1..]) == l[..k] + [r] + l[k..] by { Behind(l, r, k); }
      forall i | 0 < i < |l|
        ensures l[i] == rest[i - 1]
      {
      }
    }
  }

  /** Until it is dispatched the next request changes only by being merged away: then the one behind it is next. */
  lemma {:induction false} NextKept(d: DD, s: Step, dir: bool)
    requires Ok(d) && Enabled(d, s) && !s.DispatchStep?
    ensures !(s.MergeStep? && s.dir == dir && d.At(dir).next == Some(s.next)) ==>
              Apply(d, s).At(dir).next == d.At(dir).next
    ensures s.MergeStep? && s.dir == dir && d.At(dir).next == Some(s.next) ==>
              forall i :: 0 <= i < |d.At(dir).sort| && d.At(dir).sort[i] == s.next ==>
                Apply(d, s).At(dir).next == if i + 1 < |d.At(dir).sort| then Some(d.At(dir).sort[i + 1]) else None
  {
    if s.MergeStep? && s.dir == dir && d.At(dir).next == Some(s.next) {
      forall i | 0 <= i < |d.At(dir).sort| && d.At(dir).sort[i] == s.next
        ensures Apply(d, s).At(dir).next == if i + 1 < |d.At(dir).sort| then Some(d.At(dir).sort[i + 1]) else None
      {
        assert DirOk(d, dir);
        LatterAt(d.At(dir).sort, i);
      }
    }
  }

  // ---- deadlines ----

  /** A read expires read_expire jiffies after it arrives, a write write_expire; the request is the youngest of its
      direction. */
  lemma {:induction false} ExpiresAfter(d: DD, r: Id, dir: bool, sector: nat, n: nat)
    requires Ok(d) && !Queued(d, r)
    ensures var j := Add(d, r, dir, sector);
            && Expired(j.(now := j.now + n), r) == (n > if dir then d.writeExpire else d.readExpire)
            && (if dir then j.write.fifo == d.write.fifo + [r] && j.read.fifo == d.read.fifo
                else j.read.fifo == d.read.fifo + [r] && j.write.fifo == d.write.fifo)
            && j.pos == d.pos[r := sector]
  {
  }
}
