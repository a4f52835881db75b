/** The deadline scheduler as the objects that the block layer updates in place. */
module DeadlineQueue {
  import opened Lists
  import opened DeadlineModel
  import opened DeadlineInvariant
  import opened DeadlineProgress

  /** sort_list, fifo_list and next_rq of one direction. */
  class Direction {
    var sort: seq<Id>
    var fifo: seq<Id>
    var next: Option<Id>

    constructor ()
      ensures View() == Lane([], [], None)
    {
      sort, fifo, next := [], [], None;
    }

    function View(): Lane
      reads this
    {
      Lane(sort, fifo, next)
    }

    /** elv_rb_add: walk down to the place behind every request that does not start later. */
    method RbAdd(r: Id, pos: map<Id, nat>)
      requires r in pos && forall x :: x in sort ==> x in pos
      modifies this`sort
      ensures sort == InsertSorted(old(sort), r, pos)
    {
      var i := 0;
      while i < |sort| && pos[r] >= pos[sort[i]]
        invariant 0 <= i <= |sort|
        invariant InsertSorted(sort, r, pos) == sort[..i] + InsertSorted(sort[i..], r, pos)
      {
        assert sort[i..][1..] == sort[i + 1..];
        assert sort[..i + 1] == sort[..i] + [sort[i]];
        i := i + 1;
      }
      sort := sort[..i] + [r] + sort[i..];
      assert old(sort)[..i] + ([r] + old(sort)[i..]) == sort;
    }

    /** rb_next */
    method RbNext(r: Id) returns (n: Option<Id>)
      ensures n == Latter(sort, r)
    {
      var i := 0;
      while i + 1 < |sort| && sort[i] != r
        invariant 0 <= i <= |sort|
        invariant Latter(sort, r) == Latter(sort[i..], r)
      {
        assert sort[i..][1..] == sort[i + 1..];
        i := i + 1;
      }
      if i + 1 < |sort| {
        assert sort[i..][1] == sort[i + 1];
        n := Some(sort[i + 1]);
      } else {
        n := None;
      }
    }

    /** deadline_remove_request: out of the FIFO, then deadline_del_rq_rb. */
    method Remove(r: Id)
      modifies this
      ensures View() == WithoutLane(old(View()), r)
    {
      fifo := Without(fifo, r);
      if next == Some(r) {
        next := RbNext(r);
      }
      sort := Without(sort, r);
    }
  }

  class Deadline {
    const read: Direction
    const write: Direction
    var pos: map<Id, nat>
    var due: map<Id, nat>
    var batching: nat
    var starved: nat
    var fifoBatch: nat
    var writesStarved: nat
    var readExpire: nat
    var writeExpire: nat
    var now: nat
    var out: seq<Id>

    /** deadline_init_queue */
    constructor (fifoBatch: nat, writesStarved: nat, readExpire: nat, writeExpire: nat, now: nat)
      ensures Apart() && fresh(read) && fresh(write) && Ok(View()) && All(View()) == multiset{}
      ensures View() == DD(Lane([], [], None), Lane([], [], None), map[], map[], 0, 0,
                           fifoBatch, writesStarved, readExpire, writeExpire, now, [])
    {
      read := new Direction();
      write := new Direction();
      this.fifoBatch, this.writesStarved := fifoBatch, writesStarved;
      this.readExpire, this.writeExpire, this.now := readExpire, writeExpire, now;
      pos, due, batching, starved, out := map[], map[], 0, 0, [];
    }

    ghost predicate Apart() { read != write }

    ghost function View(): DD
      reads this, read, write
    {
      DD(read.View(), write.View(), pos, due, batching, starved,
         fifoBatch, writesStarved, readExpire, writeExpire, now, out)
    }

    function At(dir: bool): Direction { if dir then write else read }

    method AddRequest(r: Id, dir: bool, sector: nat)
      requires Apart() && Ok(View()) && !Queued(View(), r)
      modifies this, read, write
      ensures View() == Add(old(View()), r, dir, sector) && Ok(View())
    {
      AddOk(View(), r, dir, sector);
      Enter(r, dir, sector);
    }

    method Enter(r: Id, dir: bool, sector: nat)
      requires Apart() && forall x :: x in At(dir).sort ==> x in pos
      modifies this, read, write
      ensures View() == Add(old(View()), r, dir, sector)
    {
      pos := pos[r := sector];
      At(dir).RbAdd(r, pos);
      due := due[r := now + if dir then writeExpire else readExpire];
      At(dir).fifo := At(dir).fifo + [r];
    }

    /** deadline_merged_request, after the request's first sector has changed. */
    method MergedRequest(dir: bool, r: Id, sector: nat)
      requires Apart() && Ok(View()) && r in At(dir).fifo
      modifies this, read, write
      ensures View() == FrontMerged(old(View()), dir, r, sector) && Ok(View())
    {
      FrontMergedOk(View(), dir, r, sector);
      Reposition(dir, r, sector);
    }

    method Reposition(dir: bool, r: Id, sector: nat)
      requires Apart() && forall x :: x in At(dir).sort ==> x in pos
      modifies this, read, write
      ensures View() == FrontMerged(old(View()), dir, r, sector)
    {
      pos := pos[r := sector];
      At(dir).sort := Without(At(dir).sort, r);
      At(dir).RbAdd(r, pos);
    }

    method MergedRequests(dir: bool, req: Id, next: Id)
      requires Apart() && Ok(View()) && req != next && req in At(dir).fifo && next in At(dir).fifo
      modifies this, read, write
      ensures View() == DeadlineModel.MergedRequests(old(View()), dir, req, next) && Ok(View())
    {
      MergedRequestsOk(View(), dir, req, next);
      Absorb(dir, req, next);
    }

    method Absorb(dir: bool, req: Id, next: Id)
      requires Apart() && req != next && req in due && next in due
      modifies this, read, write
      ensures View() == DeadlineModel.MergedRequests(old(View()), dir, req, next)
    {
      if due[next] < due[req] {
        MovedBehind(At(dir).fifo, req, next);
        At(dir).fifo := MoveBehind(At(dir).fifo, req, next);
        due := due[req := due[next]];
      }
      At(dir).Remove(next);
    }

    method MoveRequest(dir: bool, r: Id)
      requires Apart() && Ok(View()) && r in At(dir).fifo
      modifies this, read, write
      ensures View() == Move(old(View()), dir, r) && Ok(View())
    {
      MoveOk(View(), dir, r);
      read.next, write.next := None, None;
      At(dir).next := At(dir).RbNext(r);
      assert View() == Aim(old(View()), dir, r);
      At(dir).Remove(r);
      out := out + [r];
    }

    /** deadline_dispatch_requests; the result says whether a request was moved. */
    method DispatchRequests() returns (moved: bool)
      requires Apart() && Ok(View())
      modifies this, read, write
      ensures View() == Dispatch(old(View())) && Ok(View())
      ensures moved <==> old(read.fifo != [] || write.fifo != [])
    {
      DispatchOk(View());
      PickedQueued(View());
      ghost var before := View();
      var dir, rq := ChooseNext();
      if rq.None? {
        return false;
      }
      assert Ok(View()) by {
        SameLanes(before, View());
      }
      MoveRequest(dir, rq.value);
      moved := true;
    }

    /** The choice of deadline_dispatch_requests, with the counters it sets. */
    method ChooseNext() returns (dir: bool, rq: Option<Id>)
      requires Apart() && Ok(View())
      modifies this`batching, this`starved
      ensures View() == old(View()).(batching := batching, starved := starved) && starved <= writesStarved
      ensures rq.None? <==> read.fifo == [] && write.fifo == []
      ensures rq.None? ==> View() == old(View()) && Dispatch(View()) == View()
      ensures rq.Some? ==> rq.value in At(dir).fifo
      ensures rq.Some? ==> Dispatch(old(View())) == Move(View(), dir, rq.value)
    {
      PickedQueued(View());
      if write.next.Some? {
        rq, dir := write.next, true;
      } else {
        rq, dir := read.next, false;
      }
      if rq.Some? && batching < fifoBatch {
        batching := batching + 1;
        return;
      }
      if read.fifo == [] && write.fifo == [] {
        return dir, None;
      }
      dir := NewDirection();
      var head := Head(dir);
      rq := Some(head);
      batching := 1;
    }

    /** Reads go first unless writes have waited writes_starved times. */
    method NewDirection() returns (dir: bool)
      requires read.fifo != [] || write.fifo != []
      modifies this`starved
      ensures dir == NewDir(old(View())) && starved == NewStarved(old(View()))
    {
      if read.fifo != [] {
        if write.fifo != [] && starved >= writesStarved {
          starved, dir := 0, true;
        } else {
          dir := false;
          if write.fifo != [] {
            starved := starved + 1;
          }
        }
      } else {
        starved, dir := 0, true;
      }
    }

    /** The oldest request if it has expired or there is no next one to go on with. */
    method Head(dir: bool) returns (r: Id)
      requires At(dir).fifo != [] && At(dir).fifo[0] in due
      ensures r == BatchHead(View(), dir)
    {
      r := At(dir).fifo[0];
      if due[r] >= now && At(dir).next.Some? {
        r := At(dir).next.value;
      }
    }

    /** elv_drain_elevator: everything queued is dispatched, each request once, and nothing is left. */
    method Drain()
      requires Apart() && Ok(View())
      modifies this, read, write
      ensures Ok(View()) && read.fifo == [] && write.fifo == [] && read.sort == [] && write.sort == []
      ensures old(out) <= out
      ensures multiset(out[|old(out)|..]) == multiset(old(read.fifo)) + multiset(old(write.fifo))
    {
      ghost var start := View();
      var more := true;
      while more
        invariant Ok(View()) && Drained(start, View())
        invariant !more ==> read.fifo == [] && write.fifo == []
        decreases |read.fifo| + |write.fifo|, more
      {
        DrainStep(start, View());
        more := DispatchRequests();
      }
      DrainEnd(start, View());
    }
  }

  /** Only dispatches lie between `d` and `j`. */
  ghost predicate Drained(d: DD, j: DD) { All(d) == All(j) && d.out <= j.out }

  lemma {:induction false} DrainStep(d: DD, j: DD)
    requires Ok(j) && Drained(d, j)
    ensures Drained(d, Dispatch(j))
    ensures j.read.fifo != [] || j.write.fifo != [] ==>
              |Dispatch(j).read.fifo| + |Dispatch(j).write.fifo| < |j.read.fifo| + |j.write.fifo|
    ensures j.read.fifo == [] && j.write.fifo == [] ==> Dispatch(j) == j
  {
    DispatchConserves(j);
    OutGrows(j);
    AllSize(j, Dispatch(j));
  }

  lemma {:induction false} DrainEnd(d: DD, j: DD)
    requires Ok(j) && Drained(d, j) && j.read.fifo == [] && j.write.fifo == []
    ensures j.read.sort == [] && j.write.sort == []
    ensures multiset(j.out[|d.out|..]) == multiset(d.read.fifo) + multiset(d.write.fifo)
  {
    HeadIn(j.read.sort);
    HeadIn(j.write.sort);
    assert j.out == d.out + j.out[|d.out|..];
    assert All(j) == multiset(j.out[|d.out|..]) + multiset(d.out);
    Cancel(multiset(j.out[|d.out|..]), multiset(d.read.fifo) + multiset(d.write.fifo), multiset(d.out));
  }

  lemma {:induction false} Cancel(a: multiset<Id>, b: multiset<Id>, c: multiset<Id>)
    requires a + c == b + c
    ensures a == b
  {
    forall x
      ensures a[x] == b[x]
    {
      assert (a + c)[x] == (b + c)[x];
    }
  }

  /** list_move(&req->queuelist, &next->queuelist) */
  function MoveBehind(l: seq<Id>, req: Id, next: Id): (m: seq<Id>) {
    InsertBehind(Without(l, req), req, next)
  }

  function InsertBehind(l: seq<Id>, req: Id, next: Id): (m: seq<Id>) {
    if l == [] then [] else if l[0] == next then [next, req] + l[1..] else [l[0]] + InsertBehind(l[1..], req, next)
  }

  /** Moving `req` behind `next` and taking `next` away leaves `req` in its place. */
  lemma {:induction false} MovedBehind(l: seq<Id>, req: Id, next: Id)
    requires req != next
    ensures Without(MoveBehind(l, req, next), next) == TakePlace(l, req, next)
  {
    if l != [] {
      var rest := l[1..];
      if l[0] == req {
        MovedBehind(rest, req, next);
      } else if l[0] == next {
        var w := Without(rest, req);
        assert Without(l, req) == [next] + w;
        assert ([next] + w)[1..] == w;
        var m := [next, req] + w;
        assert m[1..] == [req] + w && ([req] + w)[1..] == w;
      } else {
        MovedBehind(rest, req, next);
        var w := Without(rest, req);
        assert Without(l, req) == [l[0]] + w && ([l[0]] + w)[1..] == w;
        var m := InsertBehind(w, req, next);
        assert ([l[0]] + m)[1..] == m;
      }
    }
  }

  lemma {:induction false} OutGrows(d: DD)
    requires Ok(d)
    ensures d.out <= Dispatch(d).out
  {
    if d.read.fifo != [] || d.write.fifo != [] {
      var dir, x, d' := DispatchShape(d);
      assert Move(d', dir, x).out == d.out + [x];
    } else {
      DispatchConserves(d);
    }
  }

  lemma {:induction false} AllSize(d: DD, j: DD)
    requires All(d) == All(j)
    ensures |d.read.fifo| + |d.write.fifo| + |d.out| == |j.read.fifo| + |j.write.fifo| + |j.out|
  {
    assert |All(d)| == |d.read.fifo| + |d.write.fifo| + |d.out|;
    assert |All(j)| == |j.read.fifo| + |j.write.fifo| + |j.out|;
  }

  lemma {:induction false} HeadIn(l: seq<Id>)
    ensures l == [] || l[0] in l
  {
  }
}
