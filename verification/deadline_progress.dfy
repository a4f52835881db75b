/** No starvation in the deadline scheduler, and what draining it leaves. */
module DeadlineProgress {
  import opened Arithmetic
  import opened Lists
  import opened DeadlineModel
  import opened DeadlineInvariant
  import opened DeadlinePlaces

  /** New batches that can begin before a request with `k` others before it is taken. */
  ghost function Turns(d: DD, dir: bool, k: nat): nat
    requires d.starved <= d.writesStarved
  {
    if dir then Times(k, d.writesStarved + 1) + (d.writesStarved - d.starved) + 1
    else 2 * k + (if d.starved >= d.writesStarved then 1 else 0) + 1
  }

  ghost function Batch(d: DD): nat { if d.fifoBatch == 0 then 1 else d.fifoBatch }

  /** What is left of the running batch. */
  ghost function Remaining(d: DD): nat { if d.batching < d.fifoBatch then d.fifoBatch - d.batching else 0 }

  ghost function Potential(d: DD, dir: bool, k: nat): nat
    requires d.starved <= d.writesStarved
  {
    Remaining(d) + Times(Turns(d, dir, k), Batch(d))
  }

  // ---- steps ----

  /** Nothing but a dispatch changes the counters, and the request or its carrier gets no further back. */
  ghost predicate NoLater(d: DD, j: DD, dir: bool, r: Id, c: Id, ties: bool)
    requires r in d.At(dir).fifo && r in d.due
  {
    && j == d.(read := j.read, write := j.write, pos := j.pos, due := j.due, now := j.now)
    && c in j.At(dir).fifo && Expired(j, c) && Place(j, dir, c, ties) <= Place(d, dir, r, ties)
  }

  ghost predicate KeepsPlace(d: DD, s: Step, r: Id)
    requires Ok(d) && Enabled(d, s)
  {
    s.MergeStep? && s.next == r ==> (assert DirOk(d, s.dir); NoPlaceLost(d, s.dir, s.req, s.next))
  }

  lemma {:induction false} MergeNoLater(d: DD, s: Step, dir: bool, r: Id, ties: bool)
    requires Ok(d) && Enabled(d, s) && s.MergeStep? && r in d.At(dir).fifo && Expired(d, r)
    requires ties || KeepsPlace(d, s, r)
    ensures NoLater(d, Apply(d, s), dir, r, Carrier(s, r), ties)
  {
    if s.dir == dir {
      MergePlace(d, dir, s.req, s.next, r, ties);
    } else {
      MergeAside(d, dir, s.req, s.next, r, ties);
    }
  }

  lemma {:induction false} StaysQueued(d: DD, s: Step, dir: bool, r: Id, ties: bool)
    requires Ok(d) && Enabled(d, s) && !s.DispatchStep? && r in d.At(dir).fifo && Expired(d, r)
    requires ties || KeepsPlace(d, s, r)
    ensures NoLater(d, Apply(d, s), dir, r, Carrier(s, r), ties)
  {
    if s.MergeStep? {
      MergeNoLater(d, s, dir, r, ties);
    } else if s.AddStep? {
      AddPlace(d, s.r, s.dir, s.sector, dir, r, ties);
    }
  }

  lemma {:induction false} PotentialMono(d: DD, j: DD, dir: bool, k: nat, k': nat)
    requires d.starved <= d.writesStarved && k' <= k
    requires j.batching == d.batching && j.starved == d.starved
    requires j.fifoBatch == d.fifoBatch && j.writesStarved == d.writesStarved
    ensures Potential(j, dir, k') <= Potential(d, dir, k)
  {
    TimesMono(k', k, d.writesStarved + 1);
    TimesMono(Turns(j, dir, k'), Turns(d, dir, k), Batch(d));
  }

  /** A dispatch with anything queued moves one request, after the two counters are set. */
  lemma {:induction false} DispatchShape(d: DD) returns (dir: bool, x: Id, d': DD)
    requires Ok(d) && (d.read.fifo != [] || d.write.fifo != [])
    ensures d' == d.(batching := d'.batching, starved := d'.starved) && Ok(d')
    ensures x in d.At(dir).fifo && Dispatch(d) == Move(d', dir, x)
    ensures InBatch(d) ==> Some(x) == Running(d) && d'.batching == d.batching + 1 && d'.starved == d.starved
    ensures !InBatch(d) ==> dir == NewDir(d) && x == BatchHead(d, dir)
                            && d'.batching == 1 && d'.starved == NewStarved(d)
  {
    PickedQueued(d);
    if InBatch(d) {
      dir, x, d' := d.write.next.Some?, Running(d).value, d.(batching := d.batching + 1);
    } else {
      dir, d' := NewDir(d), d.(starved := NewStarved(d), batching := 1);
      x := BatchHead(d, dir);
    }
    SameLanes(d, d');
  }

  /** Within a batch: one less of it remains. */
  lemma {:induction false} BatchStep(d: DD, dir: bool, k: nat)
    requires d.starved <= d.writesStarved && d.batching < d.fifoBatch
    ensures Potential(d.(batching := d.batching + 1), dir, k) < Potential(d, dir, k)
  {
    assert Turns(d.(batching := d.batching + 1), dir, k) == Turns(d, dir, k);
  }

  /** A new batch costs a queued request one of its turns. */
  lemma {:induction false} TurnsDrop(d: DD, j: DD, dir: bool, k: nat, k': nat)
    requires d.starved <= d.writesStarved && j.writesStarved == d.writesStarved && j.starved == NewStarved(d)
    requires j.starved <= j.writesStarved && d.At(dir).fifo != [] && (dir || d.writesStarved >= 1)
    requires k' <= k && (NewDir(d) == dir ==> k' < k)
    ensures Turns(j, dir, k') < Turns(d, dir, k)
  {
    TimesMono(k', k, d.writesStarved + 1);
  }

  /** The head of a new batch is the head of its FIFO when any request there has expired. */
  lemma {:induction false} ExpiredHead(d: DD, dir: bool, r: Id)
    requires Ok(d) && r in d.At(dir).fifo && Expired(d, r)
    ensures BatchHead(d, dir) == d.At(dir).fifo[0]
  {
    assert DirOk(d, dir);
  }

  /** What a dispatch of another request leaves of the place of `r`, and of the counters. */
  lemma {:induction false} DispatchPlace(d: DD, dir: bool, r: Id, ties: bool)
    requires Ok(d) && r in d.At(dir).fifo && Expired(d, r) && Dispatch(d).out != d.out + [r]
    ensures var j := Dispatch(d);
            && r in j.At(dir).fifo && Expired(j, r) && Place(j, dir, r, ties) <= Place(d, dir, r, ties)
            && (!InBatch(d) && NewDir(d) == dir ==> Place(j, dir, r, ties) < Place(d, dir, r, ties))
            && Counted(d, j)
  {
    var dir', x, d' := DispatchShape(d);
    assert x != r && Place(d', dir, r, ties) == Place(d, dir, r, ties);
    MovePlace(d', dir', x, dir, r, ties);
    if !InBatch(d) && dir' == dir {
      ExpiredHead(d, dir, r);
    }
  }

  ghost predicate Counted(d: DD, j: DD) {
    && j.fifoBatch == d.fifoBatch && j.starved <= j.writesStarved == d.writesStarved
    && (if InBatch(d) then j.batching == d.batching + 1 && j.starved == d.starved
        else j.batching == 1 && j.starved == NewStarved(d))
  }

  lemma {:induction false} CountedDrops(d: DD, j: DD, dir: bool, k: nat, k': nat)
    requires d.starved <= d.writesStarved && Counted(d, j) && d.At(dir).fifo != [] && (dir || d.writesStarved >= 1)
    requires k' <= k && (!InBatch(d) && NewDir(d) == dir ==> k' < k)
    ensures Potential(j, dir, k') < Potential(d, dir, k)
  {
    if InBatch(d) {
      BatchStep(d, dir, k);
      PotentialMono(d.(batching := d.batching + 1), j, dir, k, k');
    } else {
      TurnsDrop(d, j, dir, k, k');
      TimesMono(Turns(j, dir, k'), Turns(d, dir, k), Batch(d));
    }
  }

  lemma {:induction false} DispatchDrops(d: DD, dir: bool, r: Id, ties: bool)
    requires Ok(d) && r in d.At(dir).fifo && Expired(d, r) && (dir || d.writesStarved >= 1)
    requires Dispatch(d).out != d.out + [r]
    ensures var j := Dispatch(d);
            && r in j.At(dir).fifo && Expired(j, r) && j.starved <= j.writesStarved == d.writesStarved
            && Potential(j, dir, Place(j, dir, r, ties)) < Potential(d, dir, Place(d, dir, r, ties))
  {
    var j := Dispatch(d);
    DispatchPlace(d, dir, r, ties);
    CountedDrops(d, j, dir, Place(d, dir, r, ties), Place(j, dir, r, ties));
  }

  // ---- runs ----

  ghost predicate Runs(d: DD, steps: seq<Step>)
    requires Ok(d)
    decreases |steps|
  {
    steps == [] || (Enabled(d, steps[0]) && (StepOk(d, steps[0]); Runs(Apply(d, steps[0]), steps[1..])))
  }

  ghost function Dispatches(steps: seq<Step>): nat {
    if steps == [] then 0 else (if steps[0].DispatchStep? then 1 else 0) + Dispatches(steps[1..])
  }

  /** Some step of the run dispatches `r`, or the request `r` has by then been merged into. */
  ghost predicate Served(d: DD, steps: seq<Step>, r: Id)
    requires Ok(d) && Runs(d, steps)
    decreases |steps|
  {
    steps != [] &&
    (StepOk(d, steps[0]);
     (steps[0].DispatchStep? && Dispatch(d).out == d.out + [r])
     || Served(Apply(d, steps[0]), steps[1..], Carrier(steps[0], r)))
  }

  /** No merge of the run puts `r`, or what carries it, behind requests it stood before. */
  ghost predicate PlacesKept(d: DD, steps: seq<Step>, r: Id)
    requires Ok(d) && Runs(d, steps)
    decreases |steps|
  {
    steps != [] ==>
      && KeepsPlace(d, steps[0], r)
      && (StepOk(d, steps[0]); PlacesKept(Apply(d, steps[0]), steps[1..], Carrier(steps[0], r)))
  }

  /** A run is a step and a run. */
  lemma {:induction false} Goes(d: DD, j: DD, s: Step, rest: seq<Step>, r: Id)
    requires Ok(d) && Enabled(d, s) && j == Apply(d, s) && Ok(j) && Runs(j, rest)
    ensures Runs(d, [s] + rest)
    ensures Dispatches([s] + rest) == (if s.DispatchStep? then 1 else 0) + Dispatches(rest)
    ensures Served(d, [s] + rest, r) ==> (s.DispatchStep? && j.out == d.out + [r]) || Served(j, rest, Carrier(s, r))
  {
    assert ([s] + rest)[1..] == rest;
  }

  lemma {:induction false} PotentialSuffices(d: DD, steps: seq<Step>, dir: bool, r: Id, ties: bool)
    requires Ok(d) && Runs(d, steps) && r in d.At(dir).fifo && Expired(d, r) && (dir || d.writesStarved >= 1)
    requires ties || PlacesKept(d, steps, r)
    requires Dispatches(steps) >= Potential(d, dir, Place(d, dir, r, ties))
    ensures Served(d, steps, r)
    decreases |steps|
  {
    var k := Place(d, dir, r, ties);
    assert Potential(d, dir, k) >= 1 by { TimesMono(1, Turns(d, dir, k), Batch(d)); }
    var s := steps[0];
    var j := Apply(d, s);
    StepOk(d, s);
    if s.DispatchStep? {
      if Dispatch(d).out != d.out + [r] {
        DispatchDrops(d, dir, r, ties);
        PotentialSuffices(j, steps[1..], dir, r, ties);
      }
    } else {
      StaysQueued(d, s, dir, r, ties);
      PotentialMono(d, j, dir, k, Place(j, dir, Carrier(s, r), ties));
      PotentialSuffices(j, steps[1..], dir, Carrier(s, r), ties);
    }
  }

  lemma {:induction false} TurnsBound(d: DD, dir: bool, k: nat)
    requires d.starved <= d.writesStarved && (dir || d.writesStarved >= 1)
    ensures Turns(d, dir, k) <= Times(k + 1, d.writesStarved + 1)
  {
    Spread(k, d.writesStarved);
  }

  lemma {:induction false} Spread(k: nat, ws: nat)
    ensures Times(k + 1, ws + 1) == Times(k, ws + 1) + ws + 1
    ensures ws >= 1 ==> Times(k + 1, ws + 1) >= 2 * (k + 1)
  {
    assert (k + 1) * (ws + 1) == k * (ws + 1) + (ws + 1);
    if ws >= 1 {
      assert (k + 1) * (ws + 1) == (k + 1) * 2 + (k + 1) * (ws - 1);
    }
  }

  /** The dispatches within which the n-th request is reached: the running batch, and for each request up to it
      writes_starved batches of the other direction and one of its own. */
  ghost function Bound(d: DD, n: nat): nat { Remaining(d) + Times(Times(n, d.writesStarved + 1), Batch(d)) }

  lemma {:induction false} WithinBound(d: DD, dir: bool, k: nat)
    requires d.starved <= d.writesStarved && (dir || d.writesStarved >= 1)
    ensures Potential(d, dir, k) <= Bound(d, k + 1)
  {
    TurnsBound(d, dir, k);
    TimesMono(Turns(d, dir, k), Times(k + 1, d.writesStarved + 1), Batch(d));
  }

  /**
    * An expired request with n requests in its FIFO due no later, itself among them, is dispatched within
    * Bound(d, n) dispatches, itself or in the request it has been merged into, whatever arrives, merges
    * or is dispatched meanwhile. For a read this needs writes_starved to be at least one.
    */
  lemma {:induction false} ExpiredIsServed(d: DD, steps: seq<Step>, r: Id, dir: bool)
    requires Ok(d) && Runs(d, steps) && r in d.At(dir).fifo && Expired(d, r) && (dir || d.writesStarved >= 1)
    requires Dispatches(steps) >= Bound(d, Rank(d.At(dir).fifo, d.due, d.due[r]))
    ensures Served(d, steps, r)
  {
    WithinBound(d, dir, Place(d, dir, r, true));
    PotentialSuffices(d, steps, dir, r, true);
  }

  /** Counting only the k requests that stand before it needs more: of two requests due at the same time the one
      that stands must not be merged into one further back, with others between (MergedPlaceIff). */
  lemma {:induction false} ServedInTurn(d: DD, steps: seq<Step>, r: Id, dir: bool)
    requires Ok(d) && Runs(d, steps) && r in d.At(dir).fifo && Expired(d, r) && (dir || d.writesStarved >= 1)
    requires PlacesKept(d, steps, r)
    requires Dispatches(steps) >= Bound(d, Ahead(d.At(dir).fifo, r) + 1)
    ensures Served(d, steps, r)
  {
    WithinBound(d, dir, Place(d, dir, r, false));
    PotentialSuffices(d, steps, dir, r, false);
  }

  // ---- writes_starved == 0 ----

  ghost predicate OnlyRead(d: DD, r: Id) {
    && Ok(d) && d.read == Lane([r], [r], None) && d.write == Lane([], [], None)
    && d.writesStarved == 0 && Expired(d, r)
  }

  lemma {:induction false} WriteRound(d: DD, r: Id, w: Id)
    requires OnlyRead(d, r) && w != r
    ensures Ok(Add(d, w, true, 0)) && OnlyRead(Dispatch(Add(d, w, true, 0)), r)
    ensures Dispatch(Add(d, w, true, 0)).out == d.out + [w]
  {
    var d1 := Add(d, w, true, 0);
    AddOk(d, w, true, 0);
    DispatchOk(d1);
    assert d1.write == Lane([w], [w], None) && !InBatch(d1);
    var dir, x, d' := DispatchShape(d1);
    assert dir && x == w && Latter([w], w) == None;
    assert Without([w], w) == [];
  }

  lemma {:induction false} RoundGoes(d: DD, d1: DD, j: DD, r: Id, w: Id, rest: seq<Step>)
    requires Ok(d) && !Queued(d, w) && d1 == Add(d, w, true, 0) && Ok(d1) && j == Dispatch(d1) && Ok(j)
    requires Runs(j, rest) && !Served(j, rest, r) && j.out == d.out + [w] && w != r
    ensures var steps := [AddStep(w, true, 0)] + ([DispatchStep] + rest);
            Runs(d, steps) && Dispatches(steps) == 1 + Dispatches(rest) && !Served(d, steps, r)
  {
    assert j.out != d1.out + [r] by {
      assert (d.out + [w])[|d.out|] == w;
    }
    Goes(d1, j, DispatchStep, rest, r);
    Goes(d, d1, AddStep(w, true, 0), [DispatchStep] + rest, r);
  }

  /** With writes_starved zero no number of dispatches need ever reach an expired read. */
  lemma {:induction false} ReadStarvesAtZero(d: DD, r: Id, w: Id, n: nat) returns (steps: seq<Step>)
    requires OnlyRead(d, r) && w != r
    ensures Runs(d, steps) && Dispatches(steps) == n && !Served(d, steps, r)
    decreases n
  {
    if n == 0 {
      steps := [];
    } else {
      var d1 := Add(d, w, true, 0);
      WriteRound(d, r, w);
      var rest := ReadStarvesAtZero(Dispatch(d1), r, w, n - 1);
      RoundGoes(d, d1, Dispatch(d1), r, w, rest);
      steps := [AddStep(w, true, 0)] + ([DispatchStep] + rest);
    }
  }

  // ---- a batch goes on in sector order ----

  /** Nothing in the tree lies between a request and the one behind it. */
  lemma {:induction false} LatterIsNext(l: seq<Id>, r: Id, pos: map<Id, nat>)
    requires Ordered(l, pos) && NoDup(l) && r in l && Latter(l, r).Some?
    ensures r in pos && Latter(l, r).value in pos && pos[r] <= pos[Latter(l, r).value]
    ensures forall x :: x in l && x != r ==> x in pos && (pos[x] <= pos[r] || pos[Latter(l, r).value] <= pos[x])
  {
    assert l == [l[0]] + l[1..];
    if l[0] == r {
      assert l[1] in l && l[1..][0] == l[1];
    } else {
      assert NoDup(l[1..]);
      LatterIsNext(l[1..], r, pos);
    }
  }

  lemma {:induction false} MoveAims(d: DD, dir: bool, r: Id)
    requires Ok(d) && r in d.At(dir).fifo
    ensures Move(d, dir, r).At(dir).next == Latter(d.At(dir).sort, r) && Move(d, dir, r).At(!dir).next == None
  {
    LatterOther(d.At(dir).sort, r);
  }

  /** The request a batch goes on with is the next one upwards from the last: none of its direction lies between. */
  lemma {:induction false} BatchGoesUp(d: DD, x: Id, y: Id, dir: bool)
    requires Ok(d) && x in d.At(dir).fifo && Dispatch(d).out == d.out + [x]
    requires InBatch(Dispatch(d)) && Running(Dispatch(d)) == Some(y)
    ensures y in d.At(dir).fifo && x in d.pos && y in d.pos && d.pos[x] <= d.pos[y]
    ensures forall z :: z in d.At(dir).fifo && z != x ==> z in d.pos && (d.pos[z] <= d.pos[x] || d.pos[y] <= d.pos[z])
  {
    var dir', x', d' := DispatchShape(d);
    assert (d.out + [x'])[|d.out|] == x' && (d.out + [x])[|d.out|] == x;
    assert x' == x && dir' == dir;
    MoveAims(d', dir, x);
    LatterIsNext(d.At(dir).sort, x, d.pos);
  }

  // ---- conservation ----

  /** Everything queued or already dispatched. */
  ghost function All(d: DD): multiset<Id> { multiset(d.read.fifo) + multiset(d.write.fifo) + multiset(d.out) }

  lemma {:induction false} WithoutOne(l: seq<Id>, r: Id)
    requires NoDup(l) && r in l
    ensures multiset(l) == multiset(Without(l, r)) + multiset{r}
  {
    assert l == [l[0]] + l[1..];
    assert NoDup(l[1..]);
    if l[0] == r {
      WithoutKeeps(l, r, map[]);
    } else {
      WithoutOne(l[1..], r);
    }
  }

  /** A dispatch moves exactly one queued request out; it does nothing only when none is queued. */
  lemma {:induction false} DispatchConserves(d: DD)
    requires Ok(d)
    ensures All(Dispatch(d)) == All(d)
    ensures d.read.fifo != [] || d.write.fifo != [] ==>
              |Dispatch(d).out| == |d.out| + 1 && Queued(d, Dispatch(d).out[|d.out|])
    ensures d.read.fifo == [] && d.write.fifo == [] ==> Dispatch(d) == d
  {
    if d.read.fifo != [] || d.write.fifo != [] {
      var dir, x, d' := DispatchShape(d);
      MoveConserves(d', dir, x);
    }
  }

  lemma {:induction false} MoveConserves(d: DD, dir: bool, x: Id)
    requires Ok(d) && x in d.At(dir).fifo
    ensures All(Move(d, dir, x)) == All(d) && Move(d, dir, x).out == d.out + [x]
  {
    var j := Move(d, dir, x);
    assert j.At(!dir).fifo == d.At(!dir).fifo && j.At(dir).fifo == Without(d.At(dir).fifo, x);
    assert multiset(j.out) == multiset(d.out) + multiset{x};
    assert multiset(d.At(dir).fifo) == multiset(j.At(dir).fifo) + multiset{x} by {
      WithoutOne(d.At(dir).fifo, x);
    }
  }
}
