/** The elevator core of block/elevator.c: the dispatch queue's one-way order, the merge hash and last_merge. */
module ElevatorCore {
  import opened Lists

  type Id = nat

  /** `stop` is REQ_SOFTBARRIER or REQ_STARTED. */
  datatype Rq = Rq(pos: nat, len: nat, write: bool, discard: bool, stop: bool, mergeable: bool)
  {
    /** rq_hash_key: the sector behind the request. */
    function Key(): nat { pos + len }
  }

  // ---- the order of the dispatch queue ----

  /** `a` may stand before `b` on a one-way sweep that begins at `boundary`. */
  predicate Before(boundary: nat, a: Rq, b: Rq) {
    if (a.pos >= boundary) == (b.pos >= boundary) then a.pos <= b.pos else a.pos >= boundary
  }

  predicate SameClass(a: Rq, b: Rq) { a.discard == b.discard && a.write == b.write }

  /** elv_dispatch_sort goes no further back than `p`. */
  predicate Stops(boundary: nat, r: Rq, p: Rq) { !SameClass(r, p) || p.stop || Before(boundary, p, r) }

  function Slot(q: seq<Rq>, r: Rq, boundary: nat, k: nat): (i: nat)
    requires k <= |q|
    ensures i <= k
    ensures i > 0 ==> Stops(boundary, r, q[i - 1])
    ensures forall j :: i <= j < k ==> !Stops(boundary, r, q[j])
  {
    if k == 0 || Stops(boundary, r, q[k - 1]) then k else Slot(q, r, boundary, k - 1)
  }

  /** Neighbours of one direction and discard class, neither started nor a barrier, are in order. */
  ghost predicate OneWay(q: seq<Rq>, boundary: nat) {
    forall i :: 0 <= i < |q| - 1 ==> InOrder(boundary, q[i], q[i + 1])
  }

  function Inserted(q: seq<Rq>, r: Rq, boundary: nat): seq<Rq> {
    var k := Slot(q, r, boundary, |q|);
    q[..k] + [r] + q[k..]
  }

  /** The sweep comes to sector `a` before it comes to `b`: those from the boundary up first, then those below it. */
  predicate Sooner(boundary: nat, a: nat, b: nat) {
    || (boundary <= a < b)
    || (b < boundary <= a)
    || (a < b < boundary)
  }

  /** The request stands behind the last one of another direction or discard class, started, a barrier or not
      later on the sweep; every request behind its place is of its kind and later. */
  lemma {:induction false} SortPasses(q: seq<Rq>, r: Rq, boundary: nat)
    ensures var k := Slot(q, r, boundary, |q|);
            && Inserted(q, r, boundary) == q[..k] + [r] + q[k..]
            && (forall j :: k <= j < |q| ==>
                  && q[j].write == r.write && q[j].discard == r.discard && !q[j].stop
                  && Sooner(boundary, r.pos, q[j].pos))
            && (k > 0 ==>
                  || q[k - 1].write != r.write || q[k - 1].discard != r.discard || q[k - 1].stop
                  || !Sooner(boundary, r.pos, q[k - 1].pos))
    ensures multiset(Inserted(q, r, boundary)) == multiset(q) + multiset{r}
  {
    var k := Slot(q, r, boundary, |q|);
    assert q == q[..k] + q[k..];
  }

  ghost predicate InOrder(boundary: nat, a: Rq, b: Rq) {
    SameClass(a, b) && !a.stop && !b.stop ==> Before(boundary, a, b)
  }

  /** The order of every run is kept. */
  lemma {:induction false} SortKeepsOrder(q: seq<Rq>, r: Rq, boundary: nat)
    requires OneWay(q, boundary)
    ensures OneWay(Inserted(q, r, boundary), boundary)
  {
    var k := Slot(q, r, boundary, |q|);
    var m := Inserted(q, r, boundary);
    forall i | 0 <= i < |m| - 1
      ensures InOrder(boundary, m[i], m[i + 1])
    {
      if i + 1 < k {
        assert m[i] == q[i] && m[i + 1] == q[i + 1] && InOrder(boundary, q[i], q[i + 1]);
      } else if i > k {
        assert m[i] == q[i - 1] && m[i + 1] == q[i - 1 + 1] && InOrder(boundary, q[i - 1], q[i - 1 + 1]);
      } else if i == k {
        assert m[i] == r && m[i + 1] == q[k];
      } else {
        assert m[i] == q[k - 1] && m[i + 1] == r;
      }
    }
  }

  /** Within a run no request is met before one that the sweep comes to sooner. */
  lemma {:induction false} RunSweeps(q: seq<Rq>, boundary: nat, i: nat, j: nat)
    requires OneWay(q, boundary) && i <= j < |q|
    requires forall k :: i <= k <= j ==> SameClass(q[i], q[k]) && !q[k].stop
    ensures !Sooner(boundary, q[j].pos, q[i].pos)
  {
    RunInOrder(q, boundary, i, j);
  }

  /** Before is a total preorder, so neighbours in order make the whole run so. */
  lemma {:induction false} RunInOrder(q: seq<Rq>, boundary: nat, i: nat, j: nat)
    requires OneWay(q, boundary) && i <= j < |q|
    requires forall k :: i <= k <= j ==> SameClass(q[i], q[k]) && !q[k].stop
    ensures Before(boundary, q[i], q[j])
    decreases j - i
  {
    if i < j {
      RunInOrder(q, boundary, i, j - 1);
      assert InOrder(boundary, q[j - 1], q[j - 1 + 1]);
    }
  }

  // ---- the elevator's queue ----

  /** elevator_queue.hash: chains of requests by the sector behind them. */
  class HashTable {
    const hash: nat -> nat                // ELV_HASH_FN
    const buckets: array<seq<Id>>
    var home: map<Id, nat>                // the bucket a hashed request is linked in

    constructor (hash: nat -> nat, size: nat)
      requires forall k :: hash(k) < size
      ensures Linked() && fresh(buckets) && home == map[] && this.hash == hash
    {
      this.hash := hash;
      buckets := new seq<Id>[size](_ => []);
      home := map[];
    }

    /** The chains hold exactly the hashed requests. */
    ghost predicate Linked()
      reads this, buckets
    {
      && (forall k :: hash(k) < buckets.Length)
      && (forall r :: r in home ==> home[r] < buckets.Length && r in buckets[home[r]])
      && (forall b, r :: 0 <= b < buckets.Length && r in buckets[b] ==> r in home && home[r] == b)
    }

    /** elv_rqhash_del: unlink, if linked at all. */
    method Del(r: Id)
      requires Linked()
      modifies this`home, buckets
      ensures Linked() && home == old(home) - {r}
    {
      if r in home {
        var b := home[r];
        buckets[b] := Without(buckets[b], r);
        home := home - {r};
      }
    }

    /** elv_rqhash_add */
    method Add(r: Id, key: nat)
      requires Linked() && r !in home
      modifies this`home, buckets
      ensures Linked() && home == old(home)[r := hash(key)]
    {
      var b := hash(key);
      buckets[b] := [r] + buckets[b];
      home := home[r := b];
    }

    /** elv_rqhash_reposition */
    method Reposition(r: Id, key: nat)
      requires Linked()
      modifies this`home, buckets
      ensures Linked() && home == old(home)[r := hash(key)]
    {
      Del(r);
      Add(r, key);
    }

    /** The chain for a sector, and that it holds every request hashed there. */
    method Chain(key: nat) returns (chain: seq<Id>)
      requires Linked()
      ensures forall r :: r in chain <==> r in home && home[r] == hash(key)
    {
      chain := buckets[hash(key)];
    }
  }

  /** Hashed requests are in the scheduler and under the sector where they end; last_merge is there too. */
  ghost predicate Books(rq: map<Id, Rq>, hash: nat -> nat, home: map<Id, nat>, sorted: set<Id>,
                        lastMerge: Option<Id>, nrSorted: nat, queue: seq<Id>) {
    && (forall r :: r in home ==> r in sorted && r in rq && home[r] == hash(rq[r].Key()))
    && (forall r :: r in sorted ==> r in rq)
    && (lastMerge.Some? ==> lastMerge.value in sorted)
    && nrSorted == |sorted|
    && (forall r :: r in queue ==> r in rq && r !in sorted)
  }

  /** Only requests that cannot be merged have left the hash. */
  ghost predicate Pruned(rq: map<Id, Rq>, before: map<Id, nat>, after: map<Id, nat>) {
    && (forall r :: r in after ==> r in before && after[r] == before[r])
    && (forall r :: r in before ==> r in rq && (r in after || !rq[r].mergeable))
  }

  lemma {:induction false} PrunedMore(rq: map<Id, Rq>, before: map<Id, nat>, after: map<Id, nat>, r: Id)
    requires Pruned(rq, before, after) && r in rq
    ensures !rq[r].mergeable ==> Pruned(rq, before, after - {r})
  {
  }

  class ElevatorQueue {
    const table: HashTable
    var rq: map<Id, Rq>
    var sorted: set<Id>                   // in the scheduler
    var queue: seq<Id>                    // queue_head
    var endSector: nat
    var lastMerge: Option<Id>
    var nrSorted: nat

    constructor (table: HashTable)
      requires table.Linked() && table.home == map[]
      ensures Valid() && this.table == table && sorted == {} && queue == [] && lastMerge == None
    {
      this.table := table;
      rq, sorted, queue, endSector, lastMerge, nrSorted := map[], {}, [], 0, None, 0;
    }

    ghost predicate Valid()
      reads this, table, table.buckets
    {
      table.Linked() && Books(rq, table.hash, table.home, sorted, lastMerge, nrSorted, queue)
    }

    /** What elv_rqhash_find looks for. */
    predicate Matches(r: Id, offset: nat)
      reads this
    {
      r in rq && rq[r].mergeable && rq[r].Key() == offset
    }

    /** One link of the chain: drop what cannot be merged any more. */
    method Probe(r: Id, offset: nat) returns (hit: bool)
      requires Valid() && r in rq
      modifies table`home, table.buckets
      ensures Valid() && (hit <==> Matches(r, offset))
      ensures table.home == if rq[r].mergeable then old(table.home) else old(table.home) - {r}
    {
      hit := false;
      if !rq[r].mergeable {
        table.Del(r);
      } else {
        hit := rq[r].Key() == offset;
      }
    }

    /**
      * elv_rqhash_find: a mergeable hashed request ending at `offset`, whenever there is one. Requests
      * that can no longer be merged are dropped from the chain on the way.
      */
    method HashFind(offset: nat) returns (found: Option<Id>)
      requires Valid()
      modifies table`home, table.buckets
      ensures Valid()
      ensures found.Some? ==> found.value in table.home && Matches(found.value, offset)
      ensures found.None? ==> forall r :: r in old(table.home) ==> !Matches(r, offset)
      ensures Pruned(rq, old(table.home), table.home)
    {
      var chain := table.Chain(offset);
      assert forall r :: r in table.home && Matches(r, offset) ==> r in chain;
      assert forall r :: r in chain ==> r in table.home && r in rq;
      found := Walk(chain, offset);
    }

    method Walk(chain: seq<Id>, offset: nat) returns (found: Option<Id>)
      requires Valid() && forall r :: r in chain ==> r in rq
      modifies table`home, table.buckets
      ensures Valid() && Pruned(rq, old(table.home), table.home)
      ensures found.Some? ==> found.value in chain && Matches(found.value, offset)
      ensures found.None? ==> forall r :: r in chain ==> !Matches(r, offset)
    {
      for i := 0 to |chain|
        invariant Valid() && Pruned(rq, old(table.home), table.home)
        invariant forall r :: r in chain[..i] ==> !Matches(r, offset)
      {
        ghost var before := table.home;
        var hit := Probe(chain[i], offset);
        PrunedMore(rq, old(table.home), before, chain[i]);
        if hit {
          return Some(chain[i]);
        }
        assert chain[..i + 1] == chain[..i] + [chain[i]];
      }
      assert chain[..|chain|] == chain;
      found := None;
    }

    /** The scheduler's part of __elv_add_request with ELEVATOR_INSERT_SORT. */
    method AddSorted(r: Id, attr: Rq)
      requires Valid() && r !in sorted && r !in queue
      modifies this, table`home, table.buckets
      ensures Valid() && sorted == old(sorted) + {r} && rq == old(rq)[r := attr] && queue == old(queue)
      ensures endSector == old(endSector)
      ensures lastMerge == if attr.mergeable && old(lastMerge).None? then Some(r) else old(lastMerge)
      ensures table.home == if attr.mergeable then old(table.home)[r := table.hash(attr.Key())] else old(table.home)
    {
      rq := rq[r := attr];
      sorted := sorted + {r};
      nrSorted := nrSorted + 1;
      if attr.mergeable {
        table.Add(r, attr.Key());
        if lastMerge.None? {
          lastMerge := Some(r);
        }
      }
    }

    /** The common start of elv_dispatch_sort and elv_dispatch_add_tail: out of the scheduler's books. */
    method Detach(r: Id)
      requires Valid() && r in sorted
      modifies this, table`home, table.buckets
      ensures Valid() && sorted == old(sorted) - {r} && rq == old(rq) && queue == old(queue)
      ensures endSector == old(endSector) && table.home == old(table.home) - {r}
      ensures lastMerge == if old(lastMerge) == Some(r) then None else old(lastMerge)
    {
      if lastMerge == Some(r) {
        lastMerge := None;
      }
      table.Del(r);
      nrSorted := nrSorted - 1;
      sorted := sorted - {r};
    }

    /** Sorted into a queue whose runs are in one-way order, the request leaves them so. */
    method DispatchInOrder(r: Id)
      requires Valid() && r in sorted && OneWay(Attrs(rq, queue), endSector)
      modifies this, table`home, table.buckets
      ensures Valid() && endSector == old(endSector) && OneWay(Attrs(rq, queue), endSector)
    {
      SortKeepsOrder(Attrs(rq, queue), rq[r], endSector);
      DispatchSort(r);
    }

    /** elv_dispatch_sort */
    method DispatchSort(r: Id)
      requires Valid() && r in sorted
      modifies this, table`home, table.buckets
      ensures Valid() && sorted == old(sorted) - {r} && rq == old(rq) && endSector == old(endSector)
      ensures lastMerge != Some(r) && r !in table.home
      ensures Attrs(rq, queue) == Inserted(old(Attrs(rq, queue)), rq[r], endSector)
      ensures exists k :: 0 <= k <= |old(queue)| && queue == old(queue)[..k] + [r] + old(queue)[k..]
    {
      Detach(r);
      var k := FindSlot(r);
      Splice(rq, queue, k, r);
      queue := queue[..k] + [r] + queue[k..];
    }

    /** The walk from the tail of queue_head. */
    method FindSlot(r: Id) returns (k: nat)
      requires r in rq && forall x :: x in queue ==> x in rq
      ensures k <= |queue| && k == Slot(Attrs(rq, queue), rq[r], endSector, |queue|)
    {
      var boundary := endSector;
      ghost var q := Attrs(rq, queue);
      k := |queue|;
      while k > 0 && !Stops(boundary, rq[r], rq[queue[k - 1]])
        invariant 0 <= k <= |queue|
        invariant Slot(q, rq[r], boundary, |q|) == Slot(q, rq[r], boundary, k)
      {
        k := k - 1;
      }
    }

    /** elv_dispatch_add_tail */
    method DispatchAddTail(r: Id)
      requires Valid() && r in sorted
      modifies this, table`home, table.buckets
      ensures Valid() && sorted == old(sorted) - {r} && rq == old(rq)
      ensures queue == old(queue) + [r] && endSector == rq[r].Key()
      ensures lastMerge != Some(r) && r !in table.home
    {
      Detach(r);
      endSector := rq[r].Key();
      queue := queue + [r];
    }

    /** elv_merged_request after a bio was added to `r` in the scheduler: at the back its end has moved. */
    method MergedRequest(r: Id, attr: Rq, back: bool)
      requires Valid() && r in sorted && (back || attr.Key() == rq[r].Key())
      modifies this, table`home, table.buckets
      ensures Valid() && sorted == old(sorted) && queue == old(queue) && endSector == old(endSector)
      ensures rq == old(rq)[r := attr] && lastMerge == Some(r)
      ensures table.home == if back then old(table.home)[r := table.hash(attr.Key())] else old(table.home)
    {
      rq := rq[r := attr];
      if back {
        table.Reposition(r, attr.Key());
      }
      lastMerge := Some(r);
    }

    /** elv_merge_requests: `r` now ends where `next` did, and `next` is gone. */
    method MergeRequests(r: Id, next: Id, attr: Rq)
      requires Valid() && r in sorted && r != next && next !in queue
      modifies this, table`home, table.buckets
      ensures Valid() && sorted == old(sorted) - {next} && queue == old(queue) && endSector == old(endSector)
      ensures rq == old(rq)[r := attr] && lastMerge == Some(r)
      ensures table.home == old(table.home)[r := table.hash(attr.Key())] - {next}
    {
      MergedRequest(r, attr, true);
      Leave(next);
    }

    /** A request merged away leaves the scheduler, if it was there. */
    method Leave(next: Id)
      requires Valid() && lastMerge != Some(next)
      modifies this`sorted, this`nrSorted, table`home, table.buckets
      ensures Valid() && sorted == old(sorted) - {next} && table.home == old(table.home) - {next}
    {
      if next in sorted {
        table.Del(next);
        nrSorted := nrSorted - 1;
        sorted := sorted - {next};
      } else {
        assert table.home - {next} == table.home;
      }
    }
  }

  /** The requests of a queue. */
  function Attrs(rq: map<Id, Rq>, queue: seq<Id>): (q: seq<Rq>)
    requires forall r :: r in queue ==> r in rq
    ensures |q| == |queue| && forall i :: 0 <= i < |q| ==> q[i] == rq[queue[i]]
  {
    seq(|queue|, i requires 0 <= i < |queue| => rq[queue[i]])
  }

  lemma {:induction false} Splice(rq: map<Id, Rq>, queue: seq<Id>, k: nat, r: Id)
    requires k <= |queue| && r in rq && forall x :: x in queue ==> x in rq
    ensures Attrs(rq, queue[..k] + [r] + queue[k..]) ==
              Attrs(rq, queue)[..k] + [rq[r]] + Attrs(rq, queue)[k..]
  {
  }
}
