/** The sequencer as the source writes it: one object whose fields change in place. */
module FlushQueue {
  import opened Lists
  import opened FlushModel
  import opened FlushStructure

  datatype Cursor = End | At(r: Rid)

  function First(l: seq<Rid>): Cursor { if l == [] then End else At(l[0]) }

  /** rq->flush.list.next within the list as it is now. */
  function Next(l: seq<Rid>, r: Rid): Cursor {
    if l == [] then End else if l[0] == r then First(l[1..]) else Next(l[1..], r)
  }

  class RequestQueue {
    var queue: Queues
    var pending: bool
    var running: bool
    var dataInFlight: seq<Rid>
    var pendingSince: nat
    var delayed: bool
    var head: seq<Entry>
    var started: set<Entry>
    var now: nat
    var hz: nat
    var rqs: map<Rid, Rq>
    var nextId: Rid
    var flushes: nat
    var issuedAt: nat
    var log: seq<Event>

    ghost function View(): FQ
      reads this
    {
      FQ(queue, pending, running, dataInFlight, pendingSince, delayed, head, started, now, hz,
         rqs, nextId, flushes, issuedAt, log)
    }

    constructor (hz: nat)
      ensures View() == Init(hz)
    {
      queue, pending, running, dataInFlight := Queues([], []), false, false, [];
      pendingSince, delayed, head, started, now := 0, false, [], {}, 0;
      this.hz := hz;
      rqs, nextId, flushes, issuedAt, log := map[], 0, 0, 0, [];
    }

    /** blk_kick_flush */
    method KickFlush() returns (issued: bool)
      modifies this
      ensures View() == FlushModel.KickFlush(old(View()))
      ensures |head| == old(|head|) + if issued then 1 else 0
    {
      if pending != running || queue.At(pending) == [] {
        return false;
      }
      if dataInFlight != [] && now < pendingSince + 5 * hz {
        return false;
      }
      issuedAt := |log|;
      log := log + [FlushIssued(flushes)];
      flushes := flushes + 1;
      pending := !pending;
      head := head + [FlushEntry];
      return true;
    }

    method ListDel(r: Rid)
      modifies this`queue, this`dataInFlight
      ensures View() == Detach(old(View()), r)
    {
      queue := Queues(Without(queue.q0, r), Without(queue.q1, r));
      dataInFlight := Without(dataInFlight, r);
    }

    /** blk_flush_restore_request and __blk_end_request_all */
    method EndRestored(r: Rid, ok: bool)
      requires r in rqs
      modifies this`rqs, this`log
      ensures View() == EndSequence(old(View()), r, ok)
    {
      rqs := rqs[r := rqs[r].(bio := true, inSeq := false)];
      rqs := rqs[r := UpdateBio(rqs[r], rqs[r].left, ok)];
      log := log + [BioEnded(r, rqs[r].uptodate)];
      rqs := rqs - {r};
      log := log + [Accounted(r)];
      assert rqs == old(rqs) - {r};
    }

    /** The list part of PREFLUSH and POSTFLUSH in blk_flush_complete_seq. */
    method WaitForFlush(r: Rid, wasEmpty: bool)
      requires r in rqs
      modifies this`queue, this`pendingSince, this`rqs
      ensures View() == JoinPending(old(View()), r, wasEmpty)
    {
      if wasEmpty {
        pendingSince := now;
      }
      queue := queue.Put(pending, queue.At(pending) + [r]);
      rqs := rqs[r := rqs[r].(joined := |log|, since := now)];
    }

    /** The list part of DATA in blk_flush_complete_seq. */
    method DispatchData(r: Rid)
      requires r in rqs
      modifies this`dataInFlight, this`head, this`log
      ensures View() == QueueData(old(View()), r)
    {
      dataInFlight := dataInFlight + [r];
      head := [RqEntry(r)] + head;
      log := log + [DataQueued(r, rqs[r].fua)];
    }

    /** The finished steps are marked and the request comes off its list. */
    method MarkDone(r: Rid, done: Mask)
      requires r in rqs && !rqs[r].fseq.Meets(done)
      modifies this
      ensures r in rqs && rqs[r] == old(rqs)[r].(fseq := old(rqs)[r].fseq.Or(done)) && head == old(head)
      ensures View() == Detach(old(View()).(rqs := old(rqs)[r := rqs[r]]), r)
    {
      assert !rqs[r].fseq.Meets(done);                        // BUG_ON(rq->flush.seq & seq)
      rqs := rqs[r := rqs[r].(fseq := rqs[r].fseq.Or(done))];
      ListDel(r);
    }

    /** blk_flush_complete_seq without its final kick. */
    method AdvanceSeq(r: Rid, done: Mask, ok: bool) returns (queued: bool)
      requires r in rqs && !rqs[r].fseq.Meets(done) && RqEntry(r) !in head
      modifies this
      ensures View() == Advance(old(View()), r, done, ok)
      ensures |head| == old(|head|) + if queued then 1 else 0
    {
      queued := false;
      var wasEmpty := queue.At(pending) == [];
      MarkDone(r, done);
      AdvanceShape(old(View()), r, done, ok, rqs[r], View());
      var stage := if ok then rqs[r].fseq.Current() else Done;
      match stage {
        case Data =>
          DispatchData(r);
          queued := true;
        case Done =>
          assert RqEntry(r) !in head;                         // BUG_ON(!list_empty(&rq->queuelist))
          EndRestored(r, ok);
        case _ =>
          WaitForFlush(r, wasEmpty);
      }
    }

    /** blk_flush_complete_seq */
    method CompleteSeq(r: Rid, done: Mask, ok: bool) returns (queued: bool)
      requires r in rqs && !rqs[r].fseq.Meets(done) && RqEntry(r) !in head
      modifies this
      ensures View() == FlushModel.CompleteSeq(old(View()), r, done, ok)
      ensures queued <==> Grew(old(View()), View())
      ensures |head| >= old(|head|)
    {
      queued := AdvanceSeq(r, done, ok);
      var issued := KickFlush();
      queued := queued || issued;
    }

    method RunQueueAsync()
      modifies this`log
      ensures View() == old(View()).(log := old(log) + [QueueRun])
    {
      log := log + [QueueRun];
    }

    /** One visit of flush_end_io's loop, `walked` being the index of the list it walks. */
    method Visit(r: Rid, walked: bool, ok: bool, ghost walk: seq<Rid>) returns (queued: bool)
      requires OnWalk(View(), walk, walked) && walk != [] && r == walk[0]
      modifies this
      ensures OnWalk(View(), walk[1..], walked)
      ensures View() == FlushModel.CompleteSeq(old(View()), r, BitOf(old(View()).rqs[r].fseq.Current()), ok)
      ensures |head| >= old(|head|) && (queued <==> Grew(old(View()), View()))
      ensures delayed == old(delayed)
    {
      ghost var before := View();
      var stage := rqs[r].fseq.Current();
      VisitFacts(before, walk, walked, r, ok);
      assert stage == Preflush || stage == Postflush;         // BUG_ON in the loop
      queued := CompleteSeq(r, BitOf(stage), ok);
    }

    /** The loop of flush_end_io.  It follows the list as it is, while the calls it makes may
        issue the next flush and turn the list it walks into the pending one. */
    method WalkRunning(walked: bool, ok: bool, ghost waiting: seq<Rid>) returns (queued: bool)
      requires OnWalk(View(), waiting, walked) && queue.At(walked) == waiting
      modifies this
      ensures View() == PushWaiting(old(View()), waiting, ok)
      ensures queued <==> Grew(old(View()), View())
      ensures delayed == old(delayed)
    {
      ghost var walk := waiting;
      queued := false;
      var cur := First(queue.At(walked));
      while cur.At?
        invariant OnWalk(View(), walk, walked) && cur == First(walk)
        invariant PushWaiting(View(), walk, ok) == PushWaiting(old(View()), waiting, ok)
        invariant |head| >= old(|head|) && (queued <==> Grew(old(View()), View()))
        invariant delayed == old(delayed)
        decreases |walk|
      {
        var n := Next(queue.At(walked), cur.r);
        assert n == First(walk[1..]);
        var q := Visit(cur.r, walked, ok, walk);
        queued := queued || q;
        walk := walk[1..];
        cur := n;
      }
    }

    method Retire(ok: bool)
      requires flushes > 0
      modifies this`running, this`started, this`log
      ensures View() == RetireFlush(old(View()), ok)
    {
      running := !running;
      started := started - {FlushEntry};
      log := log + [FlushEnded(flushes - 1, ok)];
    }

    /** flush_end_io */
    method FlushEndIo(ok: bool)
      requires Good(View()) && Enabled(View(), FinishFlush(ok))
      modifies this
      ensures View() == EndFlush(old(View()), ok)
    {
      ghost var q := View();
      ghost var waiting := queue.At(running);
      var walked := running;
      RetireOnWalk(q, ok);
      assert pending != running;                              // BUG_ON(pending_idx == running_idx)
      Retire(ok);
      var queued := WalkRunning(walked, ok, waiting);
      ghost var pushed := PushWaiting(RetireFlush(q, ok), waiting, ok);
      assert View() == pushed && (queued <==> Grew(q, pushed));
      Settle(queued);
      assert View() == RunIf(pushed, Grew(q, pushed) || q.delayed).(delayed := false);
    }

    /** The end of flush_end_io: restart the queue if it got work or was held. */
    method Settle(queued: bool)
      modifies this`log, this`delayed
      ensures View() == RunIf(old(View()), queued || old(delayed)).(delayed := false)
    {
      if queued || delayed {
        RunQueueAsync();
      }
      delayed := false;
    }

    /** flush_data_end_io */
    method FlushDataEndIo(r: Rid, ok: bool)
      requires r in rqs && !rqs[r].fseq.Meets(DATA_BIT) && RqEntry(r) !in head
      modifies this
      ensures var c := FlushModel.CompleteSeq(old(View()), r, DATA_BIT, ok);
              View() == RunIf(c, Grew(old(View()), c))
    {
      var queued := CompleteSeq(r, DATA_BIT, ok);
      if queued {
        RunQueueAsync();
      }
    }

    /** blk_finish_request */
    method Finish(r: Rid, ok: bool)
      requires r in rqs && RqEntry(r) !in head && (rqs[r].inSeq ==> !rqs[r].fseq.Meets(DATA_BIT))
      modifies this
      ensures View() == FinishRequest(old(View()), r, ok)
    {
      assert RqEntry(r) !in head;                             // BUG_ON(blk_queued_rq(req))
      rqs := rqs[r := rqs[r].(fin := |log|)];
      started := started - {RqEntry(r)};
      log := log + [DataFinished(r, rqs[r].fua, rqs[r].uptodate)];
      if rqs[r].inSeq {
        FlushDataEndIo(r, ok);
      } else {
        log := log + [BioEnded(r, rqs[r].uptodate)];
        rqs := rqs - {r};
        log := log + [Accounted(r)];
      }
    }

    /** blk_end_request on a request the driver has started. */
    method EndRequest(r: Rid, n: nat, ok: bool) returns (more: bool)
      requires Good(View()) && Enabled(View(), FinishData(r, n, ok))
      modifies this
      ensures View() == EndData(old(View()), r, n, ok)
      ensures more <==> n < old(rqs)[r].left
    {
      assert rqs[r].bio && RqEntry(r) !in head && (rqs[r].inSeq ==> !rqs[r].fseq.Meets(DATA_BIT)) by {
        assert Dispatched(View(), RqEntry(r));
        if rqs[r].inSeq {
          DataStage(View(), r);
        }
      }
      rqs := rqs[r := UpdateBio(rqs[r], n, ok)];
      if rqs[r].bio {
        return true;
      }
      Finish(r, ok);
      return false;
    }

    /** The part of blk_insert_flush that looks at the request. */
    method Arrive(bytes: nat, flush: bool, fua: bool, dev: Device) returns (r: Rid)
      modifies this`rqs, this`nextId, this`log
      ensures r == old(nextId) && View() == Arrival(old(View()), bytes, flush, fua, dev)
    {
      r := nextId;
      var policy := Policy(dev, bytes > 0, flush, fua);
      rqs := rqs[r := Rq(bytes, fua && dev.fua, Mask(false, false, false), policy.pre || policy.post,
                         true, bytes, true, policy, |log|, 0, |log| + 1, now)];
      nextId := nextId + 1;
      log := log + [Submitted(r, bytes, flush, fua, dev)];
    }

    /** blk_insert_flush */
    method InsertFlush(bytes: nat, flush: bool, fua: bool, dev: Device) returns (r: Rid)
      requires Good(View()) && Enabled(View(), Submit(bytes, flush, fua, dev))
      modifies this
      ensures r == old(nextId)
      ensures View() == FlushModel.InsertFlush(old(View()), bytes, flush, fua, dev)
    {
      assert RqEntry(nextId) !in head by { assert !Dispatched(View(), RqEntry(nextId)); }
      r := Arrive(bytes, flush, fua, dev);
      var policy := Policy(dev, bytes > 0, flush, fua);
      if policy == Mask(false, false, false) {
        EndRestored(r, true);
        return;
      }
      if policy.data && !policy.pre && !policy.post {
        head := head + [RqEntry(r)];
        log := log + [DataQueued(r, rqs[r].fua)];
        return;
      }
      var _ := CompleteSeq(r, policy.Not(), true);
    }

    /** __elv_next_request */
    method NextRequest(queueable: bool) returns (found: bool, e: Entry)
      modifies this`delayed
      ensures View() == Peek(old(View()), queueable)
      ensures found <==> head != []
      ensures found ==> e == head[0]
    {
      if head != [] {
        return true, head[0];
      }
      if pending != running && !queueable {
        delayed := true;
      }
      return false, FlushEntry;
    }
  }

  /** What holds each time round the loop of flush_end_io. */
  ghost predicate OnWalk(q: FQ, walk: seq<Rid>, walked: bool) {
    && Struct(q, walk, {}) && NoDup(walk) && (forall x :: x in walk ==> x in q.rqs)
    && (walk == [] || q.queue.At(walked) == walk)
    && (if Flying(q) then walked == q.pending else walked == !q.pending)
  }

  /** What waits for a flush is not on the dispatch queue. */
  lemma {:induction false} NotDispatched(q: FQ, walk: seq<Rid>, r: Rid)
    requires Struct(q, walk, {}) && walk != [] && r == walk[0] && r in q.rqs
    ensures RqEntry(r) !in q.head
  {
    assert r in q.queue.q0 || r in q.queue.q1;
    assert On(q, r);
    assert Dispatched(q, RqEntry(r)) ==> r in q.dataInFlight;
  }

  /** Only a kick moves the indices, and it toggles the pending one. */
  lemma {:induction false} WalkedIndex(q: FQ, r: Rid, done: Mask, ok: bool)
    requires r in q.rqs
    ensures var c := FlushModel.CompleteSeq(q, r, done, ok);
            && c.running == q.running && c.delayed == q.delayed
            && (Flying(q) ==> c.pending == q.pending)
            && (!Flying(q) ==> c.pending == if Flying(c) then !q.pending else q.pending)
  {
  }

  lemma {:induction false} RetireOnWalk(q: FQ, ok: bool)
    requires Good(q) && Enabled(q, FinishFlush(ok))
    ensures q.pending != q.running && OnWalk(RetireFlush(q, ok), q.queue.At(q.running), q.running)
  {
    RetireFlushStruct(q, ok);
  }

  lemma {:induction false} VisitFacts(q: FQ, walk: seq<Rid>, walked: bool, r: Rid, ok: bool)
    requires OnWalk(q, walk, walked) && walk != [] && r == walk[0]
    ensures var s := q.rqs[r].fseq.Current();
            && (s == Preflush || s == Postflush) && !q.rqs[r].fseq.Meets(BitOf(s))
            && RqEntry(r) !in q.head && FlushModel.CompleteSeq(q, r, BitOf(s), ok).delayed == q.delayed
            && OnWalk(FlushModel.CompleteSeq(q, r, BitOf(s), ok), walk[1..], walked)
  {
    var s := q.rqs[r].fseq.Current();
    VisitStage(q, walk, r, s, q.rqs[r].fseq.Or(BitOf(s)));
    VisitStruct(q, walk, ok);
    NotDispatched(q, walk, r);
    WalkedIndex(q, r, BitOf(s), ok);
  }
}
