/** Where requests stand between, and inside, the steps of the sequencer. */
module FlushStructure {
  import opened Lists
  import opened FlushModel

  predicate Flying(q: FQ) { q.pending != q.running }

  ghost predicate On(q: FQ, r: Rid) { r in q.queue.q0 || r in q.queue.q1 || r in q.dataInFlight }

  ghost predicate Dispatched(q: FQ, e: Entry) { e in q.head || e in q.started }

  /** Every sequenced request that is not `loose` stands on exactly one list, exactly once. */
  ghost predicate Placement(q: FQ, loose: set<Rid>) {
    && NoDup(q.queue.q0) && NoDup(q.queue.q1) && NoDup(q.dataInFlight)
    && (forall r :: r in q.queue.q0 ==> r !in q.queue.q1)
    && (forall r :: r in q.dataInFlight ==> r !in q.queue.q0 && r !in q.queue.q1)
    && (forall r :: On(q, r) ==> r in q.rqs && r !in loose && q.rqs[r].inSeq)
    && (forall r :: r in q.rqs && q.rqs[r].inSeq && r !in loose ==> On(q, r))
    && (forall r :: r in q.rqs ==> r < q.nextId)
  }

  /** The sequence bits and the bio of a request that is being sequenced. */
  ghost predicate RqOk(rq: Rq) {
    && (!rq.policy.pre ==> rq.fseq.pre)
    && (!rq.policy.data ==> rq.fseq.data)
    && (!rq.policy.post ==> rq.fseq.post)
    && (rq.policy.data <==> rq.bytes > 0)
    && (rq.policy.post ==> rq.policy.data)
    && (rq.fseq.data && rq.policy.data ==> rq.fseq.pre)
    && (rq.fseq.post && rq.policy.post ==> rq.fseq.data)
    && (!rq.fseq.data ==> rq.bio && rq.left > 0)
    && (rq.fseq.data ==> rq.left == 0)
  }

  /** The list a request is on is the one its lowest clear bit calls for. */
  ghost predicate Stages(q: FQ, loose: set<Rid>) {
    && (forall r :: r in q.rqs && q.rqs[r].inSeq && r !in loose ==> RqOk(q.rqs[r]))
    && (forall r :: r in q.rqs && (r in q.queue.q0 || r in q.queue.q1) ==>
          q.rqs[r].fseq.Current() == Preflush || q.rqs[r].fseq.Current() == Postflush)
    && (forall r :: r in q.rqs && r in q.dataInFlight ==> q.rqs[r].fseq.Current() == Data)
  }

  /** The two queues and their indices.  `walk` is what flush_end_io has still to visit:
      it is the queue that is not pending until a flush is issued under the walk, and the
      pending one from then on. */
  ghost predicate Indices(q: FQ, walk: seq<Rid>) {
    && (!Flying(q) ==> q.queue.At(!q.pending) == walk)
    && (Flying(q) ==> q.queue.At(q.running) != [] && q.flushes > 0)
    && (Flying(q) ==> walk == [] || q.queue.At(q.pending) == walk)
  }

  ghost predicate Entries(q: FQ, loose: set<Rid>) {
    && (forall i, j :: 0 <= i < j < |q.head| ==> q.head[i] != q.head[j])
    && (forall e :: e in q.head ==> e !in q.started)
    && (Dispatched(q, FlushEntry) <==> Flying(q))
    && (forall r :: Dispatched(q, RqEntry(r)) ==>
          && r in q.rqs && r !in loose && q.rqs[r].bio && q.rqs[r].left > 0
          && (q.rqs[r].inSeq ==> r in q.dataInFlight))
    && (forall r :: r in q.rqs && r !in loose && (q.rqs[r].inSeq ==> r in q.dataInFlight) ==>
          Dispatched(q, RqEntry(r)))
  }

  ghost predicate Struct(q: FQ, walk: seq<Rid>, loose: set<Rid>) {
    Placement(q, loose) && Stages(q, loose) && Indices(q, walk) && Entries(q, loose)
  }

  /** No stall: waiting requests and no flush in flight means that some data is in flight. */
  ghost predicate NoStall(q: FQ) {
    !Flying(q) && q.queue.At(q.pending) != [] ==> q.dataInFlight != []
  }

  /** A queue held by __elv_next_request waits for a flush that is in flight. */
  ghost predicate Held(q: FQ) { q.delayed ==> Flying(q) }

  ghost predicate Good(q: FQ) { Struct(q, [], {}) && NoStall(q) && Held(q) }

  // ---- the pieces of blk_flush_complete_seq ----

  /** blk_flush_complete_seq takes the request off its list and then does one of three things. */
  lemma {:induction false} AdvanceShape(q: FQ, r: Rid, done: Mask, ok: bool, rq: Rq, d: FQ)
    requires r in q.rqs && rq == q.rqs[r].(fseq := q.rqs[r].fseq.Or(done))
    requires d == Detach(q.(rqs := q.rqs[r := rq]), r)
    ensures Advance(q, r, done, ok) ==
            if !ok || rq.fseq.Current() == Done then EndSequence(d, r, ok)
            else if rq.fseq.Current() == Data then QueueData(d, r)
            else JoinPending(d, r, q.queue.At(q.pending) == [])
  {
  }

  /** A request comes off its list. */
  lemma {:induction false} DetachPlacement(q: FQ, r: Rid, rq: Rq, d: FQ)
    requires Placement(q, {}) && Stages(q, {}) && r in q.rqs
    requires d == Detach(q.(rqs := q.rqs[r := rq], started := d.started, log := d.log), r)
    ensures Placement(d, {r}) && Stages(d, {r})
    ensures forall x :: On(d, x) <==> On(q, x) && x != r
  {
    WithoutNoDup(q.queue.q0, r);
    WithoutNoDup(q.queue.q1, r);
    WithoutNoDup(q.dataInFlight, r);
    assert forall x :: On(d, x) <==> On(q, x) && x != r;
  }

  lemma {:induction false} DetachIndices(q: FQ, walk: seq<Rid>, rq: Rq)
    requires Placement(q, {}) && Indices(q, walk) && walk != []
    ensures Indices(Detach(q.(rqs := q.rqs[walk[0] := rq]), walk[0]), walk[1..])
  {
    var r := walk[0];
    assert r in q.queue.q0 || r in q.queue.q1;
    WithoutNoDup(q.queue.q0, r);
    WithoutNoDup(q.queue.q1, r);
  }

  /** Taking the first request of the walk off its list. */
  lemma {:induction false} DetachWalk(q: FQ, walk: seq<Rid>, rq: Rq)
    requires Struct(q, walk, {}) && walk != [] && walk[0] in q.rqs
    ensures Struct(Detach(q.(rqs := q.rqs[walk[0] := rq]), walk[0]), walk[1..], {walk[0]})
  {
    var r := walk[0];
    var d := Detach(q.(rqs := q.rqs[r := rq]), r);
    assert r in q.queue.q0 || r in q.queue.q1;
    DetachPlacement(q, r, rq, d);
    DetachIndices(q, walk, rq);
    assert On(q, r) && !Dispatched(q, RqEntry(r));
    assert forall e :: Dispatched(d, e) <==> Dispatched(q, e);
    assert Entries(d, {r});
  }

  lemma {:induction false} JoinPendingStruct(q: FQ, r: Rid, wasEmpty: bool)
    requires Struct(q, [], {r}) && r in q.rqs && q.rqs[r].inSeq && RqOk(q.rqs[r])
    requires q.rqs[r].fseq.Current() == Preflush || q.rqs[r].fseq.Current() == Postflush
    ensures Struct(JoinPending(q, r, wasEmpty), [], {})
  {
    var j := JoinPending(q, r, wasEmpty);
    JoinPlacement(q, r, j);
    assert Stages(j, {});
    assert Indices(j, []);
    assert forall e :: Dispatched(j, e) <==> Dispatched(q, e);
    assert Entries(j, {});
  }

  lemma {:induction false} JoinPlacement(q: FQ, r: Rid, j: FQ)
    requires Placement(q, {r}) && r in q.rqs && q.rqs[r].inSeq
    requires j == JoinPending(q, r, true) || j == JoinPending(q, r, false)
    ensures Placement(j, {}) && forall x :: On(j, x) <==> On(q, x) || x == r
  {
    assert !On(q, r);
    assert forall x :: On(j, x) <==> On(q, x) || x == r;
  }

  lemma {:induction false} QueueDataStruct(q: FQ, walk: seq<Rid>, r: Rid)
    requires Struct(q, walk, {r}) && r in q.rqs && q.rqs[r].inSeq && RqOk(q.rqs[r])
    requires q.rqs[r].fseq.Current() == Data
    ensures Struct(QueueData(q, r), walk, {})
  {
    var j := QueueData(q, r);
    assert forall x :: On(j, x) <==> On(q, x) || x == r;
    assert !Dispatched(q, RqEntry(r));
    assert forall e :: Dispatched(j, e) <==> Dispatched(q, e) || e == RqEntry(r);
    assert Placement(j, {});
    assert Entries(j, {});
  }

  lemma {:induction false} EndSequenceStruct(q: FQ, walk: seq<Rid>, r: Rid, ok: bool)
    requires Struct(q, walk, {r}) && r in q.rqs
    ensures Struct(EndSequence(q, r, ok), walk, {})
  {
    var j := EndSequence(q, r, ok);
    assert j.rqs == q.rqs - {r};
    assert forall x :: On(j, x) <==> On(q, x);
    assert forall e :: Dispatched(j, e) <==> Dispatched(q, e);
    assert Placement(j, {});
    assert Stages(j, {});
    assert Entries(j, {});
  }

  lemma {:induction false} KickStruct(q: FQ, walk: seq<Rid>)
    requires Struct(q, walk, {})
    ensures Struct(KickFlush(q), walk, {}) && NoStall(KickFlush(q))
    ensures Flying(q) ==> KickFlush(q) == q
  {
    var k := KickFlush(q);
    assert forall x :: On(k, x) <==> On(q, x);
    assert Placement(k, {});
    assert Stages(k, {});
    if k != q {
      assert !Dispatched(q, FlushEntry);
      assert forall e :: Dispatched(k, e) <==> Dispatched(q, e) || e == FlushEntry;
      assert Indices(k, walk);
      assert Entries(k, {});
    }
  }

  /** What the flush that ended means for the first request of the walk. */
  lemma {:induction false} VisitStage(q: FQ, walk: seq<Rid>, r: Rid, s: Stage, next: Mask)
    requires Struct(q, walk, {}) && walk != [] && r == walk[0] && r in q.rqs
    requires s == q.rqs[r].fseq.Current() && next == q.rqs[r].fseq.Or(BitOf(s))
    ensures q.rqs[r].inSeq && (s == Preflush || s == Postflush) && !q.rqs[r].fseq.Meets(BitOf(s))
    ensures RqOk(q.rqs[r]) && RqOk(q.rqs[r].(fseq := next))
    ensures next.Current() == Done || (next.Current() == Data && s == Preflush)
  {
    assert r in q.queue.q0 || r in q.queue.q1;
    assert On(q, r);
    assert RqOk(q.rqs[r]);
  }

  lemma {:induction false} VisitAdvance(q: FQ, walk: seq<Rid>, ok: bool)
    requires Struct(q, walk, {}) && walk != [] && walk[0] in q.rqs
    ensures Struct(Advance(q, walk[0], BitOf(q.rqs[walk[0]].fseq.Current()), ok), walk[1..], {})
  {
    var r := walk[0];
    var bit := BitOf(q.rqs[r].fseq.Current());
    VisitStage(q, walk, r, q.rqs[r].fseq.Current(), q.rqs[r].fseq.Or(bit));
    var rq := q.rqs[r].(fseq := q.rqs[r].fseq.Or(bit));
    var d := Detach(q.(rqs := q.rqs[r := rq]), r);
    assert Struct(d, walk[1..], {r}) by { DetachWalk(q, walk, rq); }
    AdvanceShape(q, r, bit, ok, rq, d);
    if ok && rq.fseq.Current() == Data {
      QueueDataStruct(d, walk[1..], r);
    } else {
      EndSequenceStruct(d, walk[1..], r, ok);
    }
  }

  /** One visit of the loop in flush_end_io. */
  lemma {:induction false} VisitStruct(q: FQ, walk: seq<Rid>, ok: bool)
    requires Struct(q, walk, {}) && walk != [] && walk[0] in q.rqs
    ensures var next := CompleteSeq(q, walk[0], BitOf(q.rqs[walk[0]].fseq.Current()), ok);
            Struct(next, walk[1..], {}) && NoStall(next)
  {
    VisitAdvance(q, walk, ok);
    KickStruct(Advance(q, walk[0], BitOf(q.rqs[walk[0]].fseq.Current()), ok), walk[1..]);
  }

  lemma {:induction false} PushWaitingStruct(q: FQ, walk: seq<Rid>, ok: bool)
    requires Struct(q, walk, {})
    requires NoDup(walk) && (forall x :: x in walk ==> x in q.rqs)
    requires walk == [] ==> NoStall(q)
    ensures Struct(PushWaiting(q, walk, ok), [], {}) && NoStall(PushWaiting(q, walk, ok))
    decreases |walk|
  {
    if walk != [] {
      VisitStruct(q, walk, ok);
      PushWaitingStruct(CompleteSeq(q, walk[0], BitOf(q.rqs[walk[0]].fseq.Current()), ok), walk[1..], ok);
    }
  }

  // ---- the steps ----

  lemma {:induction false} RetireFlushStruct(q: FQ, ok: bool)
    requires Struct(q, [], {}) && FlushEntry in q.started
    ensures Flying(q) && q.flushes > 0
    ensures var walk := q.queue.At(q.running);
            walk != [] && NoDup(walk) && (forall x :: x in walk ==> x in q.rqs)
            && Struct(RetireFlush(q, ok), walk, {})
  {
    assert Dispatched(q, FlushEntry);
    var j := RetireFlush(q, ok);
    assert forall x :: x in q.queue.At(q.running) ==> On(q, x);
    assert forall x :: On(j, x) <==> On(q, x);
    assert forall r :: Dispatched(j, RqEntry(r)) <==> Dispatched(q, RqEntry(r));
    assert Placement(j, {});
    assert Entries(j, {});
  }

  lemma {:induction false} EndFlushGood(q: FQ, ok: bool)
    requires Good(q) && Enabled(q, FinishFlush(ok))
    ensures Good(EndFlush(q, ok))
  {
    RetireFlushStruct(q, ok);
    PushWaitingStruct(RetireFlush(q, ok), q.queue.At(q.running), ok);
    SameLists(PushWaiting(RetireFlush(q, ok), q.queue.At(q.running), ok), EndFlush(q, ok));
  }

  /** Fields the invariant does not speak about. */
  lemma {:induction false} SameLists(q: FQ, q': FQ)
    requires Struct(q, [], {}) && NoStall(q)
    requires q' == q.(log := q'.log, delayed := q'.delayed, now := q'.now)
    ensures Struct(q', [], {}) && NoStall(q')
  {
    assert forall x :: On(q', x) <==> On(q, x);
    assert forall e :: Dispatched(q', e) <==> Dispatched(q, e);
  }

  lemma {:induction false} DetachFinished(q: FQ, r: Rid, rq: Rq, f: FQ)
    requires Struct(q, [], {}) && r in q.rqs && q.rqs[r].inSeq && RqEntry(r) in q.started
    requires f == q.(rqs := q.rqs[r := rq], started := q.started - {RqEntry(r)}, log := f.log)
    ensures Struct(Detach(f, r), [], {r})
  {
    var d := Detach(f, r);
    assert Dispatched(q, RqEntry(r));
    DetachPlacement(q, r, rq, d);
    assert Indices(d, []) by {
      WithoutNoDup(q.queue.q0, r);
      WithoutNoDup(q.queue.q1, r);
    }
    assert forall e :: Dispatched(d, e) <==> Dispatched(q, e) && e != RqEntry(r);
    assert Entries(d, {r});
  }

  /** A request whose data is under way, and what the end of the data means for it. */
  lemma {:induction false} DataStage(q: FQ, r: Rid)
    requires Struct(q, [], {}) && r in q.rqs && q.rqs[r].inSeq && RqEntry(r) in q.started
    ensures !q.rqs[r].fseq.Meets(DATA_BIT) && r in q.dataInFlight && q.rqs[r].bio && q.rqs[r].left > 0
    ensures RqOk(q.rqs[r].(bio := false, left := 0, fseq := q.rqs[r].fseq.Or(DATA_BIT)))
    ensures q.rqs[r].fseq.Or(DATA_BIT).Current() == if q.rqs[r].policy.post then Postflush else Done
  {
    assert Dispatched(q, RqEntry(r));
    assert RqOk(q.rqs[r]);
  }

  lemma {:induction false} DataAdvance(q: FQ, r: Rid, rq: Rq, f: FQ, ok: bool)
    requires Struct(q, [], {}) && r in q.rqs && q.rqs[r].inSeq && RqEntry(r) in q.started
    requires rq == q.rqs[r].(bio := false, left := 0, uptodate := rq.uptodate, fin := rq.fin)
    requires f == q.(rqs := q.rqs[r := rq], started := q.started - {RqEntry(r)}, log := f.log)
    ensures Struct(Advance(f, r, DATA_BIT, ok), [], {})
  {
    DataStage(q, r);
    var rq' := rq.(fseq := rq.fseq.Or(DATA_BIT));
    var f' := f.(rqs := f.rqs[r := rq']);
    assert f'.rqs == q.rqs[r := rq'];
    var d := Detach(f', r);
    assert Struct(d, [], {r}) by { DetachFinished(q, r, rq', f'); }
    AdvanceShape(f, r, DATA_BIT, ok, rq', d);
    if ok && rq'.fseq.Current() == Postflush {
      JoinPendingStruct(d, r, f.queue.At(f.pending) == []);
    } else {
      EndSequenceStruct(d, [], r, ok);
    }
  }

  /** The DATA step of a sequenced request is over. */
  lemma {:induction false} DataSequenced(q: FQ, r: Rid, rq: Rq, f: FQ, ok: bool)
    requires Struct(q, [], {}) && r in q.rqs && q.rqs[r].inSeq && RqEntry(r) in q.started
    requires rq == q.rqs[r].(bio := false, left := 0, uptodate := rq.uptodate, fin := rq.fin)
    requires f == q.(rqs := q.rqs[r := rq], started := q.started - {RqEntry(r)}, log := f.log)
    ensures Struct(CompleteSeq(f, r, DATA_BIT, ok), [], {}) && NoStall(CompleteSeq(f, r, DATA_BIT, ok))
  {
    DataAdvance(q, r, rq, f, ok);
    KickStruct(Advance(f, r, DATA_BIT, ok), []);
  }

  lemma {:induction false} FlyingStays(q: FQ, r: Rid, done: Mask, ok: bool)
    requires r in q.rqs
    ensures Flying(q) ==> Flying(CompleteSeq(q, r, done, ok))
    ensures CompleteSeq(q, r, done, ok).delayed == q.delayed
  {
  }

  /** The driver reports a part of the data; more is left. */
  lemma {:induction false} PartialGood(q: FQ, r: Rid, rq: Rq)
    requires Good(q) && r in q.rqs && RqEntry(r) in q.started
    requires rq == q.rqs[r].(left := rq.left, uptodate := rq.uptodate) && rq.left > 0
    ensures Good(q.(rqs := q.rqs[r := rq]))
  {
    var j := q.(rqs := q.rqs[r := rq]);
    assert Dispatched(q, RqEntry(r));
    assert forall x :: On(j, x) <==> On(q, x);
    assert forall e :: Dispatched(j, e) <==> Dispatched(q, e);
    assert Placement(j, {}) && Stages(j, {}) && Entries(j, {});
  }

  lemma {:induction false} DirectDone(q: FQ, r: Rid, j: FQ)
    requires Good(q) && r in q.rqs && !q.rqs[r].inSeq && RqEntry(r) in q.started
    requires j == q.(rqs := q.rqs - {r}, started := q.started - {RqEntry(r)}, log := j.log)
    ensures Good(j)
  {
    assert !On(q, r);
    assert forall x :: On(j, x) <==> On(q, x);
    assert forall e :: Dispatched(j, e) <==> Dispatched(q, e) && e != RqEntry(r);
    assert Placement(j, {}) && Stages(j, {}) && Entries(j, {});
  }

  lemma {:induction false} SequencedShape(q: FQ, r: Rid, n: nat, ok: bool, rq: Rq, f: FQ, c: FQ)
    requires r in q.rqs && q.rqs[r].inSeq && q.rqs[r].bio && n >= q.rqs[r].left
    requires rq == UpdateBio(q.rqs[r], n, ok).(fin := |q.log|)
    requires f == q.(rqs := q.rqs[r := rq], started := q.started - {RqEntry(r)},
                     log := q.log + [DataFinished(r, rq.fua, rq.uptodate)])
    requires c == CompleteSeq(f, r, DATA_BIT, ok)
    ensures EndData(q, r, n, ok) == RunIf(c, Grew(f, c))
  {
    assert q.rqs[r := UpdateBio(q.rqs[r], n, ok)][r := rq] == f.rqs;
  }

  lemma {:induction false} SequencedDone(q: FQ, r: Rid, n: nat, ok: bool)
    requires Good(q) && Enabled(q, FinishData(r, n, ok)) && q.rqs[r].inSeq && n >= q.rqs[r].left
    ensures Good(EndData(q, r, n, ok))
  {
    assert q.rqs[r].bio by { DataStage(q, r); }
    var rq := UpdateBio(q.rqs[r], n, ok).(fin := |q.log|);
    var f := q.(rqs := q.rqs[r := rq], started := q.started - {RqEntry(r)},
                log := q.log + [DataFinished(r, rq.fua, rq.uptodate)]);
    var c := CompleteSeq(f, r, DATA_BIT, ok);
    SequencedShape(q, r, n, ok, rq, f, c);
    assert Struct(c, [], {}) && NoStall(c) by { DataSequenced(q, r, rq, f, ok); }
    FlyingStays(f, r, DATA_BIT, ok);
    SameLists(c, EndData(q, r, n, ok));
  }

  lemma {:induction false} EndDataGood(q: FQ, r: Rid, n: nat, ok: bool)
    requires Good(q) && Enabled(q, FinishData(r, n, ok))
    ensures Good(EndData(q, r, n, ok))
  {
    assert Dispatched(q, RqEntry(r));
    var rq := UpdateBio(q.rqs[r], n, ok);
    if rq.bio {
      PartialGood(q, r, rq);
    } else if rq.inSeq {
      SequencedDone(q, r, n, ok);
    } else {
      assert EndData(q, r, n, ok).rqs == q.rqs - {r};
      DirectDone(q, r, EndData(q, r, n, ok));
    }
  }

  lemma {:induction false} ArrivalStruct(q: FQ, bytes: nat, flush: bool, fua: bool, dev: Device)
    requires Struct(q, [], {})
    ensures Struct(Arrival(q, bytes, flush, fua, dev), [], {q.nextId})
  {
    var a := Arrival(q, bytes, flush, fua, dev);
    assert !On(q, q.nextId) && !Dispatched(q, RqEntry(q.nextId));
    assert forall x :: On(a, x) <==> On(q, x);
    assert forall e :: Dispatched(a, e) <==> Dispatched(q, e);
    assert Placement(a, {q.nextId}) && Stages(a, {q.nextId}) && Entries(a, {q.nextId});
  }

  lemma {:induction false} DirectArrival(a: FQ, r: Rid, j: FQ)
    requires Struct(a, [], {r}) && r in a.rqs && !a.rqs[r].inSeq && a.rqs[r].bio && a.rqs[r].left > 0
    requires j == a.(head := a.head + [RqEntry(r)], log := j.log)
    ensures Struct(j, [], {})
  {
    assert !Dispatched(a, RqEntry(r));
    assert forall x :: On(j, x) <==> On(a, x);
    assert forall e :: Dispatched(j, e) <==> Dispatched(a, e) || e == RqEntry(r);
    assert Placement(j, {}) && Stages(j, {}) && Entries(j, {});
  }

  /** The loose request may change before it is put anywhere. */
  lemma {:induction false} LooseStruct(a: FQ, r: Rid, rq: Rq)
    requires Struct(a, [], {r}) && r in a.rqs
    ensures Struct(a.(rqs := a.rqs[r := rq]), [], {r})
    ensures Detach(a.(rqs := a.rqs[r := rq]), r) == a.(rqs := a.rqs[r := rq])
  {
    var b := a.(rqs := a.rqs[r := rq]);
    WithoutNoDup(a.queue.q0, r);
    WithoutNoDup(a.queue.q1, r);
    WithoutNoDup(a.dataInFlight, r);
    assert !On(a, r);
    assert forall x :: On(b, x) <==> On(a, x);
    assert forall e :: Dispatched(b, e) <==> Dispatched(a, e);
    assert Placement(b, {r}) && Stages(b, {r}) && Entries(b, {r});
  }

  /** A new request as SequencedArrival takes it. */
  ghost predicate Unsequenced(a: FQ, r: Rid, policy: Mask) {
    && Struct(a, [], {r}) && r in a.rqs && (policy.pre || policy.post)
    && var rq := a.rqs[r];
       && rq.inSeq && rq.fseq == Mask(false, false, false) && rq.policy == policy && rq.bio
       && rq.left == rq.bytes && (policy.data <==> rq.bytes > 0) && (policy.post ==> policy.data)
  }

  lemma {:induction false} SequencedAdvance(a: FQ, r: Rid, policy: Mask)
    requires Unsequenced(a, r, policy)
    ensures Struct(Advance(a, r, policy.Not(), true), [], {})
  {
    var rq := a.rqs[r].(fseq := a.rqs[r].fseq.Or(policy.Not()));
    var b := a.(rqs := a.rqs[r := rq]);
    assert Struct(b, [], {r}) && Detach(b, r) == b by { LooseStruct(a, r, rq); }
    AdvanceShape(a, r, policy.Not(), true, rq, b);
    if rq.fseq.Current() == Data {
      QueueDataStruct(b, [], r);
    } else {
      JoinPendingStruct(b, r, a.queue.At(a.pending) == []);
    }
  }

  lemma {:induction false} SequencedArrival(a: FQ, r: Rid, policy: Mask)
    requires Unsequenced(a, r, policy)
    ensures Struct(CompleteSeq(a, r, policy.Not(), true), [], {})
    ensures NoStall(CompleteSeq(a, r, policy.Not(), true))
  {
    SequencedAdvance(a, r, policy);
    KickStruct(Advance(a, r, policy.Not(), true), []);
  }

  lemma {:induction false} InsertFlushGood(q: FQ, bytes: nat, flush: bool, fua: bool, dev: Device)
    requires Good(q) && Enabled(q, Submit(bytes, flush, fua, dev))
    ensures Good(InsertFlush(q, bytes, flush, fua, dev))
  {
    var a := Arrival(q, bytes, flush, fua, dev);
    var policy := Policy(dev, bytes > 0, flush, fua);
    ArrivalStruct(q, bytes, flush, fua, dev);
    if policy == Mask(false, false, false) {
      EndSequenceStruct(a, [], q.nextId, true);
    } else if policy.data && !policy.pre && !policy.post {
      DirectArrival(a, q.nextId, InsertFlush(q, bytes, flush, fua, dev));
    } else {
      SequencedArrival(a, q.nextId, policy);
      FlyingStays(a, q.nextId, policy.Not(), true);
    }
  }

  /** An entry moves between the dispatch queue and the driver. */
  lemma {:induction false} SameDispatched(q: FQ, q': FQ)
    requires Good(q) && q' == q.(head := q'.head, started := q'.started)
    requires forall e :: Dispatched(q', e) <==> Dispatched(q, e)
    requires forall i, j :: 0 <= i < j < |q'.head| ==> q'.head[i] != q'.head[j]
    requires forall e :: e in q'.head ==> e !in q'.started
    ensures Good(q')
  {
    assert forall x :: On(q', x) <==> On(q, x);
    assert Placement(q', {});
    assert Stages(q', {});
    assert Entries(q', {});
  }

  lemma {:induction false} DriverGood(q: FQ, s: Step)
    requires Good(q) && Enabled(q, s) && (s.Take? || s.GiveBack?)
    ensures Good(Apply(q, s))
  {
    var j := Apply(q, s);
    if s.Take? {
      assert q.head == [q.head[0]] + q.head[1..];
    }
    assert forall e :: Dispatched(j, e) <==> Dispatched(q, e);
    SameDispatched(q, j);
  }

  lemma {:induction false} StepGood(q: FQ, s: Step)
    requires Good(q) && Enabled(q, s)
    ensures Good(Apply(q, s))
  {
    match s
    case Submit(bytes, flush, fua, dev) => InsertFlushGood(q, bytes, flush, fua, dev);
    case FinishData(r, n, ok) => EndDataGood(q, r, n, ok);
    case FinishFlush(ok) => EndFlushGood(q, ok);
    case PeekStep(queueable) => SameLists(q, Apply(q, s));
    case Tick(d) => SameLists(q, Apply(q, s));
    case _ => DriverGood(q, s);
  }

  /** Every state of every run is good. */
  lemma {:induction false} RunGood(q: FQ, steps: seq<Step>, q': FQ)
    requires Good(q) && Runs(q, steps, q')
    ensures Good(q')
    decreases |steps|
  {
    if steps != [] {
      StepGood(q, steps[0]);
      RunGood(Apply(q, steps[0]), steps[1..], q');
    }
  }
}
