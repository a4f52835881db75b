/** Nothing waits for ever: every completion by the driver uses up work, and as long as a request
    is unfinished something is on the dispatch queue or with the driver. */
module FlushProgress {
  import opened Lists
  import opened FlushModel
  import opened FlushStructure

  function Clear(m: Mask): nat {
    (if m.pre then 0 else 1) + (if m.data then 0 else 1) + (if m.post then 0 else 1)
  }

  /** Stages and bytes a request still has before it. */
  function Cost(rq: Rq): nat { (if rq.inSeq then Clear(rq.fseq) else 1) + rq.left }

  function Work(rqs: map<Rid, Rq>, n: nat): nat {
    if n == 0 then 0 else Work(rqs, n - 1) + (if n - 1 in rqs then Cost(rqs[n - 1]) else 0)
  }

  function TotalWork(q: FQ): nat { Work(q.rqs, q.nextId) }

  lemma {:induction false} WorkUpdate(rqs: map<Rid, Rq>, r: Rid, rq: Rq, n: nat)
    requires r in rqs
    ensures Work(rqs[r := rq], n) == Work(rqs, n) + if r < n then Cost(rq) - Cost(rqs[r]) else 0
  {
    if n != 0 {
      WorkUpdate(rqs, r, rq, n - 1);
    }
  }

  lemma {:induction false} WorkRemove(rqs: map<Rid, Rq>, r: Rid, n: nat)
    requires r in rqs
    ensures Work(rqs - {r}, n) == Work(rqs, n) - if r < n then Cost(rqs[r]) else 0
  {
    if n != 0 {
      WorkRemove(rqs, r, n - 1);
    }
  }

  /** What blk_flush_complete_seq does to the table of unfinished requests. */
  lemma {:induction false} CompleteRqs(q: FQ, r: Rid, done: Mask, ok: bool, rq: Rq)
    requires r in q.rqs && rq == q.rqs[r].(fseq := q.rqs[r].fseq.Or(done))
    ensures var j := CompleteSeq(q, r, done, ok);
            && j.nextId == q.nextId
            && (j.rqs == q.rqs - {r} || j.rqs == q.rqs[r := rq]
                || j.rqs == q.rqs[r := rq.(joined := |q.log|, since := q.now)])
  {
    var adv := Advance(q, r, done, ok);
    if !ok || rq.fseq.Current() == Done {
      assert adv.rqs == q.rqs - {r};
    } else if rq.fseq.Current() == Data {
      assert adv.rqs == q.rqs[r := rq];
    } else {
      assert adv.rqs == q.rqs[r := rq.(joined := |q.log|, since := q.now)];
    }
  }

  /** Finishing a stage that was not finished yet uses up work. */
  lemma {:induction false} CompleteWork(q: FQ, r: Rid, done: Mask, ok: bool)
    requires r in q.rqs && r < q.nextId && q.rqs[r].inSeq
    requires !q.rqs[r].fseq.Meets(done) && done != Mask(false, false, false)
    ensures TotalWork(CompleteSeq(q, r, done, ok)) < TotalWork(q)
  {
    var rq := q.rqs[r].(fseq := q.rqs[r].fseq.Or(done));
    CompleteRqs(q, r, done, ok, rq);
    WorkUpdate(q.rqs, r, rq, q.nextId);
    WorkUpdate(q.rqs, r, rq.(joined := |q.log|, since := q.now), q.nextId);
    WorkRemove(q.rqs, r, q.nextId);
  }

  lemma {:induction false} PushWaitingWork(q: FQ, walk: seq<Rid>, ok: bool)
    requires Struct(q, walk, {}) && NoDup(walk) && (forall x :: x in walk ==> x in q.rqs)
    ensures TotalWork(PushWaiting(q, walk, ok)) + |walk| <= TotalWork(q)
    decreases |walk|
  {
    if walk != [] {
      var r := walk[0];
      var s := q.rqs[r].fseq.Current();
      var next := CompleteSeq(q, r, BitOf(s), ok);
      assert TotalWork(next) < TotalWork(q) by {
        VisitStage(q, walk, r, s, q.rqs[r].fseq.Or(BitOf(s)));
        CompleteWork(q, r, BitOf(s), ok);
      }
      assert Struct(next, walk[1..], {}) by { VisitStruct(q, walk, ok); }
      PushWaitingWork(next, walk[1..], ok);
    }
  }

  predicate Completion(s: Step) { s.FinishFlush? || (s.FinishData? && s.n > 0) }

  lemma {:induction false} SequencedWork(q: FQ, r: Rid, n: nat, ok: bool)
    requires r in q.rqs && r < q.nextId && q.rqs[r].inSeq && q.rqs[r].bio && n >= q.rqs[r].left
    requires !q.rqs[r].fseq.Meets(DATA_BIT)
    ensures TotalWork(EndData(q, r, n, ok)) < TotalWork(q)
  {
    var rq := UpdateBio(q.rqs[r], n, ok);
    var rq' := rq.(fin := |q.log|);
    var f := q.(rqs := q.rqs[r := rq'], started := q.started - {RqEntry(r)},
                log := q.log + [DataFinished(r, rq.fua, rq.uptodate)]);
    assert q.rqs[r := rq][r := rq'] == f.rqs;
    WorkUpdate(q.rqs, r, rq', q.nextId);
    CompleteWork(f, r, DATA_BIT, ok);
    var c := CompleteSeq(f, r, DATA_BIT, ok);
    assert EndData(q, r, n, ok) == RunIf(c, Grew(f, c));
  }

  lemma {:induction false} EndDataWork(q: FQ, r: Rid, n: nat, ok: bool)
    requires Good(q) && Enabled(q, FinishData(r, n, ok))
    ensures TotalWork(EndData(q, r, n, ok)) <= TotalWork(q)
    ensures n > 0 ==> TotalWork(EndData(q, r, n, ok)) < TotalWork(q)
  {
    assert Dispatched(q, RqEntry(r));
    var rq := UpdateBio(q.rqs[r], n, ok);
    if rq.bio {
      WorkUpdate(q.rqs, r, rq, q.nextId);
    } else if rq.inSeq {
      DataStage(q, r);
      SequencedWork(q, r, n, ok);
    } else {
      assert EndData(q, r, n, ok).rqs == q.rqs - {r};
      WorkRemove(q.rqs, r, q.nextId);
    }
  }

  lemma {:induction false} StepWork(q: FQ, s: Step)
    requires Good(q) && Enabled(q, s) && !s.Submit?
    ensures TotalWork(Apply(q, s)) <= TotalWork(q)
    ensures Completion(s) ==> TotalWork(Apply(q, s)) < TotalWork(q)
  {
    match s
    case FinishFlush(ok) =>
      RetireFlushStruct(q, ok);
      PushWaitingWork(RetireFlush(q, ok), q.queue.At(q.running), ok);
    case FinishData(r, n, ok) => EndDataWork(q, r, n, ok);
    case _ =>
  }

  function Completions(steps: seq<Step>): nat {
    if steps == [] then 0 else (if Completion(steps[0]) then 1 else 0) + Completions(steps[1..])
  }

  /** Once nothing new arrives, only as many completions can happen as there is work. */
  lemma {:induction false} FinitelyManyCompletions(q: FQ, steps: seq<Step>, q': FQ)
    requires Good(q) && Runs(q, steps, q') && (forall s :: s in steps ==> !s.Submit?)
    ensures Completions(steps) + TotalWork(q') <= TotalWork(q)
    decreases |steps|
  {
    if steps != [] {
      assert steps[0] in steps;
      StepWork(q, steps[0]);
      StepGood(q, steps[0]);
      FinitelyManyCompletions(Apply(q, steps[0]), steps[1..], q');
    }
  }

  lemma {:induction false} WorkAtLeast(rqs: map<Rid, Rq>, r: Rid, n: nat)
    requires r in rqs && r < n
    ensures Work(rqs, n) >= Cost(rqs[r])
  {
    if r < n - 1 {
      WorkAtLeast(rqs, r, n - 1);
    }
  }

  /** An unfinished request still has a stage before it. */
  lemma {:induction false} UnfinishedCosts(q: FQ, r: Rid)
    requires Good(q) && r in q.rqs
    ensures Cost(q.rqs[r]) >= 1 && TotalWork(q) >= 1
  {
    if q.rqs[r].inSeq {
      assert On(q, r);
      assert q.rqs[r].fseq.Current() != Done;
    }
    WorkAtLeast(q.rqs, r, q.nextId);
  }

  /** While a request is unfinished, the driver has something to take or to complete. */
  lemma {:induction false} UnfinishedIsOutstanding(q: FQ)
    requires Good(q) && q.rqs.Keys != {}
    ensures q.head != [] || q.started != {}
  {
    var r :| r in q.rqs;
    if q.rqs[r].inSeq && r !in q.dataInFlight {
      assert On(q, r);
      if Flying(q) {
        assert Dispatched(q, FlushEntry);
      } else {
        assert q.queue.At(q.pending) != [];
        assert On(q, q.dataInFlight[0]);
        assert Dispatched(q, RqEntry(q.dataInFlight[0]));
      }
    } else {
      assert Dispatched(q, RqEntry(r));
    }
  }

  // ---- every driver gets through ----

  /** What the driver has still to take and to complete, with room for what completing puts on the queue. */
  function Load(q: FQ): nat { 3 * TotalWork(q) + |q.head| }

  predicate Move(s: Step) { s.Take? || Completion(s) }

  lemma {:induction false} CompleteHead(q: FQ, r: Rid, done: Mask, ok: bool)
    requires r in q.rqs
    ensures |CompleteSeq(q, r, done, ok).head| <= |q.head| + 2
  {
    var adv := Advance(q, r, done, ok);
    assert |adv.head| <= |q.head| + 1;
  }

  lemma {:induction false} PushWaitingLoad(q: FQ, walk: seq<Rid>, ok: bool)
    requires Struct(q, walk, {}) && NoDup(walk) && (forall x :: x in walk ==> x in q.rqs)
    ensures Load(PushWaiting(q, walk, ok)) + |walk| <= Load(q)
    decreases |walk|
  {
    if walk != [] {
      var r := walk[0];
      var s := q.rqs[r].fseq.Current();
      var next := CompleteSeq(q, r, BitOf(s), ok);
      assert Load(next) < Load(q) by {
        VisitStage(q, walk, r, s, q.rqs[r].fseq.Or(BitOf(s)));
        CompleteWork(q, r, BitOf(s), ok);
        CompleteHead(q, r, BitOf(s), ok);
      }
      assert Struct(next, walk[1..], {}) by { VisitStruct(q, walk, ok); }
      PushWaitingLoad(next, walk[1..], ok);
    }
  }

  lemma {:induction false} EndFlushLoad(q: FQ, ok: bool)
    requires Good(q) && Enabled(q, FinishFlush(ok))
    ensures Load(EndFlush(q, ok)) < Load(q)
  {
    var j := RetireFlush(q, ok);
    RetireFlushStruct(q, ok);
    assert Dispatched(q, FlushEntry) && q.queue.At(q.running) != [];
    PushWaitingLoad(j, q.queue.At(q.running), ok);
    assert Load(j) == Load(q);
  }

  lemma {:induction false} EndDataHead(q: FQ, r: Rid, n: nat, ok: bool)
    requires r in q.rqs
    ensures |EndData(q, r, n, ok).head| <= |q.head| + 2
  {
    var rq := UpdateBio(q.rqs[r], n, ok);
    if !rq.bio && rq.inSeq {
      var u := q.(rqs := q.rqs[r := rq]);
      var f := u.(rqs := u.rqs[r := rq.(fin := |q.log|)], started := u.started - {RqEntry(r)},
                  log := u.log + [DataFinished(r, rq.fua, rq.uptodate)]);
      CompleteHead(f, r, DATA_BIT, ok);
    }
  }

  lemma {:induction false} EndDataLoad(q: FQ, r: Rid, n: nat, ok: bool)
    requires Good(q) && Enabled(q, FinishData(r, n, ok))
    ensures Load(EndData(q, r, n, ok)) <= Load(q)
    ensures n > 0 ==> Load(EndData(q, r, n, ok)) < Load(q)
  {
    assert Dispatched(q, RqEntry(r));
    EndDataWork(q, r, n, ok);
    if n == 0 {
      assert q.rqs[r := q.rqs[r]] == q.rqs && EndData(q, r, 0, ok) == q;
    } else {
      EndDataHead(q, r, n, ok);
    }
  }

  /** What a submission may add. */
  function Arriving(s: Step): nat { if s.Submit? then 3 * (s.bytes + 3) + 2 else if s.GiveBack? then 1 else 0 }

  lemma {:induction false} WorkArrive(rqs: map<Rid, Rq>, r: Rid, rq: Rq, n: nat)
    requires r !in rqs
    ensures Work(rqs[r := rq], n) == Work(rqs, n) + if r < n then Cost(rq) else 0
  {
    if n != 0 {
      WorkArrive(rqs, r, rq, n - 1);
    }
  }

  lemma {:induction false} SubmitLoad(q: FQ, bytes: nat, flush: bool, fua: bool, dev: Device)
    requires Good(q)
    ensures Load(InsertFlush(q, bytes, flush, fua, dev)) <= Load(q) + 3 * (bytes + 3) + 2
  {
    var a := Arrival(q, bytes, flush, fua, dev);
    var r := q.nextId;
    var policy := Policy(dev, bytes > 0, flush, fua);
    WorkArrive(q.rqs, r, a.rqs[r], r + 1);
    assert TotalWork(a) == TotalWork(q) + Cost(a.rqs[r]);
    if policy == Mask(false, false, false) {
      assert InsertFlush(q, bytes, flush, fua, dev).rqs == a.rqs - {r};
      WorkRemove(a.rqs, r, r + 1);
    } else if !(policy.data && !policy.pre && !policy.post) {
      SequencedLoad(a, r, policy.Not());
    }
  }

  /** Skipping the stages a request does not need adds no work. */
  lemma {:induction false} SequencedLoad(a: FQ, r: Rid, skip: Mask)
    requires r in a.rqs && r < a.nextId && a.rqs[r].inSeq
    ensures Load(CompleteSeq(a, r, skip, true)) <= Load(a) + 2
  {
    var rq := a.rqs[r].(fseq := a.rqs[r].fseq.Or(skip));
    CompleteRqs(a, r, skip, true, rq);
    WorkUpdate(a.rqs, r, rq, a.nextId);
    WorkUpdate(a.rqs, r, rq.(joined := |a.log|, since := a.now), a.nextId);
    WorkRemove(a.rqs, r, a.nextId);
    CompleteHead(a, r, skip, true);
  }

  lemma {:induction false} StepLoad(q: FQ, s: Step)
    requires Good(q) && Enabled(q, s)
    ensures Load(Apply(q, s)) + (if Move(s) then 1 else 0) <= Load(q) + Arriving(s)
  {
    match s
    case Submit(bytes, flush, fua, dev) => SubmitLoad(q, bytes, flush, fua, dev);
    case FinishFlush(ok) => EndFlushLoad(q, ok);
    case FinishData(r, n, ok) => EndDataLoad(q, r, n, ok);
    case _ =>
  }

  function Moves(steps: seq<Step>): nat {
    if steps == [] then 0 else (if Move(steps[0]) then 1 else 0) + Moves(steps[1..])
  }

  function Arrivals(steps: seq<Step>): nat { if steps == [] then 0 else Arriving(steps[0]) + Arrivals(steps[1..]) }

  /** In every run the driver's moves are paid for by what there was, what arrived and what it gave back. */
  lemma {:induction false} MovesPaid(q: FQ, steps: seq<Step>, q': FQ)
    requires Good(q) && Runs(q, steps, q')
    ensures Moves(steps) + Load(q') <= Load(q) + Arrivals(steps)
    decreases |steps|
  {
    if steps != [] {
      StepLoad(q, steps[0]);
      StepGood(q, steps[0]);
      MovesPaid(Apply(q, steps[0]), steps[1..], q');
    }
  }

  /** While a request is unfinished the driver has a move. */
  lemma {:induction false} NextMove(q: FQ) returns (s: Step)
    requires Good(q) && q.rqs.Keys != {}
    ensures Enabled(q, s) && Move(s)
  {
    UnfinishedIsOutstanding(q);
    if q.head != [] {
      s := Take;
    } else {
      var e :| e in q.started;
      assert Dispatched(q, e);
      match e
      case FlushEntry =>
        RetireReady(q);
        s := FinishFlush(true);
      case RqEntry(r) => s := FinishData(r, 1, true);
    }
  }

  lemma {:induction false} RetireReady(q: FQ)
    requires Good(q) && FlushEntry in q.started
    ensures Enabled(q, FinishFlush(true))
  {
    assert Dispatched(q, FlushEntry);
    forall x | x in q.queue.At(q.running)
      ensures x in q.rqs
    {
      assert On(q, x);
    }
  }

  /**
    * Every run is finite in the driver's moves, and one that the driver cannot continue has finished every
    * request: once arrivals and give-backs stop, the driver that keeps moving finishes everything within
    * Load moves.
    */
  lemma {:induction false} EveryRunFinishes(hz: nat, steps: seq<Step>, q: FQ, more: seq<Step>, q': FQ)
    requires Runs(Init(hz), steps, q) && Runs(q, more, q')
    requires forall s :: s in more ==> !s.Submit? && !s.GiveBack?
    ensures Moves(more) + Load(q') <= Load(q)
    ensures (forall s :: Enabled(q', s) ==> !Move(s)) ==> q'.rqs.Keys == {}
  {
    RunGood(Init(hz), steps, q);
    RunGood(q, more, q');
    MovesPaid(q, more, q');
    NothingArrives(more);
    if q'.rqs.Keys != {} {
      var s := NextMove(q');
    }
  }

  lemma {:induction false} NothingArrives(steps: seq<Step>)
    requires forall s :: s in steps ==> !s.Submit? && !s.GiveBack?
    ensures Arrivals(steps) == 0
  {
    if steps != [] {
      assert steps[0] in steps;
      NothingArrives(steps[1..]);
    }
  }

  /** From every good state the driver can finish every request by taking and completing alone. */
  lemma {:induction false} DriverFinishes(q: FQ) returns (steps: seq<Step>, q': FQ)
    requires Good(q)
    ensures Runs(q, steps, q') && (forall s :: s in steps ==> Move(s))
    ensures q'.rqs.Keys == {} && |steps| <= Load(q)
    decreases Load(q)
  {
    if q.rqs.Keys == {} {
      steps, q' := [], q;
    } else {
      var s := NextMove(q);
      StepLoad(q, s);
      StepGood(q, s);
      var rest;
      rest, q' := DriverFinishes(Apply(q, s));
      steps := [s] + rest;
      assert steps[1..] == rest;
    }
  }

  /** A queue held by __elv_next_request, or one that got something new to dispatch, is run
      again when the flush ends, and the hold is over. */
  lemma {:induction false} HeldQueueRestarts(q: FQ, ok: bool)
    requires Good(q) && Enabled(q, FinishFlush(ok))
    ensures q.delayed || Grew(q, EndFlush(q, ok)) ==>
              var log := EndFlush(q, ok).log; |log| > |q.log| && log[|log| - 1] == QueueRun
    ensures !EndFlush(q, ok).delayed
    ensures forall q', queueable :: q' == Peek(q, queueable) && q'.delayed ==> Dispatched(q', FlushEntry)
  {
    assert forall q', queueable :: q' == Peek(q, queueable) && q'.delayed ==>
      Flying(q') && (Dispatched(q', FlushEntry) <==> Dispatched(q, FlushEntry));
    PushWaitingLog(RetireFlush(q, ok), q.queue.At(q.running), ok);
  }

  lemma {:induction false} PushWaitingLog(q: FQ, waiting: seq<Rid>, ok: bool)
    requires NoDup(waiting) && (forall x :: x in waiting ==> x in q.rqs)
    ensures |PushWaiting(q, waiting, ok).log| >= |q.log|
    decreases |waiting|
  {
    if waiting != [] {
      PushWaitingLog(CompleteSeq(q, waiting[0], BitOf(q.rqs[waiting[0]].fseq.Current()), ok), waiting[1..], ok);
    }
  }
}
