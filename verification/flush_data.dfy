/** The data of each request finishes once, and only after it was queued. */
module FlushData {
  import opened Lists
  import opened FlushModel
  import opened FlushStructure

  ghost predicate QueuedIn(log: seq<Event>, r: Rid) {
    exists p :: 0 <= p < |log| && log[p].DataQueued? && log[p].r == r
  }

  ghost predicate FinishedIn(log: seq<Event>, r: Rid) {
    exists p :: 0 <= p < |log| && log[p].DataFinished? && log[p].r == r
  }

  /** Whatever is with the driver was queued, and nothing unknown has finished. */
  ghost predicate DataKnown(q: FQ) {
    && (forall r :: r in q.rqs && Dispatched(q, RqEntry(r)) ==> QueuedIn(q.log, r))
    && (forall r: Rid :: FinishedIn(q.log, r) ==> r < q.nextId)
  }

  /** An unfinished request whose data has finished has passed its DATA stage. */
  ghost predicate DataPast(q: FQ, r: Rid)
    requires r in q.rqs
  {
    FinishedIn(q.log, r) ==> q.rqs[r].inSeq && q.rqs[r].fseq.data
  }

  ghost predicate DataBut(q: FQ, r: Rid) {
    DataKnown(q) && forall x :: x in q.rqs && x != r ==> DataPast(q, x)
  }

  ghost predicate DataInv(q: FQ) { DataKnown(q) && forall x :: x in q.rqs ==> DataPast(q, x) }

  lemma {:induction false} Noted(log: seq<Event>, e: Event)
    ensures forall r :: QueuedIn(log + [e], r) <==> QueuedIn(log, r) || (e.DataQueued? && e.r == r)
    ensures forall r :: FinishedIn(log + [e], r) <==> FinishedIn(log, r) || (e.DataFinished? && e.r == r)
  {
    var l := log + [e];
    assert l[|log|] == e;
    forall r | QueuedIn(log, r)
      ensures QueuedIn(l, r)
    {
      var p :| 0 <= p < |log| && log[p].DataQueued? && log[p].r == r;
      assert l[p] == log[p];
    }
    forall r | FinishedIn(log, r)
      ensures FinishedIn(l, r)
    {
      var p :| 0 <= p < |log| && log[p].DataFinished? && log[p].r == r;
      assert l[p] == log[p];
    }
  }

  /** `e` says nothing of data, and no request was handed to the driver. */
  lemma {:induction false} Aside(q: FQ, q': FQ, e: Event)
    requires DataInv(q) && q'.log == q.log + [e] && !e.DataQueued? && !e.DataFinished? && q'.nextId == q.nextId
    requires forall r :: r in q'.rqs ==>
               r in q.rqs && q'.rqs[r].inSeq == q.rqs[r].inSeq && q'.rqs[r].fseq == q.rqs[r].fseq
    requires forall r :: Dispatched(q', RqEntry(r)) ==> Dispatched(q, RqEntry(r))
    ensures DataInv(q')
  {
    Noted(q.log, e);
    assert forall x :: x in q'.rqs ==> DataPast(q, x);
  }

  lemma {:induction false} KickData(q: FQ)
    requires DataInv(q)
    ensures DataInv(KickFlush(q))
  {
    var k := KickFlush(q);
    if k != q {
      Aside(q, k, FlushIssued(q.flushes));
    }
  }

  lemma {:induction false} EndSequenceData(d: FQ, r: Rid, ok: bool)
    requires DataBut(d, r) && r in d.rqs
    ensures DataInv(EndSequence(d, r, ok))
  {
    var j := EndSequence(d, r, ok);
    var l1 := d.log + [BioEnded(r, d.rqs[r].uptodate && ok)];
    Noted(d.log, BioEnded(r, d.rqs[r].uptodate && ok));
    Noted(l1, Accounted(r));
    assert j.log == l1 + [Accounted(r)] && j.rqs == d.rqs - {r};
    assert forall x :: x in j.rqs ==> DataPast(d, x);
  }

  lemma {:induction false} QueueDataData(d: FQ, r: Rid)
    requires DataInv(d) && r in d.rqs
    ensures DataInv(QueueData(d, r))
  {
    Noted(d.log, DataQueued(r, d.rqs[r].fua));
    assert forall x :: x in d.rqs ==> DataPast(d, x);
  }

  lemma {:induction false} DetachData(q: FQ, r: Rid, rq: Rq)
    requires DataBut(q, r) && r in q.rqs && rq.inSeq == q.rqs[r].inSeq
    requires FinishedIn(q.log, r) ==> rq.inSeq && rq.fseq.data
    ensures DataInv(Detach(q.(rqs := q.rqs[r := rq]), r))
  {
    var d := Detach(q.(rqs := q.rqs[r := rq]), r);
    assert forall x :: x in d.rqs && x != r ==> DataPast(q, x);
    assert forall x :: Dispatched(d, RqEntry(x)) <==> Dispatched(q, RqEntry(x));
  }

  /** blk_flush_complete_seq of a request whose data, if it has finished, is among what is done. */
  lemma {:induction false} CompleteData(q: FQ, r: Rid, done: Mask, ok: bool)
    requires DataBut(q, r) && r in q.rqs
    requires FinishedIn(q.log, r) ==> q.rqs[r].inSeq && q.rqs[r].fseq.Or(done).data
    ensures DataInv(CompleteSeq(q, r, done, ok))
  {
    var rq := q.rqs[r].(fseq := q.rqs[r].fseq.Or(done));
    var d := Detach(q.(rqs := q.rqs[r := rq]), r);
    assert DataInv(d) by { DetachData(q, r, rq); }
    AdvanceShape(q, r, done, ok, rq, d);
    if !ok || rq.fseq.Current() == Done {
      EndSequenceData(d, r, ok);
    } else if rq.fseq.Current() == Data {
      QueueDataData(d, r);
    } else {
      JoinData(d, r, q.queue.At(q.pending) == []);
    }
    KickData(Advance(q, r, done, ok));
  }

  lemma {:induction false} JoinData(d: FQ, r: Rid, wasEmpty: bool)
    requires DataInv(d) && r in d.rqs
    ensures DataInv(JoinPending(d, r, wasEmpty))
  {
    var j := JoinPending(d, r, wasEmpty);
    assert forall x :: x in d.rqs ==> DataPast(d, x);
    assert forall x :: Dispatched(j, RqEntry(x)) <==> Dispatched(d, RqEntry(x));
  }

  lemma {:induction false} PushWaitingData(q: FQ, waiting: seq<Rid>, ok: bool)
    requires DataInv(q) && NoDup(waiting) && forall x :: x in waiting ==> x in q.rqs
    ensures DataInv(PushWaiting(q, waiting, ok))
    decreases |waiting|
  {
    if waiting != [] {
      var r := waiting[0];
      var bit := BitOf(q.rqs[r].fseq.Current());
      assert DataPast(q, r);
      CompleteData(q, r, bit, ok);
      PushWaitingData(CompleteSeq(q, r, bit, ok), waiting[1..], ok);
    }
  }

  lemma {:induction false} RunIfData(q: FQ, kick: bool)
    requires DataInv(q)
    ensures DataInv(RunIf(q, kick))
  {
    if kick {
      Aside(q, RunIf(q, kick), QueueRun);
    }
  }

  /** Fields the data events do not speak about. */
  lemma {:induction false} SameData(q: FQ, q': FQ)
    requires DataInv(q) && q'.log == q.log && q'.rqs == q.rqs && q'.nextId == q.nextId
    requires forall r :: Dispatched(q', RqEntry(r)) ==> Dispatched(q, RqEntry(r))
    ensures DataInv(q')
  {
    assert forall x :: x in q.rqs ==> DataPast(q, x);
  }

  lemma {:induction false} EndFlushData(q: FQ, ok: bool)
    requires DataInv(q) && Enabled(q, FinishFlush(ok))
    ensures DataInv(EndFlush(q, ok))
  {
    var j := RetireFlush(q, ok);
    Aside(q, j, FlushEnded(q.flushes - 1, ok));
    var pushed := PushWaiting(j, q.queue.At(q.running), ok);
    PushWaitingData(j, q.queue.At(q.running), ok);
    var kick := Grew(q, pushed) || q.delayed;
    RunIfData(pushed, kick);
    SameData(RunIf(pushed, kick), EndFlush(q, ok));
  }

  /** The data of `r` is done and noted: all is in order but for `r` itself. */
  lemma {:induction false} NoteFinished(q: FQ, r: Rid, rq: Rq, f: FQ)
    requires DataInv(q) && r in q.rqs && r < q.nextId
    requires f == q.(rqs := q.rqs[r := rq], started := q.started - {RqEntry(r)},
                     log := q.log + [DataFinished(r, rq.fua, rq.uptodate)])
    ensures DataBut(f, r)
  {
    Noted(q.log, DataFinished(r, rq.fua, rq.uptodate));
    assert forall x :: x in q.rqs ==> DataPast(q, x);
  }

  lemma {:induction false} EndDataData(q: FQ, r: Rid, n: nat, ok: bool)
    requires Good(q) && DataInv(q) && Enabled(q, FinishData(r, n, ok))
    ensures DataInv(EndData(q, r, n, ok))
  {
    assert Dispatched(q, RqEntry(r)) && DataPast(q, r);
    if n < q.rqs[r].left {
      PartialData(q, r, n, ok);
    } else {
      var rq := UpdateBio(q.rqs[r], n, ok).(fin := |q.log|);
      var f := q.(rqs := q.rqs[r := rq], started := q.started - {RqEntry(r)},
                  log := q.log + [DataFinished(r, rq.fua, rq.uptodate)]);
      NoteFinished(q, r, rq, f);
      if q.rqs[r].inSeq {
        var c := CompleteSeq(f, r, DATA_BIT, ok);
        SequencedShape(q, r, n, ok, rq, f, c);
        CompleteData(f, r, DATA_BIT, ok);
        RunIfData(c, Grew(f, c));
      } else {
        DirectData(q, r, n, ok, f);
      }
    }
  }

  lemma {:induction false} PartialData(q: FQ, r: Rid, n: nat, ok: bool)
    requires DataInv(q) && r in q.rqs && q.rqs[r].bio && n < q.rqs[r].left
    ensures DataInv(EndData(q, r, n, ok))
  {
    assert forall x :: x in q.rqs ==> DataPast(q, x);
  }

  lemma {:induction false} DirectData(q: FQ, r: Rid, n: nat, ok: bool, f: FQ)
    requires r in q.rqs && !q.rqs[r].inSeq && q.rqs[r].bio && n >= q.rqs[r].left && DataBut(f, r) && r in f.rqs
    requires f == q.(rqs := q.rqs[r := UpdateBio(q.rqs[r], n, ok).(fin := |q.log|)],
                     started := q.started - {RqEntry(r)},
                     log := q.log + [DataFinished(r, q.rqs[r].fua, q.rqs[r].uptodate && ok)])
    ensures DataInv(EndData(q, r, n, ok))
  {
    var j := EndData(q, r, n, ok);
    var e := BioEnded(r, q.rqs[r].uptodate && ok);
    Noted(f.log, e);
    Noted(f.log + [e], Accounted(r));
    assert j.log == f.log + [e] + [Accounted(r)] && j.rqs == f.rqs - {r};
    assert forall x :: x in j.rqs ==> DataPast(f, x);
  }

  lemma {:induction false} ArrivalData(q: FQ, bytes: nat, flush: bool, fua: bool, dev: Device)
    requires Good(q) && DataInv(q)
    ensures DataInv(Arrival(q, bytes, flush, fua, dev))
    ensures !FinishedIn(Arrival(q, bytes, flush, fua, dev).log, q.nextId)
  {
    var a := Arrival(q, bytes, flush, fua, dev);
    Noted(q.log, Submitted(q.nextId, bytes, flush, fua, dev));
    assert !Dispatched(q, RqEntry(q.nextId));
    assert forall x :: x in q.rqs ==> DataPast(q, x);
  }

  lemma {:induction false} InsertFlushData(q: FQ, bytes: nat, flush: bool, fua: bool, dev: Device)
    requires Good(q) && DataInv(q)
    ensures DataInv(InsertFlush(q, bytes, flush, fua, dev))
  {
    var a := Arrival(q, bytes, flush, fua, dev);
    var r := q.nextId;
    var policy := Policy(dev, bytes > 0, flush, fua);
    ArrivalData(q, bytes, flush, fua, dev);
    if policy == Mask(false, false, false) {
      EndSequenceData(a, r, true);
    } else if policy.data && !policy.pre && !policy.post {
      Noted(a.log, DataQueued(r, a.rqs[r].fua));
      assert forall x :: x in a.rqs ==> DataPast(a, x);
    } else {
      CompleteData(a, r, policy.Not(), true);
    }
  }

  lemma {:induction false} StepData(q: FQ, s: Step)
    requires Good(q) && DataInv(q) && Enabled(q, s)
    ensures DataInv(Apply(q, s))
  {
    match s
    case Submit(bytes, flush, fua, dev) => InsertFlushData(q, bytes, flush, fua, dev);
    case FinishData(r, n, ok) => EndDataData(q, r, n, ok);
    case FinishFlush(ok) => EndFlushData(q, ok);
    case _ => SameData(q, Apply(q, s));
  }

  /** What a driver completes was queued and has not finished before. */
  lemma {:induction false} DataFirst(q: FQ, r: Rid)
    requires Good(q) && DataInv(q) && r in q.rqs && Dispatched(q, RqEntry(r))
    ensures QueuedIn(q.log, r) && !FinishedIn(q.log, r)
  {
    assert DataPast(q, r);
    if q.rqs[r].inSeq {
      assert r in q.dataInFlight && q.rqs[r].fseq.Current() == Data;
    }
  }
}
