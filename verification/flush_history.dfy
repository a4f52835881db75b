/** What the sequencer promises about every run, stated on the log alone, and its proof. */
module FlushHistory {
  import opened Lists
  import opened FlushModel
  import opened FlushStructure
  import opened FlushData

  /** Some cache flush was issued at or after position `from` and has ended, well or not. */
  ghost predicate FlushSince(log: seq<Event>, from: nat, ok: bool) {
    exists i, j :: from <= i < j < |log| && log[i].FlushIssued? && log[j] == FlushEnded(log[i].f, ok)
  }

  ghost predicate CacheFlushed(log: seq<Event>, from: nat) { FlushSince(log, from, true) }

  /** The data of `r`, or a flush issued since position `from`, has failed. */
  ghost predicate FailedSince(log: seq<Event>, r: Rid, from: nat) {
    || FlushSince(log, from, false)
    || exists d :: from <= d < |log| && log[d].DataFinished? && log[d].r == r && !log[d].ok
  }

  ghost predicate FlushEndedIn(log: seq<Event>, f: nat) {
    exists p :: 0 <= p < |log| && log[p].FlushEnded? && log[p].f == f
  }

  ghost predicate EndedIn(log: seq<Event>, r: Rid) {
    exists p :: 0 <= p < |log| && log[p].BioEnded? && log[p].r == r
  }

  ghost predicate AccountedIn(log: seq<Event>, r: Rid) {
    exists p :: 0 <= p < |log| && log[p].Accounted? && log[p].r == r
  }

  /** What the submitter of the request at position `p` is owed when its bio ends well:
      its data was written, and if it asked for FUA the data was written through, or a flush
      issued after the data has ended; an empty FLUSH has had its flush. */
  ghost predicate Durable(log: seq<Event>, p: nat)
    requires p < |log| && log[p].Submitted?
  {
    var s := log[p];
    && (s.bytes > 0 ==>
          exists d :: p < d < |log| && log[d] == DataFinished(s.r, s.fua && s.dev.fua, true)
                      && (s.fua && s.dev.writeback && !s.dev.fua ==> CacheFlushed(log, d + 1)))
    && (s.bytes == 0 && s.flush && s.dev.writeback ==> CacheFlushed(log, p + 1))
  }

  /** The event `e` may follow the history `log`. */
  ghost predicate EventOk(log: seq<Event>, e: Event) {
    match e
    case Submitted(r, _, _, _, _) =>
      forall p :: 0 <= p < |log| && log[p].Submitted? ==> log[p].r != r
    case FlushIssued(f) =>        // one flush at a time
      forall p :: 0 <= p < |log| && log[p].FlushIssued? ==> log[p].f != f && FlushEndedIn(log, log[p].f)
    case FlushEnded(f, _) =>
      !FlushEndedIn(log, f) && exists p :: 0 <= p < |log| && log[p] == FlushIssued(f)
    case DataQueued(r, fua) =>    // the preflush precedes the data
      forall p :: 0 <= p < |log| && log[p].Submitted? && log[p].r == r ==>
        && fua == (log[p].fua && log[p].dev.fua)
        && (log[p].flush && log[p].dev.writeback ==> CacheFlushed(log, p + 1))
    case DataFinished(r, _, _) => // once, after it was queued
      QueuedIn(log, r) && !FinishedIn(log, r)
    case BioEnded(r, ok) =>       // once, well only if the request got what it asked for, badly only after a failure
      && !EndedIn(log, r)
      && (forall p :: 0 <= p < |log| && log[p].Submitted? && log[p].r == r ==>
            if ok then Durable(log, p) else FailedSince(log, r, p + 1))
    case Accounted(r) =>          // once, right when the bio ends
      !AccountedIn(log, r) && |log| > 0 && log[|log| - 1].BioEnded? && log[|log| - 1].r == r
    case QueueRun => true
  }

  ghost predicate OkAt(log: seq<Event>, i: nat)
    requires i < |log|
  {
    EventOk(log[..i], log[i])
  }

  ghost predicate SafeLog(log: seq<Event>) { forall i :: 0 <= i < |log| ==> OkAt(log, i) }

  lemma {:induction false} SafeAppend(log: seq<Event>, e: Event)
    requires SafeLog(log) && EventOk(log, e)
    ensures SafeLog(log + [e])
  {
    var l := log + [e];
    forall i | 0 <= i < |l| ensures OkAt(l, i) {
      if i < |log| {
        assert OkAt(log, i);
        assert l[..i] == log[..i];
      } else {
        assert l[..i] == log;
      }
    }
  }

  lemma {:induction false} FlushedStays(log: seq<Event>, es: seq<Event>, from: nat, from': nat, ok: bool)
    requires FlushSince(log, from, ok) && from' <= from
    ensures FlushSince(log + es, from', ok)
  {
    var i, j :| from <= i < j < |log| && log[i].FlushIssued? && log[j] == FlushEnded(log[i].f, ok);
    var l := log + es;
    assert l[i] == log[i] && l[j] == log[j];
  }

  /** No two Submitted events share a request. */
  lemma {:induction false} SubmittedOnce(log: seq<Event>)
    requires SafeLog(log)
    ensures forall p, p' :: 0 <= p < p' < |log| && log[p].Submitted? && log[p'].Submitted? ==>
              log[p].r != log[p'].r
  {
    forall p, p' | 0 <= p < p' < |log| && log[p].Submitted? && log[p'].Submitted?
      ensures log[p].r != log[p'].r
    {
      assert OkAt(log, p');
      assert log[..p'][p] == log[p];
    }
  }

  // ---- the history an unfinished request carries ----

  ghost predicate RqHist(log: seq<Event>, r: Rid, rq: Rq) {
    && rq.sub < rq.joined <= |log|
    && log[rq.sub].Submitted? && log[rq.sub].r == r && log[rq.sub].bytes == rq.bytes
    && (var s := log[rq.sub];
        rq.policy == Policy(s.dev, s.bytes > 0, s.flush, s.fua) && rq.fua == (s.fua && s.dev.fua))
    && (rq.fseq.pre && rq.policy.pre ==> CacheFlushed(log, rq.sub + 1))
    && (!rq.inSeq ==> !rq.policy.pre && !rq.policy.post)
    && rq.left <= rq.bytes && (!rq.policy.data ==> rq.uptodate)
    && (rq.inSeq && rq.fseq.data && rq.policy.data ==>
          rq.sub < rq.fin < |log| && log[rq.fin] == DataFinished(r, rq.fua, rq.uptodate))
  }

  lemma {:induction false} RqHistStays(log: seq<Event>, es: seq<Event>, r: Rid, rq: Rq)
    requires RqHist(log, r, rq)
    ensures RqHist(log + es, r, rq)
  {
    var l := log + es;
    assert l[rq.sub] == log[rq.sub];
    if rq.fseq.pre && rq.policy.pre {
      FlushedStays(log, es, rq.sub + 1, rq.sub + 1, true);
    }
    if rq.inSeq && rq.fseq.data && rq.policy.data {
      assert l[rq.fin] == log[rq.fin];
    }
  }

  ghost predicate RqHists(q: FQ) { forall r :: r in q.rqs ==> RqHist(q.log, r, q.rqs[r]) }

  /** A request waiting for its POSTFLUSH joined the queue after its data was done. */
  ghost predicate Waited(q: FQ) {
    forall r :: r in q.rqs && (r in q.queue.q0 || r in q.queue.q1) && q.rqs[r].fseq.Current() == Postflush ==>
      q.rqs[r].fin < q.rqs[r].joined
  }

  /** The flush in flight was issued after everything on the running queue joined it. */
  ghost predicate FlightHist(q: FQ) {
    Flying(q) ==>
      && q.flushes > 0 && q.issuedAt < |q.log| && q.log[q.issuedAt] == FlushIssued(q.flushes - 1)
      && forall r :: r in q.rqs && r in q.queue.At(q.running) ==> q.rqs[r].joined <= q.issuedAt
  }

  /** The numbering of requests and flushes, and who has ended. */
  ghost predicate Ledger(q: FQ) {
    && (forall p :: 0 <= p < |q.log| && q.log[p].Submitted? ==> q.log[p].r < q.nextId)
    && (forall p :: 0 <= p < |q.log| && q.log[p].FlushIssued? ==>
          q.log[p].f < q.flushes && (FlushEndedIn(q.log, q.log[p].f) || (Flying(q) && q.log[p].f == q.flushes - 1)))
    && (forall p :: 0 <= p < |q.log| && q.log[p].FlushEnded? ==>
          q.log[p].f < q.flushes && !(Flying(q) && q.log[p].f == q.flushes - 1))
    && (forall p :: 0 <= p < |q.log| && q.log[p].BioEnded? ==> q.log[p].r < q.nextId && q.log[p].r !in q.rqs)
    && (forall p :: 0 <= p < |q.log| && q.log[p].Accounted? ==> q.log[p].r < q.nextId && q.log[p].r !in q.rqs)
    && (forall r :: 0 <= r < q.nextId && r !in q.rqs ==> EndedIn(q.log, r) && AccountedIn(q.log, r))
    && (forall r :: r in q.rqs ==> r < q.nextId)
  }

  ghost predicate Hist(q: FQ) {
    SafeLog(q.log) && RqHists(q) && Waited(q) && FlightHist(q) && Ledger(q)
  }

  /** The flush that just ended, well or not, is the one everything still to be visited waited for. */
  ghost predicate Served(q: FQ, walk: seq<Rid>, ok: bool) {
    forall r :: r in walk && r in q.rqs ==> FlushSince(q.log, q.rqs[r].joined, ok)
  }

  // ---- one event at a time ----

  lemma {:induction false} EndsStay(log: seq<Event>, e: Event)
    ensures forall f :: FlushEndedIn(log + [e], f) <==> FlushEndedIn(log, f) || (e.FlushEnded? && e.f == f)
    ensures forall r :: EndedIn(log + [e], r) <==> EndedIn(log, r) || (e.BioEnded? && e.r == r)
    ensures forall r :: AccountedIn(log + [e], r) <==> AccountedIn(log, r) || (e.Accounted? && e.r == r)
  {
    var l := log + [e];
    assert l[|log|] == e;
    forall f | FlushEndedIn(log, f) ensures FlushEndedIn(l, f) {
      var p :| 0 <= p < |log| && log[p].FlushEnded? && log[p].f == f;
      assert l[p] == log[p];
    }
    forall r | EndedIn(log, r) ensures EndedIn(l, r) {
      var p :| 0 <= p < |log| && log[p].BioEnded? && log[p].r == r;
      assert l[p] == log[p];
    }
    forall r | AccountedIn(log, r) ensures AccountedIn(l, r) {
      var p :| 0 <= p < |log| && log[p].Accounted? && log[p].r == r;
      assert l[p] == log[p];
    }
  }

  lemma {:induction false} RqHistsStay(q: FQ, q': FQ, e: Event)
    requires RqHists(q) && q'.log == q.log + [e]
    requires forall r :: r in q'.rqs ==> r in q.rqs && q'.rqs[r] == q.rqs[r]
    ensures RqHists(q')
  {
    forall r | r in q'.rqs ensures RqHist(q'.log, r, q'.rqs[r]) { RqHistStays(q.log, [e], r, q.rqs[r]); }
  }

  /** An event that concerns nobody's bookkeeping. */
  lemma {:induction false} Emit(q: FQ, e: Event)
    requires Hist(q) && EventOk(q.log, e) && (e.QueueRun? || e.DataQueued? || e.DataFinished?)
    ensures Hist(q.(log := q.log + [e]))
  {
    var j := q.(log := q.log + [e]);
    SafeAppend(q.log, e);
    RqHistsStay(q, j, e);
    EndsStay(q.log, e);
  }

  lemma {:induction false} LedgerSame(q: FQ, q': FQ)
    requires Ledger(q) && q'.log == q.log && q'.rqs.Keys == q.rqs.Keys && q'.nextId == q.nextId
    requires q'.flushes == q.flushes && Flying(q') == Flying(q)
    ensures Ledger(q')
  {
  }

  lemma {:induction false} DetachHist(q: FQ, r: Rid, rq: Rq)
    requires Hist(q) && r in q.rqs && RqHist(q.log, r, rq)
    ensures Hist(Detach(q.(rqs := q.rqs[r := rq]), r))
  {
    var d := Detach(q.(rqs := q.rqs[r := rq]), r);
    assert RqHists(d);
    assert Waited(d);
    assert FlightHist(d);
    LedgerSame(q, d);
  }

  lemma {:induction false} JoinPendingFlight(q: FQ, r: Rid, wasEmpty: bool)
    requires Waited(q) && FlightHist(q) && r in q.rqs && !On(q, r)
    requires q.rqs[r].fseq.Current() == Postflush ==> q.rqs[r].fin < |q.log|
    ensures Waited(JoinPending(q, r, wasEmpty)) && FlightHist(JoinPending(q, r, wasEmpty))
  {
  }

  lemma {:induction false} JoinPendingHist(q: FQ, r: Rid, wasEmpty: bool)
    requires Hist(q) && r in q.rqs && !On(q, r)
    requires q.rqs[r].fseq.Current() == Postflush ==> q.rqs[r].fin < |q.log|
    ensures Hist(JoinPending(q, r, wasEmpty))
  {
    var j := JoinPending(q, r, wasEmpty);
    assert RqHists(j) by {
      assert RqHist(q.log, r, q.rqs[r]);
    }
    JoinPendingFlight(q, r, wasEmpty);
    LedgerSame(q, j);
  }

  lemma {:induction false} QueueDataHist(q: FQ, r: Rid)
    requires Hist(q) && r in q.rqs && q.rqs[r].fseq.pre
    ensures Hist(QueueData(q, r))
  {
    var e := DataQueued(r, q.rqs[r].fua);
    SubmittedOnce(q.log);
    assert EventOk(q.log, e);
    Emit(q, e);
    var j := q.(log := q.log + [e]);
    var j' := QueueData(q, r);
    assert Waited(j') && FlightHist(j') && Ledger(j') && RqHists(j');
  }

  /** What a request must have behind it for its bio to end well. */
  ghost predicate Entitled(log: seq<Event>, r: Rid, rq: Rq) {
    && (rq.policy.data ==> rq.sub < rq.fin < |log| && log[rq.fin] == DataFinished(r, rq.fua, rq.uptodate))
    && (rq.policy.post ==> CacheFlushed(log, rq.fin + 1))
    && (rq.policy.pre ==> CacheFlushed(log, rq.sub + 1))
  }

  ghost predicate Deserves(log: seq<Event>, r: Rid, rq: Rq, ok: bool) {
    if ok then Entitled(log, r, rq) else FailedSince(log, r, rq.sub + 1)
  }

  lemma {:induction false} BioEndOk(q: FQ, r: Rid, ok: bool)
    requires Hist(q) && r in q.rqs && Deserves(q.log, r, q.rqs[r], ok)
    requires q.rqs[r].policy.post ==> q.rqs[r].policy.data
    ensures EventOk(q.log, BioEnded(r, q.rqs[r].uptodate && ok))
  {
    var rq := q.rqs[r];
    assert RqHist(q.log, r, rq);
    SubmittedOnce(q.log);
    if rq.uptodate && ok {
      assert Durable(q.log, rq.sub);
    } else {
      assert FailedSince(q.log, r, rq.sub + 1);
    }
  }

  lemma {:induction false} LedgerEnd(q: FQ, q': FQ, r: Rid, ok: bool)
    requires Ledger(q) && r in q.rqs
    requires q' == q.(rqs := q.rqs - {r}, log := q.log + [BioEnded(r, ok)] + [Accounted(r)])
    ensures Ledger(q')
  {
    EndsStay(q.log, BioEnded(r, ok));
    EndsStay(q.log + [BioEnded(r, ok)], Accounted(r));
  }

  /** Ending a bio and accounting it, as one change. */
  lemma {:induction false} EndBoth(q: FQ, q': FQ, r: Rid, ok: bool)
    requires Hist(q) && r in q.rqs && EventOk(q.log, BioEnded(r, ok)) && !On(q, r)
    requires q' == q.(rqs := q.rqs - {r}, log := q.log + [BioEnded(r, ok)] + [Accounted(r)])
    ensures Hist(q')
  {
    var l1 := q.log + [BioEnded(r, ok)];
    SafeAppend(q.log, BioEnded(r, ok));
    EndsStay(q.log, BioEnded(r, ok));
    SafeAppend(l1, Accounted(r));
    var j := q.(rqs := q.rqs - {r}, log := l1);
    RqHistsStay(q, j, BioEnded(r, ok));
    RqHistsStay(j, q', Accounted(r));
    LedgerEnd(q, q', r, ok);
    assert FlightHist(q');
  }

  lemma {:induction false} EndSequenceHist(q: FQ, r: Rid, ok: bool)
    requires Hist(q) && r in q.rqs && !On(q, r) && Deserves(q.log, r, q.rqs[r], ok)
    requires q.rqs[r].policy.post ==> q.rqs[r].policy.data
    ensures Hist(EndSequence(q, r, ok))
  {
    BioEndOk(q, r, ok);
    var j := EndSequence(q, r, ok);
    assert j.rqs == q.rqs - {r};
    EndBoth(q, j, r, q.rqs[r].uptodate && ok);
  }

  lemma {:induction false} KickHist(q: FQ)
    requires Hist(q)
    ensures Hist(KickFlush(q))
  {
    var k := KickFlush(q);
    if k != q {
      var e := FlushIssued(q.flushes);
      SafeAppend(q.log, e);
      EndsStay(q.log, e);
      RqHistsStay(q, k, e);
      assert k.log[k.issuedAt] == e;
      assert forall p :: 0 <= p < |q.log| ==> k.log[p] == q.log[p];
      assert FlightHist(k);
      assert Ledger(k);
    }
  }

  lemma {:induction false} KickServed(q: FQ, walk: seq<Rid>, ok: bool)
    requires Served(q, walk, ok)
    ensures Served(KickFlush(q), walk, ok)
  {
    var k := KickFlush(q);
    forall r | r in walk && r in k.rqs ensures FlushSince(k.log, k.rqs[r].joined, ok) {
      assert k.log == q.log + k.log[|q.log|..];
      FlushedStays(q.log, k.log[|q.log|..], q.rqs[r].joined, q.rqs[r].joined, ok);
    }
  }

  lemma {:induction false} LedgerRetire(q: FQ, ok: bool)
    requires Ledger(q) && Flying(q) && q.flushes > 0
    ensures Ledger(RetireFlush(q, ok)) && !FlushEndedIn(q.log, q.flushes - 1)
  {
    EndsStay(q.log, FlushEnded(q.flushes - 1, ok));
  }

  /** The flush ends, for all the requests it was issued for. */
  lemma {:induction false} RetireFlushHist(q: FQ, ok: bool)
    requires Hist(q) && Flying(q)
    ensures Hist(RetireFlush(q, ok))
    ensures Served(RetireFlush(q, ok), q.queue.At(q.running), ok)
  {
    var e := FlushEnded(q.flushes - 1, ok);
    var j := RetireFlush(q, ok);
    LedgerRetire(q, ok);
    assert EventOk(q.log, e);
    SafeAppend(q.log, e);
    RqHistsStay(q, j, e);
    forall r | r in q.queue.At(q.running) && r in j.rqs ensures FlushSince(j.log, j.rqs[r].joined, ok) {
      assert j.log[q.issuedAt].FlushIssued? && j.log[|q.log|] == FlushEnded(j.log[q.issuedAt].f, ok);
    }
  }

  // ---- the steps ----

  /** Fields the history does not speak about. */
  lemma {:induction false} HistSame(q: FQ, q': FQ)
    requires Hist(q)
    requires q' == q.(head := q'.head, started := q'.started, delayed := q'.delayed, now := q'.now)
    ensures Hist(q')
  {
    LedgerSame(q, q');
  }

  /** The visited request after a good flush: what it now has behind it. */
  lemma {:induction false} VisitEntitled(q: FQ, walk: seq<Rid>, r: Rid, rq: Rq)
    requires Struct(q, walk, {}) && Hist(q) && Served(q, walk, true) && walk != [] && r == walk[0] && r in q.rqs
    requires rq == q.rqs[r].(fseq := q.rqs[r].fseq.Or(BitOf(q.rqs[r].fseq.Current())))
    ensures RqHist(q.log, r, rq)
    ensures rq.fseq.Current() == Done ==> Entitled(q.log, r, rq)
  {
    VisitStage(q, walk, r, q.rqs[r].fseq.Current(), rq.fseq);
    assert RqHist(q.log, r, q.rqs[r]);
    assert q.log + [] == q.log;
    assert r in q.queue.q0 || r in q.queue.q1;
    if q.rqs[r].fseq.Current() == Preflush {
      FlushedStays(q.log, [], rq.joined, rq.sub + 1, true);
    } else {
      FlushedStays(q.log, [], rq.joined, rq.fin + 1, true);
    }
  }

  lemma {:induction false} VisitServedHist(q: FQ, r: Rid, rq: Rq, done: Mask)
    requires Hist(q) && r in q.rqs && rq == q.rqs[r].(fseq := q.rqs[r].fseq.Or(done))
    requires rq.fseq.Current() == Data || (rq.fseq.Current() == Done && Entitled(q.log, r, rq))
    requires RqHist(q.log, r, rq) && (rq.policy.post ==> rq.policy.data)
    ensures Hist(Advance(q, r, done, true))
  {
    var d := Detach(q.(rqs := q.rqs[r := rq]), r);
    AdvanceShape(q, r, done, true, rq, d);
    assert !On(d, r);
    assert Hist(d) by { DetachHist(q, r, rq); }
    if rq.fseq.Current() == Data {
      QueueDataHist(d, r);
    } else {
      EndSequenceHist(d, r, true);
    }
  }

  lemma {:induction false} VisitAdvanceHist(q: FQ, walk: seq<Rid>, ok: bool)
    requires Struct(q, walk, {}) && Hist(q) && Served(q, walk, ok) && walk != [] && walk[0] in q.rqs
    ensures Hist(Advance(q, walk[0], BitOf(q.rqs[walk[0]].fseq.Current()), ok))
  {
    var r := walk[0];
    var bit := BitOf(q.rqs[r].fseq.Current());
    var rq := q.rqs[r].(fseq := q.rqs[r].fseq.Or(bit));
    VisitStage(q, walk, r, q.rqs[r].fseq.Current(), rq.fseq);
    if ok {
      VisitEntitled(q, walk, r, rq);
      VisitServedHist(q, r, rq, bit);
    } else {
      assert RqHist(q.log, r, q.rqs[r]) && q.log + [] == q.log;
      FlushedStays(q.log, [], rq.joined, rq.sub + 1, false);
      FailHist(q, r, bit);
    }
  }

  /** Ending a request forgets its sequence bits. */
  lemma {:induction false} FailShape(q: FQ, r: Rid, done: Mask)
    requires r in q.rqs
    ensures Advance(q, r, done, false) == EndSequence(Detach(q, r), r, false)
  {
    var rq := q.rqs[r].(fseq := q.rqs[r].fseq.Or(done));
    AdvanceShape(q, r, done, false, rq, Detach(q.(rqs := q.rqs[r := rq]), r));
    assert q.rqs[r := rq] - {r} == q.rqs - {r};
  }

  /** A failed step ends the request, whatever it has behind it. */
  lemma {:induction false} FailHist(q: FQ, r: Rid, done: Mask)
    requires Hist(q) && r in q.rqs && (q.rqs[r].policy.post ==> q.rqs[r].policy.data)
    requires FailedSince(q.log, r, q.rqs[r].sub + 1)
    ensures Hist(Advance(q, r, done, false))
  {
    FailShape(q, r, done);
    assert RqHist(q.log, r, q.rqs[r]);
    assert q.rqs[r := q.rqs[r]] == q.rqs;
    DetachHist(q, r, q.rqs[r]);
    assert !On(Detach(q, r), r);
    EndSequenceHist(Detach(q, r), r, false);
  }

  lemma {:induction false} VisitServed(q: FQ, walk: seq<Rid>, ok: bool)
    requires Served(q, walk, ok) && walk != [] && NoDup(walk) && walk[0] in q.rqs
    requires var s := q.rqs[walk[0]].fseq.Or(BitOf(q.rqs[walk[0]].fseq.Current())).Current();
             s == Data || s == Done
    ensures Served(CompleteSeq(q, walk[0], BitOf(q.rqs[walk[0]].fseq.Current()), ok), walk[1..], ok)
  {
    var r := walk[0];
    var adv := Advance(q, r, BitOf(q.rqs[r].fseq.Current()), ok);
    forall x | x in walk[1..] && x in adv.rqs ensures FlushSince(adv.log, adv.rqs[x].joined, ok) {
      assert x != r && x in walk;
      assert adv.log == q.log + adv.log[|q.log|..];
      FlushedStays(q.log, adv.log[|q.log|..], q.rqs[x].joined, q.rqs[x].joined, ok);
    }
    KickServed(adv, walk[1..], ok);
  }

  lemma {:induction false} VisitHist(q: FQ, walk: seq<Rid>, ok: bool)
    requires Struct(q, walk, {}) && Hist(q) && Served(q, walk, ok)
    requires NoDup(walk) && walk != [] && walk[0] in q.rqs
    ensures var next := CompleteSeq(q, walk[0], BitOf(q.rqs[walk[0]].fseq.Current()), ok);
            Hist(next) && Served(next, walk[1..], ok)
  {
    var r := walk[0];
    var s := q.rqs[r].fseq.Current();
    VisitAdvanceHist(q, walk, ok);
    KickHist(Advance(q, r, BitOf(s), ok));
    VisitStage(q, walk, r, s, q.rqs[r].fseq.Or(BitOf(s)));
    VisitServed(q, walk, ok);
  }

  /** All that holds whenever flush_end_io goes round its loop. */
  ghost predicate Walking(q: FQ, walk: seq<Rid>, ok: bool) {
    && Struct(q, walk, {}) && Hist(q) && Served(q, walk, ok)
    && NoDup(walk) && (forall x :: x in walk ==> x in q.rqs)
  }

  lemma {:induction false} VisitKeepsWalking(q: FQ, walk: seq<Rid>, ok: bool)
    requires Walking(q, walk, ok) && walk != []
    ensures Walking(CompleteSeq(q, walk[0], BitOf(q.rqs[walk[0]].fseq.Current()), ok), walk[1..], ok)
  {
    var next := CompleteSeq(q, walk[0], BitOf(q.rqs[walk[0]].fseq.Current()), ok);
    assert Hist(next) && Served(next, walk[1..], ok) by { VisitHist(q, walk, ok); }
    assert Struct(next, walk[1..], {}) by { VisitStruct(q, walk, ok); }
    TailOfWalk(walk);
  }

  lemma {:induction false} TailOfWalk(walk: seq<Rid>)
    requires NoDup(walk) && walk != []
    ensures NoDup(walk[1..]) && forall x :: x in walk[1..] ==> x in walk && x != walk[0]
  {
  }

  lemma {:induction false} PushWaitingHist(q: FQ, walk: seq<Rid>, ok: bool)
    requires Walking(q, walk, ok)
    ensures Hist(PushWaiting(q, walk, ok))
    decreases |walk|
  {
    if walk != [] {
      VisitKeepsWalking(q, walk, ok);
      var next := CompleteSeq(q, walk[0], BitOf(q.rqs[walk[0]].fseq.Current()), ok);
      assert PushWaiting(q, walk, ok) == PushWaiting(next, walk[1..], ok);
      PushWaitingHist(next, walk[1..], ok);
    }
  }

  lemma {:induction false} RunIfHist(q: FQ, kick: bool)
    requires Hist(q)
    ensures Hist(RunIf(q, kick))
  {
    if kick {
      Emit(q, QueueRun);
    }
  }

  lemma {:induction false} EndFlushHist(q: FQ, ok: bool)
    requires Good(q) && Hist(q) && Enabled(q, FinishFlush(ok))
    ensures Hist(EndFlush(q, ok))
  {
    RetireFlushStruct(q, ok);
    RetireFlushHist(q, ok);
    var pushed := PushWaiting(RetireFlush(q, ok), q.queue.At(q.running), ok);
    PushWaitingHist(RetireFlush(q, ok), q.queue.At(q.running), ok);
    var kick := Grew(q, pushed) || q.delayed;
    RunIfHist(pushed, kick);
    HistSame(RunIf(pushed, kick), EndFlush(q, ok));
  }

  /** Noting that the data is done. */
  lemma {:induction false} NoteData(q: FQ, r: Rid, ok: bool, g: FQ)
    requires Hist(q) && r in q.rqs && QueuedIn(q.log, r) && !FinishedIn(q.log, r)
    requires g == q.(log := q.log + [DataFinished(r, q.rqs[r].fua, ok)], started := q.started - {RqEntry(r)})
    ensures Hist(g)
  {
    var e := DataFinished(r, q.rqs[r].fua, ok);
    Emit(q, e);
    HistSame(q.(log := q.log + [e]), g);
  }

  lemma {:induction false} DataGoodHist(g: FQ, r: Rid, rq: Rq, f: FQ)
    requires Hist(g) && r in g.rqs && RqOk(rq.(fseq := rq.fseq.Or(DATA_BIT)))
    requires rq.fseq.Or(DATA_BIT).Current() == if rq.policy.post then Postflush else Done
    requires RqHist(g.log, r, rq.(fseq := rq.fseq.Or(DATA_BIT))) && rq.inSeq
    requires f == g.(rqs := g.rqs[r := rq])
    ensures Hist(Advance(f, r, DATA_BIT, true))
  {
    var rq' := rq.(fseq := rq.fseq.Or(DATA_BIT));
    var d := Detach(g.(rqs := g.rqs[r := rq']), r);
    assert f.rqs[r := rq'] == g.rqs[r := rq'];
    AdvanceShape(f, r, DATA_BIT, true, rq', d);
    assert !On(d, r);
    assert Hist(d) by { DetachHist(g, r, rq'); }
    if rq'.fseq.Current() == Postflush {
      JoinPendingHist(d, r, f.queue.At(f.pending) == []);
    } else {
      assert Entitled(g.log, r, rq');
      EndSequenceHist(d, r, true);
    }
  }

  lemma {:induction false} DataBadHist(g: FQ, r: Rid, rq: Rq, f: FQ, d: nat)
    requires Hist(g) && r in g.rqs && RqHist(g.log, r, rq) && (rq.policy.post ==> rq.policy.data)
    requires rq.joined == g.rqs[r].joined && rq.fseq == g.rqs[r].fseq && rq.fseq.Current() != Postflush
    requires rq.sub < d < |g.log| && g.log[d] == DataFinished(r, rq.fua, false)
    requires f == g.(rqs := g.rqs[r := rq])
    ensures Hist(Advance(f, r, DATA_BIT, false))
  {
    RqRewriteHist(g, r, rq);
    FailHist(f, r, DATA_BIT);
  }

  /** The data of a sequenced request is done: `f` is the queue with that noted. */
  lemma {:induction false} DataDoneHist(q: FQ, r: Rid, rq: Rq, f: FQ, ok: bool)
    requires Struct(q, [], {}) && Hist(q) && r in q.rqs && q.rqs[r].inSeq && RqEntry(r) in q.started
    requires QueuedIn(q.log, r) && !FinishedIn(q.log, r)
    requires rq == q.rqs[r].(bio := false, left := 0, uptodate := q.rqs[r].uptodate && ok, fin := |q.log|)
    requires f == q.(rqs := q.rqs[r := rq], started := q.started - {RqEntry(r)},
                     log := q.log + [DataFinished(r, rq.fua, rq.uptodate)])
    ensures Hist(CompleteSeq(f, r, DATA_BIT, ok))
  {
    DataStage(q, r);
    var g := q.(log := f.log, started := f.started);
    NoteData(q, r, rq.uptodate, g);
    assert RqHist(g.log, r, q.rqs[r]);
    assert g.log[|q.log|] == DataFinished(r, rq.fua, rq.uptodate);
    if ok {
      DataGoodHist(g, r, rq, f);
    } else {
      DataBadHist(g, r, rq, f, |q.log|);
    }
    KickHist(Advance(f, r, DATA_BIT, ok));
  }

  /** A request whose place in its sequence stays as it is. */
  lemma {:induction false} RqRewriteHist(q: FQ, r: Rid, rq: Rq)
    requires Hist(q) && r in q.rqs && RqHist(q.log, r, rq)
    requires rq.joined == q.rqs[r].joined && rq.fseq == q.rqs[r].fseq
    requires rq.fin == q.rqs[r].fin || rq.fseq.Current() != Postflush
    ensures Hist(q.(rqs := q.rqs[r := rq]))
  {
    var j := q.(rqs := q.rqs[r := rq]);
    assert RqHists(j);
    assert Waited(j);
    assert FlightHist(j);
    LedgerSame(q, j);
  }

  lemma {:induction false} DirectShape(q: FQ, r: Rid, n: nat, ok: bool, g: FQ, u: bool)
    requires r in q.rqs && !q.rqs[r].inSeq && q.rqs[r].bio && n >= q.rqs[r].left && u == (q.rqs[r].uptodate && ok)
    requires g == q.(log := q.log + [DataFinished(r, q.rqs[r].fua, u)], started := q.started - {RqEntry(r)})
    ensures EndData(q, r, n, ok) ==
            g.(rqs := g.rqs - {r}, log := g.log + [BioEnded(r, u)] + [Accounted(r)])
  {
    assert EndData(q, r, n, ok).rqs == q.rqs - {r};
  }

  /** A request that needs no flush ends with its data. */
  lemma {:induction false} DirectDoneHist(q: FQ, r: Rid, n: nat, ok: bool)
    requires Hist(q) && r in q.rqs && !q.rqs[r].inSeq && !On(q, r) && QueuedIn(q.log, r) && !FinishedIn(q.log, r)
    requires q.rqs[r].bio && n >= q.rqs[r].left
    ensures Hist(EndData(q, r, n, ok))
  {
    var u := q.rqs[r].uptodate && ok;
    var e := DataFinished(r, q.rqs[r].fua, u);
    var g := q.(log := q.log + [e], started := q.started - {RqEntry(r)});
    assert Hist(g) by { NoteData(q, r, u, g); }
    DirectShape(q, r, n, ok, g, u);
    assert RqHist(q.log, r, q.rqs[r]);
    DirectEntitled(g, r, |q.log|, u);
    assert !On(g, r);
    EndBoth(g, EndData(q, r, n, ok), r, u);
  }

  lemma {:induction false} DirectEntitled(g: FQ, r: Rid, d: nat, ok: bool)
    requires Hist(g) && r in g.rqs && !g.rqs[r].inSeq
    requires g.rqs[r].sub < d < |g.log| && g.log[d] == DataFinished(r, g.rqs[r].fua, ok)
    ensures EventOk(g.log, BioEnded(r, ok))
  {
    assert RqHist(g.log, r, g.rqs[r]);
    SubmittedOnce(g.log);
    if ok {
      assert Durable(g.log, g.rqs[r].sub);
    }
  }

  lemma {:induction false} PartialHist(q: FQ, r: Rid, n: nat, ok: bool)
    requires Hist(q) && r in q.rqs && UpdateBio(q.rqs[r], n, ok).bio
    requires q.rqs[r].inSeq ==> !q.rqs[r].fseq.data
    ensures Hist(EndData(q, r, n, ok))
  {
    assert RqHist(q.log, r, q.rqs[r]);
    RqRewriteHist(q, r, UpdateBio(q.rqs[r], n, ok));
  }

  lemma {:induction false} SequencedDoneHist(q: FQ, r: Rid, n: nat, ok: bool)
    requires Struct(q, [], {}) && Hist(q) && r in q.rqs && q.rqs[r].inSeq && RqEntry(r) in q.started
    requires n >= q.rqs[r].left && q.rqs[r].bio && QueuedIn(q.log, r) && !FinishedIn(q.log, r)
    ensures Hist(EndData(q, r, n, ok))
  {
    var rq := UpdateBio(q.rqs[r], n, ok).(fin := |q.log|);
    var f := q.(rqs := q.rqs[r := rq], started := q.started - {RqEntry(r)},
                log := q.log + [DataFinished(r, rq.fua, rq.uptodate)]);
    var c := CompleteSeq(f, r, DATA_BIT, ok);
    SequencedShape(q, r, n, ok, rq, f, c);
    assert Hist(c) by { DataDoneHist(q, r, rq, f, ok); }
    RunIfHist(c, Grew(f, c));
  }

  lemma {:induction false} EndDataHist(q: FQ, r: Rid, n: nat, ok: bool)
    requires Good(q) && Hist(q) && DataInv(q) && Enabled(q, FinishData(r, n, ok))
    ensures Hist(EndData(q, r, n, ok))
  {
    DataFirst(q, r);
    assert q.rqs[r].bio && (q.rqs[r].inSeq ==> !q.rqs[r].fseq.data) && (!q.rqs[r].inSeq ==> !On(q, r)) by {
      assert Dispatched(q, RqEntry(r));
    }
    if n < q.rqs[r].left {
      PartialHist(q, r, n, ok);
    } else if q.rqs[r].inSeq {
      SequencedDoneHist(q, r, n, ok);
    } else {
      DirectDoneHist(q, r, n, ok);
    }
  }

  lemma {:induction false} LedgerArrival(q: FQ, bytes: nat, flush: bool, fua: bool, dev: Device)
    requires Ledger(q)
    ensures Ledger(Arrival(q, bytes, flush, fua, dev))
  {
    EndsStay(q.log, Submitted(q.nextId, bytes, flush, fua, dev));
  }

  lemma {:induction false} ArrivalHist(q: FQ, bytes: nat, flush: bool, fua: bool, dev: Device)
    requires Placement(q, {}) && Hist(q)
    ensures Hist(Arrival(q, bytes, flush, fua, dev))
  {
    var a := Arrival(q, bytes, flush, fua, dev);
    var e := Submitted(q.nextId, bytes, flush, fua, dev);
    SafeAppend(q.log, e);
    LedgerArrival(q, bytes, flush, fua, dev);
    forall r | r in a.rqs ensures RqHist(a.log, r, a.rqs[r]) {
      if r != q.nextId {
        RqHistStays(q.log, [e], r, q.rqs[r]);
      }
    }
    assert !On(q, q.nextId);
    assert Waited(a);
    assert FlightHist(a);
  }

  lemma {:induction false} SequencedArrivalHist(a: FQ, r: Rid, policy: Mask)
    requires Struct(a, [], {r}) && Hist(a) && r in a.rqs && a.rqs[r].fseq == Mask(false, false, false)
    requires a.rqs[r].policy == policy && (policy.pre || policy.post) && (policy.post ==> policy.data)
    ensures Hist(CompleteSeq(a, r, policy.Not(), true))
  {
    var rq := a.rqs[r].(fseq := a.rqs[r].fseq.Or(policy.Not()));
    var b := a.(rqs := a.rqs[r := rq]);
    assert Detach(b, r) == b && !On(b, r) by { LooseStruct(a, r, rq); }
    assert RqHist(a.log, r, a.rqs[r]);
    DetachHist(a, r, rq);
    AdvanceShape(a, r, policy.Not(), true, rq, b);
    if rq.fseq.Current() == Data {
      QueueDataHist(b, r);
    } else {
      JoinPendingHist(b, r, a.queue.At(a.pending) == []);
    }
    KickHist(Advance(a, r, policy.Not(), true));
  }

  lemma {:induction false} InsertFlushHist(q: FQ, bytes: nat, flush: bool, fua: bool, dev: Device)
    requires Good(q) && Hist(q) && Enabled(q, Submit(bytes, flush, fua, dev))
    ensures Hist(InsertFlush(q, bytes, flush, fua, dev))
  {
    var a := Arrival(q, bytes, flush, fua, dev);
    var r := q.nextId;
    var policy := Policy(dev, bytes > 0, flush, fua);
    ArrivalStruct(q, bytes, flush, fua, dev);
    ArrivalHist(q, bytes, flush, fua, dev);
    if policy == Mask(false, false, false) {
      assert !On(a, r);
      EndSequenceHist(a, r, true);
    } else if policy.data && !policy.pre && !policy.post {
      var e := DataQueued(r, a.rqs[r].fua);
      SubmittedOnce(a.log);
      assert RqHist(a.log, r, a.rqs[r]);
      Emit(a, e);
      HistSame(a.(log := a.log + [e]), InsertFlush(q, bytes, flush, fua, dev));
    } else {
      SequencedArrivalHist(a, r, policy);
    }
  }

  lemma {:induction false} StepHist(q: FQ, s: Step)
    requires Good(q) && Hist(q) && DataInv(q) && Enabled(q, s)
    ensures Hist(Apply(q, s))
  {
    match s
    case Submit(bytes, flush, fua, dev) => InsertFlushHist(q, bytes, flush, fua, dev);
    case FinishData(r, n, ok) => EndDataHist(q, r, n, ok);
    case FinishFlush(ok) => EndFlushHist(q, ok);
    case _ => HistSame(q, Apply(q, s));
  }

  lemma {:induction false} RunHist(q: FQ, steps: seq<Step>, q': FQ)
    requires Good(q) && Hist(q) && DataInv(q) && Runs(q, steps, q')
    ensures Good(q') && Hist(q') && DataInv(q')
    decreases |steps|
  {
    if steps != [] {
      StepGood(q, steps[0]);
      StepHist(q, steps[0]);
      StepData(q, steps[0]);
      RunHist(Apply(q, steps[0]), steps[1..], q');
    }
  }

  /** Main theorem: after any run of any length, the whole log is safe.  In particular no data
      overtakes its preflush, no FUA write is reported done before it is on stable storage, and
      only one flush is ever in flight. */
  lemma {:induction false} EveryRunSafe(hz: nat, steps: seq<Step>, q: FQ)
    requires Runs(Init(hz), steps, q)
    ensures SafeLog(q.log) && Good(q)
  {
    RunHist(Init(hz), steps, q);
  }

  /** Each request that has left the sequencer has had its bio ended exactly once and its I/O
      accounted exactly once; each that has not, never. */
  lemma {:induction false} EndedExactlyOnce(hz: nat, steps: seq<Step>, q: FQ, r: Rid)
    requires Runs(Init(hz), steps, q) && r < q.nextId
    ensures r in q.rqs ==> !EndedIn(q.log, r) && !AccountedIn(q.log, r)
    ensures r !in q.rqs ==> EndedIn(q.log, r) && AccountedIn(q.log, r)
    ensures forall i, j :: 0 <= i < j < |q.log| && q.log[i].BioEnded? && q.log[j].BioEnded? ==>
              q.log[i].r != q.log[j].r
    ensures forall i, j :: 0 <= i < j < |q.log| && q.log[i].Accounted? && q.log[j].Accounted? ==>
              q.log[i].r != q.log[j].r
  {
    RunHist(Init(hz), steps, q);
    EndsDiffer(q.log);
  }

  /** No bio ends twice and no request is accounted twice in a safe log. */
  lemma {:induction false} EndsDiffer(log: seq<Event>)
    requires SafeLog(log)
    ensures forall i, j :: 0 <= i < j < |log| && log[i].BioEnded? && log[j].BioEnded? ==> log[i].r != log[j].r
    ensures forall i, j :: 0 <= i < j < |log| && log[i].Accounted? && log[j].Accounted? ==> log[i].r != log[j].r
  {
    forall i, j | 0 <= i < j < |log| && log[i].BioEnded? && log[j].BioEnded?
      ensures log[i].r != log[j].r
    {
      assert OkAt(log, j);
      assert log[..j][i] == log[i];
    }
    forall i, j | 0 <= i < j < |log| && log[i].Accounted? && log[j].Accounted?
      ensures log[i].r != log[j].r
    {
      assert OkAt(log, j);
      assert log[..j][i] == log[i];
    }
  }

  lemma {:induction false} SafeFua(log: seq<Event>, p: nat, e: nat)
    requires SafeLog(log) && p < e < |log| && log[p].Submitted?
    requires log[p].bytes > 0 && log[p].fua && log[p].dev == Device(true, false)
    requires log[e] == BioEnded(log[p].r, true)
    ensures exists d, i, j :: p < d < i < j < e && log[d] == DataFinished(log[p].r, false, true)
              && log[i].FlushIssued? && log[j] == FlushEnded(log[i].f, true)
  {
    var l := log[..e];
    assert OkAt(log, e);
    assert l[p] == log[p];
    assert Durable(l, p);
    var d :| p < d < |l| && l[d] == DataFinished(l[p].r, false, true) && CacheFlushed(l, d + 1);
    var i, j :| d + 1 <= i < j < |l| && l[i].FlushIssued? && l[j] == FlushEnded(l[i].f, true);
    assert log[d] == l[d] && log[i] == l[i] && log[j] == l[j];
  }

  /** A FUA write on a cache that cannot write through: its bio ends well only after a flush that
      was issued after its data was done has itself ended well. */
  lemma {:induction false} FuaWaitsForLaterFlush(hz: nat, steps: seq<Step>, q: FQ, p: nat, e: nat)
    requires Runs(Init(hz), steps, q) && p < e < |q.log| && q.log[p].Submitted?
    requires q.log[p].bytes > 0 && q.log[p].fua && q.log[p].dev == Device(true, false)
    requires q.log[e] == BioEnded(q.log[p].r, true)
    ensures exists d, i, j :: p < d < i < j < e && q.log[d] == DataFinished(q.log[p].r, false, true)
              && q.log[i].FlushIssued? && q.log[j] == FlushEnded(q.log[i].f, true)
  {
    EveryRunSafe(hz, steps, q);
    SafeFua(q.log, p, e);
  }

  lemma {:induction false} SafeData(log: seq<Event>, e: nat)
    requires SafeLog(log) && e < |log| && log[e].DataFinished?
    ensures exists i :: 0 <= i < e && log[i].DataQueued? && log[i].r == log[e].r
    ensures forall i :: 0 <= i < e && log[i].DataFinished? ==> log[i].r != log[e].r
  {
    var l := log[..e];
    assert OkAt(log, e);
    var i :| 0 <= i < |l| && l[i].DataQueued? && l[i].r == log[e].r;
    assert log[i] == l[i];
    forall j | 0 <= j < e && log[j].DataFinished?
      ensures log[j].r != log[e].r
    {
      assert l[j] == log[j];
    }
  }

  /** The data of a request finishes after it was queued, and never again. */
  lemma {:induction false} DataFinishesOnce(hz: nat, steps: seq<Step>, q: FQ, e: nat)
    requires Runs(Init(hz), steps, q) && e < |q.log| && q.log[e].DataFinished?
    ensures exists i :: 0 <= i < e && q.log[i].DataQueued? && q.log[i].r == q.log[e].r
    ensures forall i :: 0 <= i < e && q.log[i].DataFinished? ==> q.log[i].r != q.log[e].r
  {
    EveryRunSafe(hz, steps, q);
    SafeData(q.log, e);
  }

  lemma {:induction false} SafeError(log: seq<Event>, p: nat, e: nat)
    requires SafeLog(log) && p < e < |log| && log[p].Submitted? && log[e] == BioEnded(log[p].r, false)
    ensures (exists d :: p < d < e && log[d].DataFinished? && log[d].r == log[p].r && !log[d].ok)
            || (exists i, j :: p < i < j < e && log[i].FlushIssued? && log[j] == FlushEnded(log[i].f, false))
  {
    var l := log[..e];
    assert OkAt(log, e);
    assert l[p] == log[p];
    assert FailedSince(l, log[p].r, p + 1);
    if FlushSince(l, p + 1, false) {
      var i, j :| p + 1 <= i < j < |l| && l[i].FlushIssued? && l[j] == FlushEnded(l[i].f, false);
      assert log[i] == l[i] && log[j] == l[j];
    } else {
      var d :| p + 1 <= d < |l| && l[d].DataFinished? && l[d].r == log[p].r && !l[d].ok;
      assert log[d] == l[d];
    }
  }

  /** A bio ends with an error only after its own data, or a flush issued after its submission, has failed. */
  lemma {:induction false} ErrorHasCause(hz: nat, steps: seq<Step>, q: FQ, p: nat, e: nat)
    requires Runs(Init(hz), steps, q) && p < e < |q.log| && q.log[p].Submitted?
    requires q.log[e] == BioEnded(q.log[p].r, false)
    ensures (exists d :: p < d < e && q.log[d].DataFinished? && q.log[d].r == q.log[p].r && !q.log[d].ok)
            || (exists i, j :: p < i < j < e && q.log[i].FlushIssued? && q.log[j] == FlushEnded(q.log[i].f, false))
  {
    EveryRunSafe(hz, steps, q);
    SafeError(q.log, p, e);
  }

  lemma {:induction false} SafePreflush(log: seq<Event>, p: nat, e: nat)
    requires SafeLog(log) && p < e < |log| && log[p].Submitted?
    requires log[p].flush && log[p].dev.writeback
    requires log[e].DataQueued? && log[e].r == log[p].r
    ensures exists i, j :: p < i < j < e && log[i].FlushIssued? && log[j] == FlushEnded(log[i].f, true)
  {
    var l := log[..e];
    assert OkAt(log, e);
    assert l[p] == log[p];
    var i, j :| p + 1 <= i < j < |l| && l[i].FlushIssued? && l[j] == FlushEnded(l[i].f, true);
    assert log[i] == l[i] && log[j] == l[j];
  }

  /** A write with FLUSH reaches the dispatch queue only after a flush issued after its
      submission has ended well. */
  lemma {:induction false} DataWaitsForPreflush(hz: nat, steps: seq<Step>, q: FQ, p: nat, e: nat)
    requires Runs(Init(hz), steps, q) && p < e < |q.log| && q.log[p].Submitted?
    requires q.log[p].flush && q.log[p].dev.writeback
    requires q.log[e].DataQueued? && q.log[e].r == q.log[p].r
    ensures exists i, j :: p < i < j < e && q.log[i].FlushIssued? && q.log[j] == FlushEnded(q.log[i].f, true)
  {
    EveryRunSafe(hz, steps, q);
    SafePreflush(q.log, p, e);
  }
}
