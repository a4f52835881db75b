/** When a waiting flush is issued: at once if no data is in flight, and not later than five seconds after the first
    request began to wait, whenever a sequence moves on. */
module FlushTiming {
  import opened Lists
  import opened FlushModel
  import opened FlushStructure

  /** What waits for the next flush. */
  function Waiting(q: FQ): seq<Rid> { q.queue.At(q.pending) }

  /** A flush is in flight, or nothing waits, or data is in flight and nobody has waited five seconds. */
  ghost predicate Prompt(q: FQ) {
    || Flying(q) || Waiting(q) == []
    || (q.dataInFlight != [] && forall r :: r in Waiting(q) && r in q.rqs ==> q.now < q.rqs[r].since + 5 * q.hz)
  }

  /** The flush in flight serves somebody, and no data is in flight or somebody has waited five seconds. */
  ghost predicate Warranted(q: FQ) {
    var served := q.queue.At(q.running);
    && Flying(q) && served != []
    && (q.dataInFlight == [] || exists r :: r in served && r in q.rqs && q.now >= q.rqs[r].since + 5 * q.hz)
  }

  // ---- flush_pending_since ----

  /** flush_pending_since is when the first of those waiting joined. */
  ghost predicate SinceFirst(q: FQ) {
    Waiting(q) != [] ==>
      && Waiting(q)[0] in q.rqs && q.rqs[Waiting(q)[0]].since == q.pendingSince
      && forall r :: r in Waiting(q) && r in q.rqs ==> q.pendingSince <= q.rqs[r].since
  }

  ghost predicate Past(q: FQ) { forall r :: r in q.rqs ==> q.rqs[r].since <= q.now }

  /** While flush_end_io walks a list that a flush issued under it made the pending one, nothing is said of it. */
  ghost predicate Timed(q: FQ, walk: seq<Rid>) { Past(q) && (walk == [] || !Flying(q) ==> SinceFirst(q)) }

  /** The waiting list, its clock and its members are as they were. */
  lemma {:induction false} SinceSame(q: FQ, q': FQ)
    requires SinceFirst(q) && Waiting(q') == Waiting(q) && q'.pendingSince == q.pendingSince
    requires forall r :: r in Waiting(q) && r in q.rqs ==> r in q'.rqs && q'.rqs[r].since == q.rqs[r].since
    requires forall r :: r in Waiting(q) && r in q'.rqs ==> r in q.rqs
    ensures SinceFirst(q')
  {
    if Waiting(q) != [] {
      assert Waiting(q)[0] in Waiting(q);
    }
  }

  lemma {:induction false} WithoutAbsent(l: seq<Rid>, r: Rid)
    requires r !in l
    ensures Without(l, r) == l
  {
    if l != [] {
      WithoutAbsent(l[1..], r);
      assert l == [l[0]] + l[1..];
    }
  }

  lemma {:induction false} DetachTimed(q: FQ, r: Rid, rq: Rq)
    requires r in q.rqs && Past(q) && SinceFirst(q) && r !in Waiting(q) && rq.since == q.rqs[r].since
    ensures var d := Detach(q.(rqs := q.rqs[r := rq]), r);
            Past(d) && SinceFirst(d) && Waiting(d) == Waiting(q) && d.now == q.now
  {
    var d := Detach(q.(rqs := q.rqs[r := rq]), r);
    WithoutAbsent(Waiting(q), r);
    SinceSame(q, d);
  }

  lemma {:induction false} JoinTimed(d: FQ, r: Rid)
    requires r in d.rqs && Past(d) && SinceFirst(d) && r !in Waiting(d)
    ensures var j := JoinPending(d, r, Waiting(d) == []); Past(j) && SinceFirst(j)
  {
    var j := JoinPending(d, r, Waiting(d) == []);
    assert Waiting(j) == Waiting(d) + [r];
    if Waiting(d) != [] {
      assert Waiting(j)[0] == Waiting(d)[0];
    }
  }

  /** A stage ends for a request that is not among those waiting. */
  lemma {:induction false} AdvanceTimed(q: FQ, r: Rid, done: Mask, ok: bool)
    requires r in q.rqs && Past(q) && SinceFirst(q) && r !in Waiting(q)
    ensures Past(Advance(q, r, done, ok)) && SinceFirst(Advance(q, r, done, ok))
  {
    var rq := q.rqs[r].(fseq := q.rqs[r].fseq.Or(done));
    var d := Detach(q.(rqs := q.rqs[r := rq]), r);
    DetachTimed(q, r, rq);
    AdvanceShape(q, r, done, ok, rq, d);
    if !ok || rq.fseq.Current() == Done {
      SinceSame(d, EndSequence(d, r, ok));
    } else if rq.fseq.Current() == Data {
      SinceSame(d, QueueData(d, r));
    } else {
      JoinTimed(d, r);
    }
  }

  ghost predicate Kicked(q: FQ, k: FQ) {
    && Prompt(k) && (k.flushes == q.flushes || k.flushes == q.flushes + 1)
    && (k.flushes != q.flushes ==> !Flying(q) && Warranted(k))
  }

  ghost predicate SameFlight(q: FQ, a: FQ) { a.flushes == q.flushes && Flying(a) == Flying(q) }

  lemma {:induction false} AdvanceFlight(q: FQ, r: Rid, done: Mask, ok: bool)
    requires r in q.rqs
    ensures SameFlight(q, Advance(q, r, done, ok))
  {
  }

  /** The kick is prompt, issues only what is warranted, and starts the new pending list afresh. */
  lemma {:induction false} KickTimed(q: FQ, a: FQ, walk: seq<Rid>)
    requires Indices(a, walk) && Timed(a, walk) && SameFlight(q, a)
    ensures Timed(KickFlush(a), walk) && Kicked(q, KickFlush(a))
  {
    var k := KickFlush(a);
    if k != a {
      assert Waiting(k) == walk && k.queue.At(k.running) == Waiting(a);
      assert Waiting(a)[0] in Waiting(a);
    }
  }

  // ---- the steps of the sequencer ----

  /** The walked request is not among those waiting, unless the walk is over them. */
  lemma {:induction false} VisitApart(q: FQ, walk: seq<Rid>)
    requires Struct(q, walk, {}) && walk != [] && !Flying(q)
    ensures walk[0] !in Waiting(q)
  {
    assert walk[0] in q.queue.At(!q.pending);
  }

  lemma {:induction false} VisitPast(q: FQ, r: Rid, done: Mask, ok: bool)
    requires r in q.rqs && Past(q)
    ensures Past(Advance(q, r, done, ok))
  {
  }

  /** The part of a visit before its kick. */
  lemma {:induction false} VisitAdvanced(q: FQ, walk: seq<Rid>, r: Rid, bit: Mask, ok: bool)
    requires Struct(q, walk, {}) && walk != [] && r == walk[0] && r in q.rqs && Timed(q, walk)
    requires bit == BitOf(q.rqs[r].fseq.Current())
    ensures Timed(Advance(q, r, bit, ok), walk[1..])
  {
    AdvanceFlight(q, r, bit, ok);
    if Flying(q) {
      VisitPast(q, r, bit, ok);
      if walk[1..] == [] {
        VisitedLast(q, walk, bit, ok);
      }
    } else {
      VisitApart(q, walk);
      AdvanceTimed(q, r, bit, ok);
    }
  }

  lemma {:induction false} VisitTimed(q: FQ, walk: seq<Rid>, ok: bool)
    requires Struct(q, walk, {}) && walk != [] && walk[0] in q.rqs && Timed(q, walk)
    ensures var next := CompleteSeq(q, walk[0], BitOf(q.rqs[walk[0]].fseq.Current()), ok);
            Timed(next, walk[1..]) && Kicked(q, next)
  {
    var r := walk[0];
    var bit := BitOf(q.rqs[r].fseq.Current());
    var a := Advance(q, r, bit, ok);
    assert Indices(a, walk[1..]) by { VisitAdvance(q, walk, ok); }
    assert Timed(a, walk[1..]) by { VisitAdvanced(q, walk, r, bit, ok); }
    assert SameFlight(q, a) by { AdvanceFlight(q, r, bit, ok); }
    KickTimed(q, a, walk[1..]);
  }

  /** The walk ends with the list it was over empty. */
  lemma {:induction false} VisitedLast(q: FQ, walk: seq<Rid>, bit: Mask, ok: bool)
    requires Struct(q, walk, {}) && |walk| == 1 && walk[0] in q.rqs && Flying(q)
    requires bit == BitOf(q.rqs[walk[0]].fseq.Current())
    ensures Waiting(Advance(q, walk[0], bit, ok)) == []
  {
    VisitAdvance(q, walk, ok);
    VisitStage(q, walk, walk[0], q.rqs[walk[0]].fseq.Current(), q.rqs[walk[0]].fseq.Or(bit));
    assert Waiting(q) == walk;
    assert Without([walk[0]], walk[0]) == [];
  }

  /** The loop of flush_end_io issues at most one flush, after `i` visits, and only a warranted one. */
  lemma {:induction false} PushWaitingTimed(q: FQ, walk: seq<Rid>, ok: bool) returns (i: nat)
    requires Walking(q, walk) && Timed(q, walk)
    ensures Timed(PushWaiting(q, walk, ok), []) && (walk != [] ==> Prompt(PushWaiting(q, walk, ok)))
    ensures Issues(q, walk, ok, i) && (Flying(q) ==> i == 0)
    decreases |walk|
  {
    i := 0;
    if walk != [] {
      var next := CompleteSeq(q, walk[0], BitOf(q.rqs[walk[0]].fseq.Current()), ok);
      assert Timed(next, walk[1..]) && Kicked(q, next) by { VisitTimed(q, walk, ok); }
      assert Walking(next, walk[1..]) by { VisitWalks(q, walk, ok); }
      var j := PushWaitingTimed(next, walk[1..], ok);
      i := OneMore(q, walk, ok, next, j);
    }
  }

  /** All that the loop of flush_end_io needs of what it has still to visit. */
  ghost predicate Walking(q: FQ, walk: seq<Rid>) {
    Struct(q, walk, {}) && NoDup(walk) && forall x :: x in walk ==> x in q.rqs
  }

  lemma {:induction false} VisitWalks(q: FQ, walk: seq<Rid>, ok: bool)
    requires Walking(q, walk) && walk != []
    ensures Walking(CompleteSeq(q, walk[0], BitOf(q.rqs[walk[0]].fseq.Current()), ok), walk[1..])
  {
    var next := CompleteSeq(q, walk[0], BitOf(q.rqs[walk[0]].fseq.Current()), ok);
    assert Struct(next, walk[1..], {}) by { VisitStruct(q, walk, ok); }
    RestOfWalk(walk);
  }

  lemma {:induction false} RestOfWalk(walk: seq<Rid>)
    requires NoDup(walk) && walk != []
    ensures NoDup(walk[1..]) && forall x :: x in walk[1..] ==> x in walk && x != walk[0]
  {
  }

  /** The loop over `walk` issues a flush in its visit number `i`, or none if that is zero. */
  ghost predicate Issues(q: FQ, walk: seq<Rid>, ok: bool, i: nat)
    requires NoDup(walk) && forall x :: x in walk ==> x in q.rqs
  {
    && i <= |walk| && NoDup(walk[..i])
    && PushWaiting(q, walk, ok).flushes == q.flushes + (if i == 0 then 0 else 1)
    && (i > 0 ==> Warranted(PushWaiting(q, walk[..i], ok)))
  }

  lemma {:induction false} OneMore(q: FQ, walk: seq<Rid>, ok: bool, next: FQ, j: nat) returns (i: nat)
    requires NoDup(walk) && (forall x :: x in walk ==> x in q.rqs) && walk != []
    requires next == CompleteSeq(q, walk[0], BitOf(q.rqs[walk[0]].fseq.Current()), ok) && Kicked(q, next)
    requires Issues(next, walk[1..], ok, j) && (Flying(next) ==> j == 0)
    ensures Issues(q, walk, ok, i) && (Flying(q) ==> i == 0)
  {
    assert Flying(q) ==> Flying(next) by {
      FlyingStays(q, walk[0], BitOf(q.rqs[walk[0]].fseq.Current()), ok);
    }
    if next.flushes != q.flushes {
      i := 1;
      FirstVisits(q, walk, ok, next, 0);
    } else {
      i := if j > 0 then j + 1 else 0;
      FirstVisits(q, walk, ok, next, j);
    }
  }

  /** The first visit and then `j` more. */
  lemma {:induction false} FirstVisits(q: FQ, walk: seq<Rid>, ok: bool, next: FQ, j: nat)
    requires NoDup(walk) && (forall x :: x in walk ==> x in q.rqs) && walk != [] && j < |walk|
    requires next == CompleteSeq(q, walk[0], BitOf(q.rqs[walk[0]].fseq.Current()), ok)
    ensures NoDup(walk[..j + 1]) && NoDup(walk[1..][..j]) && forall x :: x in walk[1..][..j] ==> x in next.rqs
    ensures PushWaiting(q, walk[..j + 1], ok) == PushWaiting(next, walk[1..][..j], ok)
  {
    var w := walk[..j + 1];
    assert w[0] == walk[0] && w[1..] == walk[1..][..j];
    assert forall x :: x in w[1..] ==> x in walk && x != walk[0];
  }

  lemma {:induction false} EndFlushTimed(q: FQ, ok: bool) returns (i: nat)
    requires Good(q) && Timed(q, []) && Enabled(q, FinishFlush(ok))
    ensures Timed(EndFlush(q, ok), []) && Prompt(EndFlush(q, ok))
    ensures EndFlush(q, ok).flushes == q.flushes + (if i == 0 then 0 else 1)
    ensures Issues(RetireFlush(q, ok), q.queue.At(q.running), ok, i)
  {
    var j := RetireFlush(q, ok);
    var walk := q.queue.At(q.running);
    assert Walking(j, walk) && walk != [] by { RetireFlushStruct(q, ok); }
    assert Timed(j, walk) by { RetireTimed(q, ok); }
    i := PushWaitingTimed(j, walk, ok);
    SettleTimed(q, PushWaiting(j, walk, ok), EndFlush(q, ok));
  }

  lemma {:induction false} RetireTimed(q: FQ, ok: bool)
    requires Timed(q, []) && q.flushes > 0
    ensures Timed(RetireFlush(q, ok), q.queue.At(q.running))
  {
    SinceSame(q, RetireFlush(q, ok));
  }

  lemma {:induction false} SettleTimed(q: FQ, p: FQ, e: FQ)
    requires Timed(p, []) && Prompt(p) && e == p.(log := e.log, delayed := e.delayed)
    ensures Timed(e, []) && Prompt(e) && e.flushes == p.flushes
  {
    SinceSame(p, e);
  }

  lemma {:induction false} SequencedTimed(q: FQ, r: Rid, rq: Rq, f: FQ, ok: bool)
    requires Struct(q, [], {}) && Timed(q, []) && r in q.rqs && q.rqs[r].inSeq && RqEntry(r) in q.started
    requires rq == q.rqs[r].(bio := false, left := 0, uptodate := q.rqs[r].uptodate && ok, fin := |q.log|)
    requires f == q.(rqs := q.rqs[r := rq], started := q.started - {RqEntry(r)},
                     log := q.log + [DataFinished(r, rq.fua, rq.uptodate)])
    ensures Timed(CompleteSeq(f, r, DATA_BIT, ok), []) && Kicked(q, CompleteSeq(f, r, DATA_BIT, ok))
  {
    var a := Advance(f, r, DATA_BIT, ok);
    assert Indices(a, []) by { DataAdvance(q, r, rq, f, ok); }
    assert Timed(a, []) by { FinishedTimed(q, r, rq, f, ok); }
    AdvanceFlight(f, r, DATA_BIT, ok);
    KickTimed(q, a, []);
  }

  lemma {:induction false} FinishedTimed(q: FQ, r: Rid, rq: Rq, f: FQ, ok: bool)
    requires Struct(q, [], {}) && Timed(q, []) && r in q.rqs && q.rqs[r].inSeq && RqEntry(r) in q.started
    requires rq.since == q.rqs[r].since && f == q.(rqs := q.rqs[r := rq], started := f.started, log := f.log)
    ensures Timed(Advance(f, r, DATA_BIT, ok), [])
  {
    assert r !in Waiting(q) by { assert Dispatched(q, RqEntry(r)) && r in q.dataInFlight; }
    SinceSame(q, f);
    AdvanceTimed(f, r, DATA_BIT, ok);
  }

  lemma {:induction false} EndDataTimed(q: FQ, r: Rid, n: nat, ok: bool)
    requires Good(q) && Timed(q, []) && Enabled(q, FinishData(r, n, ok))
    ensures var j := EndData(q, r, n, ok);
            && Timed(j, []) && (j.flushes != q.flushes ==> Kicked(q, j))
            && (q.rqs[r].inSeq && n >= q.rqs[r].left ==> Kicked(q, j))
  {
    assert Dispatched(q, RqEntry(r));
    var j := EndData(q, r, n, ok);
    if n < q.rqs[r].left || !q.rqs[r].inSeq {
      OutsideTimed(q, r, j, n, ok);
    } else {
      var rq := UpdateBio(q.rqs[r], n, ok).(fin := |q.log|);
      var f := q.(rqs := q.rqs[r := rq], started := q.started - {RqEntry(r)},
                  log := q.log + [DataFinished(r, rq.fua, rq.uptodate)]);
      var c := CompleteSeq(f, r, DATA_BIT, ok);
      SequencedShape(q, r, n, ok, rq, f, c);
      SequencedTimed(q, r, rq, f, ok);
    }
  }

  /** A part of the data, or the data of a request outside the sequencer. */
  lemma {:induction false} OutsideTimed(q: FQ, r: Rid, j: FQ, n: nat, ok: bool)
    requires Good(q) && Timed(q, []) && Enabled(q, FinishData(r, n, ok)) && j == EndData(q, r, n, ok)
    requires q.rqs[r].bio && (n < q.rqs[r].left || !q.rqs[r].inSeq)
    ensures Timed(j, []) && j.flushes == q.flushes
  {
    if !q.rqs[r].inSeq {
      assert !On(q, r);
    }
    SinceSame(q, j);
  }

  lemma {:induction false} ArrivalTimed(q: FQ, bytes: nat, flush: bool, fua: bool, dev: Device)
    requires Good(q) && Timed(q, [])
    ensures var a := Arrival(q, bytes, flush, fua, dev);
            Past(a) && SinceFirst(a) && q.nextId !in Waiting(a) && SameFlight(q, a)
  {
    var a := Arrival(q, bytes, flush, fua, dev);
    assert !On(q, q.nextId);
    SinceSame(q, a);
  }

  lemma {:induction false} SubmitTimed(q: FQ, bytes: nat, flush: bool, fua: bool, dev: Device)
    requires Good(q) && Timed(q, []) && Enabled(q, Submit(bytes, flush, fua, dev))
    ensures var j := InsertFlush(q, bytes, flush, fua, dev);
            && Timed(j, []) && (j.flushes != q.flushes ==> Kicked(q, j))
            && (dev.writeback && (flush || (fua && !dev.fua)) ==> Kicked(q, j))
  {
    var a := Arrival(q, bytes, flush, fua, dev);
    var r := q.nextId;
    var policy := Policy(dev, bytes > 0, flush, fua);
    ArrivalTimed(q, bytes, flush, fua, dev);
    if policy == Mask(false, false, false) {
      SinceSame(a, EndSequence(a, r, true));
    } else if policy.data && !policy.pre && !policy.post {
      SinceSame(a, InsertFlush(q, bytes, flush, fua, dev));
    } else {
      ArrivalStruct(q, bytes, flush, fua, dev);
      SequencedSubmit(q, a, r, policy);
    }
  }

  lemma {:induction false} SequencedSubmit(q: FQ, a: FQ, r: Rid, policy: Mask)
    requires Unsequenced(a, r, policy) && Past(a) && SinceFirst(a) && r !in Waiting(a) && SameFlight(q, a)
    ensures Timed(CompleteSeq(a, r, policy.Not(), true), []) && Kicked(q, CompleteSeq(a, r, policy.Not(), true))
  {
    var b := Advance(a, r, policy.Not(), true);
    assert Indices(b, []) by { SequencedAdvance(a, r, policy); }
    assert Timed(b, []) by { AdvanceTimed(a, r, policy.Not(), true); }
    AdvanceFlight(a, r, policy.Not(), true);
    KickTimed(q, b, []);
  }

  lemma {:induction false} StepTimed(q: FQ, s: Step)
    requires Good(q) && Timed(q, []) && Enabled(q, s)
    ensures Timed(Apply(q, s), [])
  {
    match s
    case Submit(bytes, flush, fua, dev) => SubmitTimed(q, bytes, flush, fua, dev);
    case FinishData(r, n, ok) => EndDataTimed(q, r, n, ok);
    case FinishFlush(ok) => { var i := EndFlushTimed(q, ok); }
    case _ => SinceSame(q, Apply(q, s));
  }

  lemma {:induction false} RunTimed(q: FQ, steps: seq<Step>, q': FQ)
    requires Good(q) && Timed(q, []) && Runs(q, steps, q')
    ensures Good(q') && Timed(q', [])
    decreases |steps|
  {
    if steps != [] {
      StepTimed(q, steps[0]);
      StepGood(q, steps[0]);
      RunTimed(Apply(q, steps[0]), steps[1..], q');
    }
  }

  /** The step ends a stage of some sequence: it calls blk_flush_complete_seq. */
  ghost predicate MovesOn(q: FQ, s: Step)
    requires Enabled(q, s)
  {
    match s
    case Submit(_, flush, fua, dev) => dev.writeback && (flush || (fua && !dev.fua))
    case FinishData(r, n, _) => q.rqs[r].inSeq && n >= q.rqs[r].left
    case FinishFlush(_) => true
    case _ => false
  }

  /** In every run, after every step that ends a stage of a sequence: a flush is in flight, or nothing waits for
      one, or data is in flight and nobody has waited five seconds. */
  lemma {:induction false} EveryKickPrompt(hz: nat, steps: seq<Step>, q: FQ, s: Step)
    requires Runs(Init(hz), steps, q) && Enabled(q, s) && MovesOn(q, s)
    ensures Prompt(Apply(q, s))
  {
    RunTimed(Init(hz), steps, q);
    match s
    case Submit(bytes, flush, fua, dev) => SubmitTimed(q, bytes, flush, fua, dev);
    case FinishData(r, n, ok) => EndDataTimed(q, r, n, ok);
    case FinishFlush(ok) => { var i := EndFlushTimed(q, ok); }
  }

  /** A submission or a completion of data issues a flush only if none is in flight, one is waited for, and no data
      is in flight or somebody has waited five seconds; no other step but the end of a flush issues any. */
  lemma {:induction false} IssuedWhenDue(hz: nat, steps: seq<Step>, q: FQ, s: Step)
    requires Runs(Init(hz), steps, q) && Enabled(q, s) && !s.FinishFlush? && Apply(q, s).flushes != q.flushes
    ensures MovesOn(q, s) && !Flying(q) && Warranted(Apply(q, s)) && Apply(q, s).flushes == q.flushes + 1
  {
    RunTimed(Init(hz), steps, q);
    StepIssues(q, s, Apply(q, s));
  }

  lemma {:induction false} StepIssues(q: FQ, s: Step, j: FQ)
    requires Good(q) && Timed(q, []) && Enabled(q, s) && !s.FinishFlush? && j == Apply(q, s)
    ensures j.flushes != q.flushes ==> MovesOn(q, s) && Kicked(q, j)
  {
    if s.Submit? {
      SubmitIssues(q, s.bytes, s.flush, s.fua, s.dev);
    } else if s.FinishData? {
      DataIssues(q, s.r, s.n, s.ok);
    }
  }

  lemma {:induction false} SubmitIssues(q: FQ, bytes: nat, flush: bool, fua: bool, dev: Device)
    requires Good(q) && Timed(q, []) && Enabled(q, Submit(bytes, flush, fua, dev))
    ensures var j := InsertFlush(q, bytes, flush, fua, dev);
            j.flushes != q.flushes ==> Kicked(q, j) && dev.writeback && (flush || (fua && !dev.fua))
  {
    SubmitTimed(q, bytes, flush, fua, dev);
  }

  lemma {:induction false} DataIssues(q: FQ, r: Rid, n: nat, ok: bool)
    requires Good(q) && Timed(q, []) && Enabled(q, FinishData(r, n, ok))
    ensures var j := EndData(q, r, n, ok);
            j.flushes != q.flushes ==> Kicked(q, j) && q.rqs[r].inSeq && n >= q.rqs[r].left
  {
    assert q.rqs[r].bio by { assert Dispatched(q, RqEntry(r)); }
    if n < q.rqs[r].left || !q.rqs[r].inSeq {
      OutsideTimed(q, r, EndData(q, r, n, ok), n, ok);
    } else {
      EndDataTimed(q, r, n, ok);
    }
  }

  /** The end of a flush issues at most one other, after the first `i` of those it served have moved on, and then one
      that was waited for, with no data in flight or somebody waiting for five seconds. */
  lemma {:induction false} IssuedAfterFlush(hz: nat, steps: seq<Step>, q: FQ, ok: bool) returns (i: nat)
    requires Runs(Init(hz), steps, q) && Enabled(q, FinishFlush(ok)) && EndFlush(q, ok).flushes != q.flushes
    ensures i > 0 && EndFlush(q, ok).flushes == q.flushes + 1
    ensures Issues(RetireFlush(q, ok), q.queue.At(q.running), ok, i)
  {
    RunTimed(Init(hz), steps, q);
    i := EndFlushTimed(q, ok);
  }
}
