/** What the sequencer puts on the dispatch queue and where, whom it makes wait, and when it has the queue run. */
module FlushDispatch {
  import opened Lists
  import opened FlushModel
  import opened FlushStructure
  import opened FlushHistory

  // ---- who waits for a flush ----

  /** A request waits for a flush only on a device with a write-back cache: before its data only if it was submitted
      with FLUSH, after its data only if with FUA and the device cannot write through. */
  lemma {:induction false} WaitsOnlyIfNeeded(hz: nat, steps: seq<Step>, q: FQ, r: Rid)
    requires Runs(Init(hz), steps, q) && r in q.rqs && (r in q.queue.q0 || r in q.queue.q1)
    ensures q.rqs[r].sub < |q.log| && q.log[q.rqs[r].sub].Submitted? && q.log[q.rqs[r].sub].r == r
    ensures var s := q.log[q.rqs[r].sub];
            && s.dev.writeback
            && (!q.rqs[r].fseq.pre ==> s.flush)
            && (q.rqs[r].fseq.pre ==> q.rqs[r].fseq.data && s.bytes > 0 && s.fua && !s.dev.fua)
  {
    RunHist(Init(hz), steps, q);
    NeedsFlush(q, r);
  }

  lemma {:induction false} NeedsFlush(q: FQ, r: Rid)
    requires Good(q) && RqHists(q) && r in q.rqs && (r in q.queue.q0 || r in q.queue.q1)
    ensures q.rqs[r].sub < |q.log| && q.log[q.rqs[r].sub].Submitted? && q.log[q.rqs[r].sub].r == r
    ensures var s := q.log[q.rqs[r].sub];
            && s.dev.writeback
            && (!q.rqs[r].fseq.pre ==> s.flush)
            && (q.rqs[r].fseq.pre ==> q.rqs[r].fseq.data && s.bytes > 0 && s.fua && !s.dev.fua)
  {
    assert On(q, r) && RqHist(q.log, r, q.rqs[r]);
    assert RqOk(q.rqs[r]);
  }

  // ---- the dispatch queue ----

  /** Data of sequenced requests has been put before what was queued, and at most a flush behind it. */
  ghost predicate Around(q: FQ, j: FQ, front: seq<Entry>, back: seq<Entry>) {
    && j.head == front + q.head + back && (back == [] || back == [FlushEntry])
    && (forall e :: e in front ==> e.RqEntry?)
  }

  lemma {:induction false} CompleteAround(q: FQ, r: Rid, done: Mask, ok: bool)
    returns (front: seq<Entry>, back: seq<Entry>)
    requires r in q.rqs
    ensures Around(q, CompleteSeq(q, r, done, ok), front, back)
    ensures front == [] || (front == [RqEntry(r)] && ok && q.rqs[r].fseq.Or(done).Current() == Data)
    ensures Flying(q) ==> back == []
    ensures back != [] ==> Flying(CompleteSeq(q, r, done, ok))
  {
    var a := Advance(q, r, done, ok);
    front := if ok && q.rqs[r].fseq.Or(done).Current() == Data then [RqEntry(r)] else [];
    back := if KickFlush(a) != a then [FlushEntry] else [];
    assert a.head == front + q.head;
    assert front + q.head + [] == front + q.head;
  }

  /** Around what was put around the queue. */
  lemma {:induction false} AroundTwice(q: FQ, n: FQ, p: FQ, f: seq<Entry>, b: seq<Entry>, f': seq<Entry>,
                                       b': seq<Entry>)
    requires Around(q, n, f, b) && Around(n, p, f', b') && (b == [] || b' == [])
    ensures Around(q, p, f' + f, b + b')
  {
    assert f' + (f + q.head + b) + b' == (f' + f) + q.head + (b + b');
  }

  lemma {:induction false} PushWaitingAround(q: FQ, walk: seq<Rid>, ok: bool)
    returns (front: seq<Entry>, back: seq<Entry>)
    requires NoDup(walk) && forall x :: x in walk ==> x in q.rqs
    ensures Around(q, PushWaiting(q, walk, ok), front, back) && (Flying(q) ==> back == [])
    decreases |walk|
  {
    if walk == [] {
      front, back := [], [];
      assert [] + q.head + [] == q.head;
    } else {
      var bit := BitOf(q.rqs[walk[0]].fseq.Current());
      var next := CompleteSeq(q, walk[0], bit, ok);
      var f, b := CompleteAround(q, walk[0], bit, ok);
      FlyingStays(q, walk[0], bit, ok);
      var f', b' := PushWaitingAround(next, walk[1..], ok);
      AroundTwice(q, next, PushWaiting(next, walk[1..], ok), f, b, f', b');
      front, back := f' + f, b + b';
    }
  }

  /** Each step but the driver's own leaves the order of the dispatch queue alone: the data of sequenced requests goes
      to its front, a flush to its end, and a request that needs no flush to its end. */
  lemma {:induction false} QueueOrderKept(q: FQ, s: Step) returns (front: seq<Entry>, back: seq<Entry>)
    requires Good(q) && Enabled(q, s) && !s.Take? && !s.GiveBack?
    ensures Apply(q, s).head == front + q.head + back
    ensures forall e :: e in front ==> e.RqEntry?
    ensures back == [] || back == [FlushEntry] || (s.Submit? && front == [] && back == [RqEntry(q.nextId)])
  {
    front, back := [], [];
    assert [] + q.head + [] == q.head;
    match s
    case Submit(bytes, flush, fua, dev) => front, back := SubmitAround(q, bytes, flush, fua, dev);
    case FinishData(r, n, ok) => front, back := DataAround(q, r, n, ok);
    case FinishFlush(ok) => {
      RetireFlushStruct(q, ok);
      front, back := PushWaitingAround(RetireFlush(q, ok), q.queue.At(q.running), ok);
    }
    case _ =>
  }

  lemma {:induction false} SubmitAround(q: FQ, bytes: nat, flush: bool, fua: bool, dev: Device)
    returns (front: seq<Entry>, back: seq<Entry>)
    ensures InsertFlush(q, bytes, flush, fua, dev).head == front + q.head + back
    ensures forall e :: e in front ==> e.RqEntry?
    ensures back == [] || back == [FlushEntry] || (front == [] && back == [RqEntry(q.nextId)])
  {
    var a := Arrival(q, bytes, flush, fua, dev);
    var policy := Policy(dev, bytes > 0, flush, fua);
    front, back := [], [];
    assert [] + q.head + [] == q.head;
    if policy.data && !policy.pre && !policy.post {
      back := [RqEntry(q.nextId)];
      assert [] + q.head + back == q.head + back;
    } else if policy != Mask(false, false, false) {
      front, back := CompleteAround(a, q.nextId, policy.Not(), true);
    }
  }

  lemma {:induction false} DataAround(q: FQ, r: Rid, n: nat, ok: bool) returns (front: seq<Entry>, back: seq<Entry>)
    requires r in q.rqs
    ensures Around(q, EndData(q, r, n, ok), front, back)
  {
    front, back := [], [];
    assert [] + q.head + [] == q.head;
    var rq := UpdateBio(q.rqs[r], n, ok);
    if !rq.bio && rq.inSeq {
      var u := q.(rqs := q.rqs[r := rq]);
      var f := u.(rqs := u.rqs[r := rq.(fin := |q.log|)], started := u.started - {RqEntry(r)},
                  log := u.log + [DataFinished(r, rq.fua, rq.uptodate)]);
      front, back := CompleteAround(f, r, DATA_BIT, ok);
    }
  }

  /** What the driver takes from the queue and gives back stands where it stood. */
  lemma {:induction false} GivenBackFirst(q: FQ)
    requires Good(q) && q.head != []
    ensures Enabled(q, Take) && Enabled(Apply(q, Take), GiveBack(q.head[0]))
    ensures Apply(Apply(q, Take), GiveBack(q.head[0])) == q
  {
    assert q.head[0] in q.head && q.head[0] !in q.started;
    assert [q.head[0]] + q.head[1..] == q.head;
    assert q.started + {q.head[0]} - {q.head[0]} == q.started;
  }

  // ---- holding and running the queue ----

  /** The queue is held from when the driver finds nothing queued while a flush is with it, on a device that takes
      nothing else meanwhile, until that flush ends. */
  lemma {:induction false} HeldUntilFlushEnds(q: FQ, s: Step)
    requires Good(q) && Enabled(q, s)
    ensures Apply(q, s).delayed <==>
              if s.FinishFlush? then false
              else q.delayed || (s.PeekStep? && !s.queueable && q.head == [] && Dispatched(q, FlushEntry))
  {
    if s.Submit? {
      SubmitHold(q, s.bytes, s.flush, s.fua, s.dev);
    } else if s.FinishData? {
      DataHold(q, s.r, s.n, s.ok);
    }
  }

  lemma {:induction false} SubmitHold(q: FQ, bytes: nat, flush: bool, fua: bool, dev: Device)
    ensures InsertFlush(q, bytes, flush, fua, dev).delayed == q.delayed
    ensures !RanSince(q, InsertFlush(q, bytes, flush, fua, dev))
  {
    var a := Arrival(q, bytes, flush, fua, dev);
    var policy := Policy(dev, bytes > 0, flush, fua);
    if policy != Mask(false, false, false) && !(policy.data && !policy.pre && !policy.post) {
      CompleteQuiet(a, q.nextId, policy.Not(), true);
    }
  }

  lemma {:induction false} DataHold(q: FQ, r: Rid, n: nat, ok: bool)
    requires r in q.rqs
    ensures EndData(q, r, n, ok).delayed == q.delayed
    ensures RanSince(q, EndData(q, r, n, ok)) <==> |EndData(q, r, n, ok).head| > |q.head|
  {
    var rq := UpdateBio(q.rqs[r], n, ok);
    var e := EndData(q, r, n, ok);
    if !rq.bio && rq.inSeq {
      var u := q.(rqs := q.rqs[r := rq]);
      var f := u.(rqs := u.rqs[r := rq.(fin := |q.log|)], started := u.started - {RqEntry(r)},
                  log := u.log + [DataFinished(r, rq.fua, rq.uptodate)]);
      var c := CompleteSeq(f, r, DATA_BIT, ok);
      CompleteQuiet(f, r, DATA_BIT, ok);
      QuietTwice(q.log, f.log, c.log);
      RunEnds(q.log, c.log, e.log, |c.head| > |q.head|);
    } else {
      assert Quiet(q.log, e.log);
    }
  }

  /** The queue was run in the step from `q` to `j`. */
  ghost predicate RanSince(q: FQ, j: FQ) { exists p :: |q.log| <= p < |j.log| && j.log[p] == QueueRun }

  /** `m` continues `l` without running the queue. */
  ghost predicate Quiet(l: seq<Event>, m: seq<Event>) {
    |l| <= |m| && m[..|l|] == l && forall p :: |l| <= p < |m| ==> m[p] != QueueRun
  }

  lemma {:induction false} QuietTwice(l: seq<Event>, m: seq<Event>, n: seq<Event>)
    requires Quiet(l, m) && Quiet(m, n)
    ensures Quiet(l, n)
  {
    assert n[..|l|] == n[..|m|][..|l|];
    forall p | |l| <= p < |n|
      ensures n[p] != QueueRun
    {
      if p < |m| {
        assert n[p] == n[..|m|][p];
      }
    }
  }

  lemma {:induction false} RunEnds(l: seq<Event>, m: seq<Event>, n: seq<Event>, run: bool)
    requires Quiet(l, m) && n == if run then m + [QueueRun] else m
    ensures (exists p :: |l| <= p < |n| && n[p] == QueueRun) <==> run
  {
    if run {
      assert n[|m|] == QueueRun;
    }
  }

  /** blk_flush_complete_seq runs nothing itself. */
  lemma {:induction false} CompleteQuiet(q: FQ, r: Rid, done: Mask, ok: bool)
    requires r in q.rqs
    ensures CompleteSeq(q, r, done, ok).delayed == q.delayed && Quiet(q.log, CompleteSeq(q, r, done, ok).log)
  {
    var a := Advance(q, r, done, ok);
    AdvanceQuiet(q, r, done, ok);
    assert Quiet(a.log, KickFlush(a).log);
    QuietTwice(q.log, a.log, KickFlush(a).log);
  }

  lemma {:induction false} AdvanceQuiet(q: FQ, r: Rid, done: Mask, ok: bool)
    requires r in q.rqs
    ensures Advance(q, r, done, ok).delayed == q.delayed && Quiet(q.log, Advance(q, r, done, ok).log)
  {
  }

  lemma {:induction false} PushWaitingQuiet(q: FQ, walk: seq<Rid>, ok: bool)
    requires NoDup(walk) && forall x :: x in walk ==> x in q.rqs
    ensures Quiet(q.log, PushWaiting(q, walk, ok).log)
    decreases |walk|
  {
    if walk != [] {
      var bit := BitOf(q.rqs[walk[0]].fseq.Current());
      var next := CompleteSeq(q, walk[0], bit, ok);
      CompleteQuiet(q, walk[0], bit, ok);
      PushWaitingQuiet(next, walk[1..], ok);
      QuietTwice(q.log, next.log, PushWaiting(next, walk[1..], ok).log);
    }
  }

  /** The end of a flush runs the queue exactly when the queue was held or has grown; the end of data exactly when it
      has grown; no other step does. */
  lemma {:induction false} RunsQueueIff(q: FQ, s: Step)
    requires Good(q) && Enabled(q, s)
    ensures RanSince(q, Apply(q, s)) <==>
              || (s.FinishFlush? && (q.delayed || |Apply(q, s).head| > |q.head|))
              || (s.FinishData? && |Apply(q, s).head| > |q.head|)
  {
    match s
    case Submit(bytes, flush, fua, dev) => SubmitHold(q, bytes, flush, fua, dev);
    case FinishData(r, n, ok) => DataHold(q, r, n, ok);
    case FinishFlush(ok) => FlushRuns(q, ok);
    case _ =>
  }

  lemma {:induction false} FlushRuns(q: FQ, ok: bool)
    requires Good(q) && Enabled(q, FinishFlush(ok))
    ensures RanSince(q, EndFlush(q, ok)) <==> q.delayed || |EndFlush(q, ok).head| > |q.head|
  {
    var j := RetireFlush(q, ok);
    var p := PushWaiting(j, q.queue.At(q.running), ok);
    PushWaitingQuiet(j, q.queue.At(q.running), ok);
    assert Quiet(q.log, j.log);
    QuietTwice(q.log, j.log, p.log);
    RunEnds(q.log, p.log, EndFlush(q, ok).log, q.delayed || |p.head| > |q.head|);
  }
}
