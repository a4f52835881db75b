/** A part of a request that fails is remembered until its bio ends (block/blk-core.c, block/blk-flush.c). */
module FlushErrors {
  import opened Lists
  import opened FlushModel
  import opened FlushStructure

  /** The driver reports that some of the data of `r` could not be transferred. */
  predicate FailsPart(q: FQ, s: Step, r: Rid) {
    s.FinishData? && s.r == r && !s.ok && r in q.rqs && (s.n > 0 || q.rqs[r].left == 0)
  }

  /** The bio of `r` is marked as failed while the request lives. */
  ghost predicate Spoilt(q: FQ, r: Rid) {
    r < q.nextId && (r in q.rqs ==> !q.rqs[r].uptodate)
  }

  /** What was logged between `q` and `j` holds no good end of the bio of `r`. */
  ghost predicate NoGoodEnd(q: FQ, j: FQ, r: Rid) {
    q.log <= j.log && forall i :: |q.log| <= i < |j.log| ==> j.log[i] != BioEnded(r, true)
  }

  ghost predicate Stays(q: FQ, j: FQ, r: Rid) { NoGoodEnd(q, j, r) && Spoilt(j, r) }

  lemma {:induction false} StaysTwice(q: FQ, j: FQ, k: FQ, r: Rid)
    requires Stays(q, j, r) && Stays(j, k, r)
    ensures Stays(q, k, r)
  {
    forall i | |q.log| <= i < |k.log|
      ensures k.log[i] != BioEnded(r, true)
    {
      if i < |j.log| {
        assert k.log[i] == j.log[i];
      }
    }
  }

  lemma {:induction false} EndStays(q: FQ, x: Rid, ok: bool, r: Rid)
    requires x in q.rqs && Spoilt(q, r)
    ensures Stays(q, EndSequence(q, x, ok), r)
  {
  }

  lemma {:induction false} AdvanceStays(q: FQ, x: Rid, done: Mask, ok: bool, r: Rid)
    requires x in q.rqs && Spoilt(q, r)
    ensures Stays(q, Advance(q, x, done, ok), r)
  {
    var rq := q.rqs[x].(fseq := q.rqs[x].fseq.Or(done));
    var d := Detach(q.(rqs := q.rqs[x := rq]), x);
    AdvanceShape(q, x, done, ok, rq, d);
    EndStays(d, x, ok, r);
  }

  lemma {:induction false} CompleteStays(q: FQ, x: Rid, done: Mask, ok: bool, r: Rid)
    requires x in q.rqs && Spoilt(q, r)
    ensures Stays(q, CompleteSeq(q, x, done, ok), r)
  {
    var a := Advance(q, x, done, ok);
    AdvanceStays(q, x, done, ok, r);
    StaysTwice(q, a, KickFlush(a), r);
  }

  lemma {:induction false} PushWaitingStays(q: FQ, walk: seq<Rid>, ok: bool, r: Rid)
    requires NoDup(walk) && (forall x :: x in walk ==> x in q.rqs) && Spoilt(q, r)
    ensures Stays(q, PushWaiting(q, walk, ok), r)
    decreases |walk|
  {
    if walk != [] {
      var bit := BitOf(q.rqs[walk[0]].fseq.Current());
      var next := CompleteSeq(q, walk[0], bit, ok);
      CompleteStays(q, walk[0], bit, ok, r);
      PushWaitingStays(next, walk[1..], ok, r);
      StaysTwice(q, next, PushWaiting(next, walk[1..], ok), r);
    }
  }

  lemma {:induction false} FlushStays(q: FQ, ok: bool, r: Rid)
    requires Good(q) && Enabled(q, FinishFlush(ok)) && Spoilt(q, r)
    ensures Stays(q, EndFlush(q, ok), r)
  {
    var j := RetireFlush(q, ok);
    var p := PushWaiting(j, q.queue.At(q.running), ok);
    PushWaitingStays(j, q.queue.At(q.running), ok, r);
    StaysTwice(q, j, p, r);
    StaysTwice(q, p, EndFlush(q, ok), r);
  }

  lemma {:induction false} FinishStays(q: FQ, x: Rid, ok: bool, r: Rid)
    requires x in q.rqs && Spoilt(q, r)
    ensures Stays(q, FinishRequest(q, x, ok), r)
  {
    var rq := q.rqs[x];
    var f := q.(rqs := q.rqs[x := rq.(fin := |q.log|)], started := q.started - {RqEntry(x)},
                log := q.log + [DataFinished(x, rq.fua, rq.uptodate)]);
    assert Stays(q, f, r);
    if rq.inSeq {
      var c := CompleteSeq(f, x, DATA_BIT, ok);
      CompleteStays(f, x, DATA_BIT, ok, r);
      StaysTwice(q, f, c, r);
      StaysTwice(q, c, FinishRequest(q, x, ok), r);
    }
  }

  /** From the moment a part fails: the update of the bio marks it, and what follows keeps the mark. */
  lemma {:induction false} DataStays(q: FQ, x: Rid, n: nat, ok: bool, r: Rid)
    requires x in q.rqs && q.rqs[x].bio && r < q.nextId
    requires Spoilt(q, r) || (FailsPart(q, FinishData(x, n, ok), r) && x == r)
    ensures Stays(q, EndData(q, x, n, ok), r)
  {
    var rq := UpdateBio(q.rqs[x], n, ok);
    var u := q.(rqs := q.rqs[x := rq]);
    assert Stays(q, u, r);
    if !rq.bio {
      FinishStays(u, x, ok, r);
      StaysTwice(q, u, EndData(q, x, n, ok), r);
    }
  }

  lemma {:induction false} SubmitStays(q: FQ, bytes: nat, flush: bool, fua: bool, dev: Device, r: Rid)
    requires Spoilt(q, r)
    ensures Stays(q, InsertFlush(q, bytes, flush, fua, dev), r)
  {
    var a := Arrival(q, bytes, flush, fua, dev);
    var policy := Policy(dev, bytes > 0, flush, fua);
    assert Stays(q, a, r);
    if policy == Mask(false, false, false) {
      EndStays(a, q.nextId, true, r);
      StaysTwice(q, a, EndSequence(a, q.nextId, true), r);
    } else if policy.pre || policy.post {
      CompleteStays(a, q.nextId, policy.Not(), true, r);
      StaysTwice(q, a, CompleteSeq(a, q.nextId, policy.Not(), true), r);
    }
  }

  /** Every step keeps the mark and ends no marked bio well. */
  lemma {:induction false} StepStays(q: FQ, s: Step, r: Rid)
    requires Good(q) && Enabled(q, s) && r < q.nextId && (Spoilt(q, r) || FailsPart(q, s, r))
    ensures Stays(q, Apply(q, s), r)
  {
    match s
    case Submit(bytes, flush, fua, dev) => SubmitStays(q, bytes, flush, fua, dev, r);
    case FinishData(x, n, ok) => {
      assert Dispatched(q, RqEntry(x));
      DataStays(q, x, n, ok, r);
    }
    case FinishFlush(ok) => FlushStays(q, ok, r);
    case _ =>
  }

  lemma {:induction false} RunStays(q: FQ, steps: seq<Step>, j: FQ, r: Rid)
    requires Good(q) && Runs(q, steps, j) && Spoilt(q, r)
    ensures Stays(q, j, r)
    decreases |steps|
  {
    if steps != [] {
      var next := Apply(q, steps[0]);
      StepStays(q, steps[0], r);
      StepGood(q, steps[0]);
      RunStays(next, steps[1..], j, r);
      StaysTwice(q, next, j, r);
    }
  }

  /** A bio of which any part has failed does not end well, in that step or in whatever follows it. */
  lemma {:induction false} FailedPartEndsBadly(q: FQ, s: Step, steps: seq<Step>, j: FQ, r: Rid)
    requires Good(q) && Enabled(q, s) && FailsPart(q, s, r) && Runs(Apply(q, s), steps, j)
    ensures forall i :: |q.log| <= i < |j.log| ==> j.log[i] != BioEnded(r, true)
  {
    StepStays(q, s, r);
    StepGood(q, s);
    RunStays(Apply(q, s), steps, j, r);
    StaysTwice(q, Apply(q, s), j, r);
  }

  lemma {:induction false} CompleteMarks(q: FQ, x: Rid, done: Mask, ok: bool, r: Rid)
    requires x in q.rqs && r in CompleteSeq(q, x, done, ok).rqs
    ensures r in q.rqs && CompleteSeq(q, x, done, ok).rqs[r].uptodate == q.rqs[r].uptodate
  {
    var rq := q.rqs[x].(fseq := q.rqs[x].fseq.Or(done));
    AdvanceShape(q, x, done, ok, rq, Detach(q.(rqs := q.rqs[x := rq]), x));
  }

  lemma {:induction false} FinishMarks(q: FQ, x: Rid, ok: bool, r: Rid)
    requires x in q.rqs && r in FinishRequest(q, x, ok).rqs
    ensures r in q.rqs && FinishRequest(q, x, ok).rqs[r].uptodate == q.rqs[r].uptodate
  {
    var rq := q.rqs[x];
    var f := q.(rqs := q.rqs[x := rq.(fin := |q.log|)], started := q.started - {RqEntry(x)},
                log := q.log + [DataFinished(x, rq.fua, rq.uptodate)]);
    if rq.inSeq {
      CompleteMarks(f, x, DATA_BIT, ok, r);
    }
  }

  /** Nothing else marks it: while the request lives its bio is marked exactly by the parts that fail. */
  lemma {:induction false} MarkedOnlyByFailure(q: FQ, s: Step, r: Rid)
    requires Good(q) && Enabled(q, s) && s.FinishData? && r in q.rqs && r in Apply(q, s).rqs
    ensures Apply(q, s).rqs[r].uptodate <==> q.rqs[r].uptodate && !FailsPart(q, s, r)
  {
    assert Dispatched(q, RqEntry(s.r));
    var rq := UpdateBio(q.rqs[s.r], s.n, s.ok);
    if !rq.bio {
      FinishMarks(q.(rqs := q.rqs[s.r := rq]), s.r, s.ok, r);
    }
  }
}
