/** The FLUSH/FUA sequencer of block/blk-flush.c as a state machine on values.

    One `FQ` value is the flush-related part of a request_queue.  Every function below is one
    section that the source runs under the queue lock.  Besides the source's own fields the state
    carries a `log` of what an observer of the block layer sees: requests arriving, flushes being
    issued and ending, data reaching the dispatch queue, bios being ended. */
module FlushModel {
  import opened Lists

  type Rid = nat

  datatype Stage = Preflush | Data | Postflush | Done

  /** The three action bits of rq->flush.seq; DONE is reached when all three are set. */
  datatype Mask = Mask(pre: bool, data: bool, post: bool) {
    function Or(m: Mask): Mask { Mask(pre || m.pre, data || m.data, post || m.post) }
    function Not(): Mask { Mask(!pre, !data, !post) }
    predicate Meets(m: Mask) { (pre && m.pre) || (data && m.data) || (post && m.post) }
    /** blk_flush_cur_seq: the lowest bit that is still clear. */
    function Current(): Stage {
      if !pre then Preflush else if !data then Data else if !post then Postflush else Done
    }
  }

  const PREFLUSH_BIT := Mask(true, false, false)
  const DATA_BIT := Mask(false, true, false)
  const POSTFLUSH_BIT := Mask(false, false, true)

  function BitOf(s: Stage): Mask {
    match s
    case Preflush => PREFLUSH_BIT
    case Data => DATA_BIT
    case Postflush => POSTFLUSH_BIT
    case Done => Mask(false, false, false)
  }

  /** q->flush_flags: does the device have a write-back cache, and does it honour FUA writes. */
  datatype Device = Device(writeback: bool, fua: bool)

  /** blk_flush_policy */
  function Policy(dev: Device, hasData: bool, flush: bool, fua: bool): Mask {
    Mask(dev.writeback && flush, hasData, dev.writeback && !dev.fua && fua)
  }

  /** What may stand on q->queue_head or be in the hands of the driver. */
  datatype Entry = FlushEntry | RqEntry(r: Rid)

  datatype Event =
    | Submitted(r: Rid, bytes: nat, flush: bool, fua: bool, dev: Device)
    | FlushIssued(f: nat)
    | FlushEnded(f: nat, ok: bool)
    | DataQueued(r: Rid, fua: bool)
    | DataFinished(r: Rid, fua: bool, ok: bool)
    | BioEnded(r: Rid, ok: bool)
    | Accounted(r: Rid)
    | QueueRun

  /** A request with its single bio.  `left` is bi_size, which __data_len follows.
      `policy` and the fields below it only record history. */
  datatype Rq = Rq(
    bytes: nat,
    fua: bool,        // REQ_FUA as the driver will see it
    fseq: Mask,       // rq->flush.seq
    inSeq: bool,      // REQ_FLUSH_SEQ
    bio: bool,        // rq->bio != NULL
    left: nat,
    uptodate: bool,   // BIO_UPTODATE
    policy: Mask,
    sub: nat,         // where its Submitted event stands
    fin: nat,         // where its DataFinished event stands, once there is one
    joined: nat,      // length of the log when it last joined a flush queue
    since: nat)       // and the time

  /** q->flush_queue[2], indexed as the source indexes it. */
  datatype Queues = Queues(q0: seq<Rid>, q1: seq<Rid>) {
    function At(i: bool): seq<Rid> { if i then q1 else q0 }
    function Put(i: bool, l: seq<Rid>): Queues { if i then Queues(q0, l) else Queues(l, q1) }
  }

  datatype FQ = FQ(
    queue: Queues,
    pending: bool,            // flush_pending_idx
    running: bool,            // flush_running_idx
    dataInFlight: seq<Rid>,   // flush_data_in_flight
    pendingSince: nat,        // flush_pending_since
    delayed: bool,            // flush_queue_delayed
    head: seq<Entry>,         // queue_head
    started: set<Entry>,      // dequeued by the driver, not completed yet
    now: nat,                 // jiffies
    hz: nat,
    rqs: map<Rid, Rq>,        // the unfinished requests
    nextId: Rid,
    flushes: nat,             // flushes issued so far
    issuedAt: nat,            // log position of the latest FlushIssued
    log: seq<Event>)

  function Init(hz: nat): FQ {
    FQ(Queues([], []), false, false, [], 0, false, [], {}, 0, hz, map[], 0, 0, 0, [])
  }

  /** list_del on rq->flush.list: the request leaves whatever list it is on. */
  function Detach(q: FQ, r: Rid): FQ {
    q.(queue := Queues(Without(q.queue.q0, r), Without(q.queue.q1, r)),
       dataInFlight := Without(q.dataInFlight, r))
  }

  /** blk_kick_flush */
  function KickFlush(q: FQ): FQ {
    if q.pending != q.running || q.queue.At(q.pending) == [] then q
    else if q.dataInFlight != [] && q.now < q.pendingSince + 5 * q.hz then q
    else q.(pending := !q.pending,
            head := q.head + [FlushEntry],
            flushes := q.flushes + 1,
            issuedAt := |q.log|,
            log := q.log + [FlushIssued(q.flushes)])
  }

  /** blk_update_request and req_bio_endio on a request with one bio, `n` bytes done. */
  function UpdateBio(rq: Rq, n: nat, ok: bool): Rq {
    if !rq.bio then rq
    else if n >= rq.left then rq.(bio := false, left := 0, uptodate := rq.uptodate && ok)
    else rq.(left := rq.left - n, uptodate := if n > 0 then rq.uptodate && ok else rq.uptodate)
  }

  /** blk_finish_request on a request that is no longer sequenced: account it and let it go. */
  function Release(q: FQ, r: Rid): FQ {
    q.(rqs := q.rqs - {r}, log := q.log + [Accounted(r)])
  }

  /** blk_flush_restore_request followed by __blk_end_request_all. */
  function EndSequence(q: FQ, r: Rid, ok: bool): FQ
    requires r in q.rqs
  {
    var restored := q.rqs[r].(bio := true, inSeq := false);
    var ended := UpdateBio(restored, restored.left, ok);
    Release(q.(rqs := q.rqs[r := ended], log := q.log + [BioEnded(r, ended.uptodate)]), r)
  }

  function JoinPending(q: FQ, r: Rid, wasEmpty: bool): FQ
    requires r in q.rqs
  {
    q.(pendingSince := if wasEmpty then q.now else q.pendingSince,
       queue := q.queue.Put(q.pending, q.queue.At(q.pending) + [r]),
       rqs := q.rqs[r := q.rqs[r].(joined := |q.log|, since := q.now)])
  }

  function QueueData(q: FQ, r: Rid): FQ
    requires r in q.rqs
  {
    q.(dataInFlight := q.dataInFlight + [r],
       head := [RqEntry(r)] + q.head,
       log := q.log + [DataQueued(r, q.rqs[r].fua)])
  }

  /** blk_flush_complete_seq up to, but not including, the final kick. */
  function Advance(q: FQ, r: Rid, done: Mask, ok: bool): FQ
    requires r in q.rqs
  {
    var seq' := q.rqs[r].fseq.Or(done);
    var d := Detach(q.(rqs := q.rqs[r := q.rqs[r].(fseq := seq')]), r);
    match if ok then seq'.Current() else Done
    case Preflush => JoinPending(d, r, q.queue.At(q.pending) == [])
    case Postflush => JoinPending(d, r, q.queue.At(q.pending) == [])
    case Data => QueueData(d, r)
    case Done => EndSequence(d, r, ok)
  }

  /** blk_flush_complete_seq */
  function CompleteSeq(q: FQ, r: Rid, done: Mask, ok: bool): (q': FQ)
    requires r in q.rqs
    ensures q.rqs.Keys - {r} <= q'.rqs.Keys <= q.rqs.Keys
  {
    KickFlush(Advance(q, r, done, ok))
  }

  /** The loop of flush_end_io, over the requests that waited for the flush. */
  function PushWaiting(q: FQ, waiting: seq<Rid>, ok: bool): FQ
    requires NoDup(waiting) && forall x :: x in waiting ==> x in q.rqs
    decreases |waiting|
  {
    if waiting == [] then q
    else
      var r := waiting[0];
      PushWaiting(CompleteSeq(q, r, BitOf(q.rqs[r].fseq.Current()), ok), waiting[1..], ok)
  }

  /** flush_end_io up to its loop: the flush is over and its queue stops being the running one. */
  function RetireFlush(q: FQ, ok: bool): FQ
    requires q.flushes > 0
  {
    q.(started := q.started - {FlushEntry},
       running := !q.running,
       log := q.log + [FlushEnded(q.flushes - 1, ok)])
  }

  function RunIf(q: FQ, kick: bool): FQ { if kick then q.(log := q.log + [QueueRun]) else q }

  predicate Grew(before: FQ, after: FQ) { |after.head| > |before.head| }

  /** flush_end_io */
  function EndFlush(q: FQ, ok: bool): FQ
    requires q.flushes > 0
    requires NoDup(q.queue.At(q.running)) && forall x :: x in q.queue.At(q.running) ==> x in q.rqs
  {
    var pushed := PushWaiting(RetireFlush(q, ok), q.queue.At(q.running), ok);
    RunIf(pushed, Grew(q, pushed) || q.delayed).(delayed := false)
  }

  /** blk_finish_request on a request whose data is all done; for a sequenced one its end_io is
      flush_data_end_io. */
  function FinishRequest(q: FQ, r: Rid, ok: bool): FQ
    requires r in q.rqs
  {
    var rq := q.rqs[r];
    var f := q.(rqs := q.rqs[r := rq.(fin := |q.log|)],
                started := q.started - {RqEntry(r)},
                log := q.log + [DataFinished(r, rq.fua, rq.uptodate)]);
    if rq.inSeq then
      var c := CompleteSeq(f, r, DATA_BIT, ok);
      RunIf(c, Grew(f, c))
    else
      Release(f.(log := f.log + [BioEnded(r, rq.uptodate)]), r)
  }

  /** A driver completion of `n` bytes of a started request: blk_end_request. */
  function EndData(q: FQ, r: Rid, n: nat, ok: bool): FQ
    requires r in q.rqs
  {
    var rq := UpdateBio(q.rqs[r], n, ok);
    var u := q.(rqs := q.rqs[r := rq]);
    if rq.bio then u else FinishRequest(u, r, ok)
  }

  /** A request as blk_insert_flush first sees it. */
  function Arrival(q: FQ, bytes: nat, flush: bool, fua: bool, dev: Device): FQ {
    var policy := Policy(dev, bytes > 0, flush, fua);
    var rq := Rq(bytes, fua && dev.fua, Mask(false, false, false), policy.pre || policy.post, true, bytes, true,
                 policy, |q.log|, 0, |q.log| + 1, q.now);
    q.(rqs := q.rqs[q.nextId := rq], nextId := q.nextId + 1,
       log := q.log + [Submitted(q.nextId, bytes, flush, fua, dev)])
  }

  /** blk_insert_flush */
  function InsertFlush(q: FQ, bytes: nat, flush: bool, fua: bool, dev: Device): FQ {
    var a := Arrival(q, bytes, flush, fua, dev);
    var r := q.nextId;
    var policy := Policy(dev, bytes > 0, flush, fua);
    if policy == Mask(false, false, false) then
      EndSequence(a, r, true)
    else if policy.data && !policy.pre && !policy.post then
      a.(head := a.head + [RqEntry(r)], log := a.log + [DataQueued(r, a.rqs[r].fua)])
    else
      CompleteSeq(a, r, policy.Not(), true)
  }

  /** __elv_next_request on an elevator that has nothing to dispatch. */
  function Peek(q: FQ, queueable: bool): FQ {
    if q.head == [] && q.pending != q.running && !queueable then q.(delayed := true) else q
  }

  datatype Step =
    | Submit(bytes: nat, flush: bool, fua: bool, dev: Device)
    | Take                                      // the driver dequeues the head of the queue
    | GiveBack(e: Entry)                        // blk_requeue_request
    | FinishData(r: Rid, n: nat, ok: bool)
    | FinishFlush(ok: bool)
    | PeekStep(queueable: bool)
    | Tick(d: nat)

  /** What callers and drivers may do.  A request without data carries FLUSH only. */
  ghost predicate Enabled(q: FQ, s: Step) {
    match s
    case Submit(bytes, _, fua, _) => bytes == 0 ==> !fua
    case Take => q.head != []
    case GiveBack(e) => e in q.started
    case FinishData(r, _, _) => RqEntry(r) in q.started && r in q.rqs
    case FinishFlush(_) =>
      && FlushEntry in q.started && q.flushes > 0
      && NoDup(q.queue.At(q.running)) && (forall x :: x in q.queue.At(q.running) ==> x in q.rqs)
    case PeekStep(_) => true
    case Tick(_) => true
  }

  ghost function Apply(q: FQ, s: Step): FQ
    requires Enabled(q, s)
  {
    match s
    case Submit(bytes, flush, fua, dev) => InsertFlush(q, bytes, flush, fua, dev)
    case Take => q.(head := q.head[1..], started := q.started + {q.head[0]})
    case GiveBack(e) => q.(head := [e] + q.head, started := q.started - {e})
    case FinishData(r, n, ok) => EndData(q, r, n, ok)
    case FinishFlush(ok) => EndFlush(q, ok)
    case PeekStep(queueable) => Peek(q, queueable)
    case Tick(d) => q.(now := q.now + d)
  }

  /** `q'` is reached from `q` by doing `steps` in order, each of them enabled when it is done. */
  ghost predicate Runs(q: FQ, steps: seq<Step>, q': FQ)
    decreases |steps|
  {
    if steps == [] then q == q'
    else Enabled(q, steps[0]) && Runs(Apply(q, steps[0]), steps[1..], q')
  }
}
