/**
  * Changing the I/O scheduler of a live queue (block/elevator.c) while requests are allocated and freed
  * (block/blk-core.c). Each step is one section under the queue lock, or the code between two of them.
  */
module ElevatorSwitch {

  type Id = nat
  type Task = nat
  type Elevator = nat

  /** How far elevator_switch has come. */
  datatype Phase =
    | Idle
    | Draining(next: Elevator)     // QUEUE_FLAG_ELVSWITCH is set
    | Swapped(prev: Elevator)      // the new elevator is attached
    | Failing(back: Elevator)      // it could not be registered and has been exited
    | Closing                      // only the flag is left to clear

  datatype Where = Sort | Back | Front | Flush

  datatype Queue = Queue(
    elevator: Elevator,
    switching: bool,               // QUEUE_FLAG_ELVSWITCH
    phase: Phase,
    elvpriv: int,
    countedPriv: set<Task>,        // tasks that counted a private request and have not set it up
    countedPlain: set<Task>,
    priv: set<Id>,                 // requests with REQ_ELVPRIV
    plain: set<Id>,
    setter: map<Id, Elevator>,     // the elevator whose set_req_fn ran
    inserted: set<Id>,
    soft: set<Id>,                 // REQ_SOFTBARRIER
    sorted: map<Id, Elevator>,     // requests in an elevator's sort structures
    queued: set<Id>,               // on the dispatch queue
    exited: set<Elevator>)

  datatype Step =
    | Offer(merges: bool)          // elv_merge for a new bio, unless the queue does not merge
    | OfferPlugged(r: Id)          // elv_try_merge with a request on the submitter's own list, without the lock
    | Count(t: Task, flush: bool)  // get_request, first half
    | SetUp(t: Task, r: Id)        // blk_alloc_request, the lock dropped
    | AllocFails(t: Task)
    | Insert(r: Id, to: Where)     // __elv_add_request
    | Requeue(r: Id)
    | Poll                         // __elv_next_request finds nothing, neither queued nor in the elevator
    | Dispatch(r: Id)              // from the elevator to the dispatch queue
    | MergeAway(r: Id)             // out of the elevator, about to be freed
    | Take(r: Id)                  // the driver starts it
    | Put(r: Id)                   // __blk_put_request
    | SwitchStart(next: Elevator)
    | SwitchWait
    | Attach
    | RegisterFails
    | Restore
    | ExitOld
    | Clear

  predicate Live(s: Queue, r: Id) { r in s.priv || r in s.plain }

  predicate Held(s: Queue, r: Id) { r in s.sorted || r in s.queued }

  /** elv_drain_elevator */
  function Drain(s: Queue): Queue { s.(queued := s.queued + s.sorted.Keys, sorted := map[]) }

  /** Where __elv_add_request really puts the request. */
  function Target(s: Queue, r: Id, to: Where): Where {
    if r !in s.soft && r !in s.priv && to == Sort then Back else to
  }

  ghost predicate Enabled(s: Queue, step: Step) {
    match step
    case Offer(_) => true
    case OfferPlugged(r) => Live(s, r) && r !in s.inserted
    case Count(t, _) => t !in s.countedPriv && t !in s.countedPlain
    case SetUp(t, r) => (t in s.countedPriv || t in s.countedPlain) && !Live(s, r) && r !in s.inserted
    case AllocFails(t) => t in s.countedPriv || t in s.countedPlain
    case Insert(r, _) => Live(s, r) && r !in s.inserted
    case Requeue(r) => Live(s, r) && r in s.inserted && !Held(s, r)
    case Poll => s.queued == {}
    case Dispatch(r) => r in s.sorted
    case MergeAway(r) => r in s.sorted
    case Take(r) => r in s.queued
    case Put(r) => Live(s, r) && !Held(s, r)
    case SwitchStart(e) => s.phase == Idle && e != s.elevator && e !in s.exited
    case SwitchWait => s.phase.Draining? && s.elvpriv != 0
    case Attach => s.phase.Draining? && s.elvpriv == 0
    case RegisterFails => s.phase.Swapped?
    case Restore => s.phase.Failing?
    case ExitOld => s.phase.Swapped?
    case Clear => s.phase == Closing
  }

  function AfterCount(s: Queue, t: Task, flush: bool): Queue {
    if !flush && !s.switching then s.(countedPriv := s.countedPriv + {t}, elvpriv := s.elvpriv + 1)
    else s.(countedPlain := s.countedPlain + {t})
  }

  function AfterSetUp(s: Queue, t: Task, r: Id): Queue {
    if t in s.countedPriv then
      s.(countedPriv := s.countedPriv - {t}, priv := s.priv + {r}, setter := s.setter[r := s.elevator])
    else
      s.(countedPlain := s.countedPlain - {t}, plain := s.plain + {r})
  }

  function AfterAllocFails(s: Queue, t: Task): Queue {
    if t in s.countedPriv then s.(countedPriv := s.countedPriv - {t}, elvpriv := s.elvpriv - 1)
    else s.(countedPlain := s.countedPlain - {t})
  }

  function AfterInsert(s: Queue, r: Id, to: Where): Queue {
    var i := s.(inserted := s.inserted + {r});
    match Target(s, r, to)
    case Sort => i.(sorted := s.sorted[r := s.elevator])
    case Back => (var d := Drain(i); d.(soft := d.soft + {r}, queued := d.queued + {r}))
    case Front => i.(soft := i.soft + {r}, queued := i.queued + {r})
    case Flush => i.(soft := i.soft + {r}, queued := i.queued + {r})
  }

  function AfterPut(s: Queue, r: Id): Queue {
    if r in s.priv then
      s.(priv := s.priv - {r}, elvpriv := s.elvpriv - 1, inserted := s.inserted - {r}, soft := s.soft - {r})
    else
      s.(plain := s.plain - {r}, inserted := s.inserted - {r}, soft := s.soft - {r})
  }

  ghost function Apply(s: Queue, step: Step): Queue
    requires Enabled(s, step)
  {
    match step
    case Offer(_) => s
    case OfferPlugged(_) => s
    case Count(t, flush) => AfterCount(s, t, flush)
    case SetUp(t, r) => AfterSetUp(s, t, r)
    case AllocFails(t) => AfterAllocFails(s, t)
    case Insert(r, to) => AfterInsert(s, r, to)
    case Requeue(r) => s.(soft := s.soft + {r}, queued := s.queued + {r})
    case Poll => s
    case Dispatch(r) => s.(sorted := s.sorted - {r}, queued := s.queued + {r})
    case MergeAway(r) => s.(sorted := s.sorted - {r})
    case Take(r) => s.(queued := s.queued - {r})
    case Put(r) => AfterPut(s, r)
    case SwitchStart(e) => Drain(s.(switching := true, phase := Draining(e)))
    case SwitchWait => Drain(s)
    case Attach => s.(phase := Swapped(s.elevator), elevator := s.phase.next)
    case RegisterFails => s.(phase := Failing(s.phase.prev), exited := s.exited + {s.elevator})
    case Restore => s.(phase := Closing, elevator := s.phase.back)
    case ExitOld => s.(phase := Closing, exited := s.exited + {s.phase.prev})
    case Clear => s.(phase := Idle, switching := false)
  }

  // ---- what holds between steps ----

  ghost predicate Requests(s: Queue) {
    && s.countedPriv !! s.countedPlain && s.priv !! s.plain
    && s.elvpriv == |s.countedPriv| + |s.priv|
    && (forall r :: r in s.priv ==> r in s.setter && s.setter[r] == s.elevator)
    && (forall r :: r in s.sorted ==> r in s.priv && s.sorted[r] == s.elevator)
    && (forall r :: r in s.soft ==> r in s.inserted)
    && (forall r :: r in s.queued || r in s.sorted ==> r in s.inserted)
    && (forall r :: r in s.inserted ==> Live(s, r))
  }

  ghost predicate Switch(s: Queue) {
    && (s.switching <==> s.phase != Idle)
    && (s.phase.Swapped? || s.phase.Failing? || s.phase == Closing ==> s.elvpriv == 0)
    && (s.elevator in s.exited <==> s.phase.Failing?)
    && (s.phase.Draining? ==> s.phase.next != s.elevator && s.phase.next !in s.exited)
    && (s.phase.Swapped? ==> s.phase.prev != s.elevator && s.phase.prev !in s.exited)
    && (s.phase.Failing? ==> s.phase.back != s.elevator && s.phase.back !in s.exited)
  }

  ghost predicate Inv(s: Queue) { Requests(s) && Switch(s) }

  ghost predicate Init(s: Queue) {
    && s == Queue(s.elevator, false, Idle, 0, {}, {}, {}, {}, map[], {}, {}, map[], {}, {})
  }

  /** With elvpriv zero no request has private data and no sort structure holds any. */
  lemma {:induction false} NonePrivate(s: Queue)
    requires Requests(s) && s.elvpriv == 0
    ensures s.priv == {} && s.countedPriv == {} && s.sorted == map[]
  {
    assert s.priv == {} && s.countedPriv == {};
    assert forall r :: r !in s.sorted;
  }

  lemma {:induction false} CountKeeps(s: Queue, t: Task, flush: bool)
    requires Inv(s) && Enabled(s, Count(t, flush))
    ensures Inv(Apply(s, Count(t, flush)))
  {
  }

  lemma {:induction false} SetUpKeeps(s: Queue, t: Task, r: Id)
    requires Inv(s) && Enabled(s, SetUp(t, r))
    ensures Inv(Apply(s, SetUp(t, r)))
  {
  }

  lemma {:induction false} AllocFailsKeeps(s: Queue, t: Task)
    requires Inv(s) && Enabled(s, AllocFails(t))
    ensures Inv(Apply(s, AllocFails(t)))
  {
    if s.elvpriv == 0 {
      NonePrivate(s);
    }
  }

  lemma {:induction false} InsertKeeps(s: Queue, r: Id, to: Where)
    requires Inv(s) && Enabled(s, Insert(r, to))
    ensures Inv(Apply(s, Insert(r, to)))
  {
  }

  lemma {:induction false} MoveKeeps(s: Queue, step: Step)
    requires Inv(s) && Enabled(s, step)
    requires step.Requeue? || step.Dispatch? || step.MergeAway? || step.Take? || step.Put?
    ensures Inv(Apply(s, step))
  {
    if s.elvpriv == 0 {
      NonePrivate(s);
    }
  }

  lemma {:induction false} SwitchKeeps(s: Queue, step: Step)
    requires Inv(s) && Enabled(s, step)
    requires step.SwitchStart? || step.SwitchWait? || step.Attach? || step.RegisterFails? || step.Restore?
          || step.ExitOld? || step.Clear?
    ensures Inv(Apply(s, step))
  {
    if s.elvpriv == 0 {
      NonePrivate(s);
    }
  }

  lemma {:induction false} StepKeeps(s: Queue, step: Step)
    requires Inv(s) && Enabled(s, step)
    ensures Inv(Apply(s, step))
  {
    match step
    case Count(t, flush) => CountKeeps(s, t, flush);
    case SetUp(t, r) => SetUpKeeps(s, t, r);
    case AllocFails(t) => AllocFailsKeeps(s, t);
    case Insert(r, to) => InsertKeeps(s, r, to);
    case Requeue(_) => MoveKeeps(s, step);
    case Dispatch(_) => MoveKeeps(s, step);
    case MergeAway(_) => MoveKeeps(s, step);
    case Take(_) => MoveKeeps(s, step);
    case Put(_) => MoveKeeps(s, step);
    case Poll =>
    case Offer(_) =>
    case OfferPlugged(_) =>
    case _ => SwitchKeeps(s, step);
  }

  // ---- safety of every run ----

  /** The request's private data is the current elevator's, which is still in place. */
  ghost predicate Owned(s: Queue, r: Id) {
    r in s.priv && r in s.setter && s.setter[r] == s.elevator && s.elevator !in s.exited
  }

  /** Everything in the elevator has gone to the dispatch queue, or nothing has. */
  ghost predicate Drained(s: Queue, step: Step, all: bool)
    requires Enabled(s, step)
  {
    forall r :: r in s.sorted ==>
      if all then r !in Apply(s, step).sorted && r in Apply(s, step).queued else r in Apply(s, step).sorted
  }

  /** What must hold of a step where it happens. */
  ghost predicate Safe(s: Queue, step: Step)
    requires Enabled(s, step)
  {
    match step
    // put_req_fn of the elevator that set the request up, still in place
    case Put(r) => r in s.priv ==> Owned(s, r)
    // set_req_fn of an elevator that has not been exited
    case SetUp(t, _) => t in s.countedPriv ==> s.elevator !in s.exited
    // private data is counted for every request but a flush, unless a switch is under way
    case Count(t, flush) => t in Apply(s, step).countedPriv <==> !flush && !s.switching
    // only requests with private data of this elevator enter its sort structures
    case Insert(r, to) =>
      (r in Apply(s, step).sorted ==> Owned(s, r))
      && (Target(s, r, to) == Sort <==> to == Sort && r in s.priv)
      && Drained(s, step, Target(s, r, to) == Back)
      && (r in Apply(s, step).soft <==> Target(s, r, to) != Sort)
    case Requeue(r) => r in Apply(s, step).soft
    case SwitchStart(_) => Drained(s, step, true)
    case SwitchWait => Drained(s, step, true)
    // an elevator is exited once, and only when it holds no request and no request holds its data
    case ExitOld => s.phase.prev !in s.exited && s.sorted == map[] && s.priv == {} && s.countedPriv == {}
    case RegisterFails => s.elevator !in s.exited && s.sorted == map[] && s.priv == {} && s.countedPriv == {}
    case _ => true
  }

  lemma {:induction false} StepSafe(s: Queue, step: Step)
    requires Inv(s) && Enabled(s, step)
    ensures Safe(s, step)
  {
    if s.elvpriv == 0 {
      NonePrivate(s);
    }
  }

  /** A request in the elevator or on the dispatch queue leaves them only by being taken or merged away. */
  lemma {:induction false} NothingLost(s: Queue, step: Step, r: Id)
    requires Inv(s) && Enabled(s, step) && Held(s, r)
    ensures Held(Apply(s, step), r) || step == Take(r) || step == MergeAway(r)
    ensures step == Take(r) ==> r !in Apply(s, step).queued
  {
  }

  ghost predicate Runs(s: Queue, steps: seq<Step>)
    decreases |steps|
  {
    steps == [] || (Enabled(s, steps[0]) && Runs(Apply(s, steps[0]), steps[1..]))
  }

  ghost predicate AllSafe(s: Queue, steps: seq<Step>)
    requires Runs(s, steps)
    decreases |steps|
  {
    steps == [] || (Safe(s, steps[0]) && AllSafe(Apply(s, steps[0]), steps[1..]))
  }

  lemma {:induction false} RunSafe(s: Queue, steps: seq<Step>)
    requires Inv(s) && Runs(s, steps)
    ensures AllSafe(s, steps)
    decreases |steps|
  {
    if steps != [] {
      StepSafe(s, steps[0]);
      StepKeeps(s, steps[0]);
      RunSafe(Apply(s, steps[0]), steps[1..]);
    }
  }

  /** Every interleaving of allocation, insertion, freeing and switching is safe. */
  lemma {:induction false} EveryRunSafe(s: Queue, steps: seq<Step>)
    requires Init(s) && Runs(s, steps)
    ensures AllSafe(s, steps)
  {
    RunSafe(s, steps);
  }

  // ---- which elevator is called ----

  /** The step calls into q->elevator->ops. */
  ghost predicate Calls(s: Queue, step: Step)
    requires Enabled(s, step)
  {
    match step
    case Offer(merges) => merges                         // merge_fn, allow_merge_fn and what follows a merge
    case OfferPlugged(_) => true                         // allow_merge_fn, bio_merged_fn
    case Count(_, _) => true                             // may_queue_fn
    case SetUp(t, _) => t in s.countedPriv               // set_req_fn
    case AllocFails(t) => t in s.countedPriv
    case Insert(r, to) => Target(s, r, to) == Sort || Target(s, r, to) == Back    // add_req_fn, the drain
    case Poll => true                                    // dispatch_fn
    case Dispatch(_) => true
    case MergeAway(_) => true                            // merge_req_fn
    case Requeue(r) => r in s.priv                       // deactivate_req_fn
    case Take(r) => r in s.priv                          // activate_req_fn
    case Put(r) => r in s.priv                           // put_req_fn, completed_req_fn
    case SwitchStart(_) => true                          // the drain
    case SwitchWait => true
    case _ => false
  }

  /** No call goes to an elevator that has been exited. */
  ghost predicate CallsLive(s: Queue, step: Step)
    requires Enabled(s, step)
  {
    Calls(s, step) ==> s.elevator !in s.exited
  }

  /** The calls that need no private data: a bio offered for merging, an allocation, a look for work, and an
      insertion at the back. */
  ghost predicate Open(s: Queue, step: Step) {
    || step == Offer(true) || step.OfferPlugged? || step.Count? || step.Poll?
    || (step.Insert? && Target(s, step.r, step.to) == Back)
  }

  /** While the new elevator is exited and the old one not yet back, exactly those still call. */
  lemma {:induction false} CallsWhileFailing(s: Queue, step: Step)
    requires Inv(s) && Enabled(s, step)
    ensures s.phase.Failing? ==> (Calls(s, step) <==> Open(s, step))
    ensures CallsLive(s, step) <==> !(s.phase.Failing? && Open(s, step))
  {
    if s.phase.Failing? {
      NonePrivate(s);
    }
  }

  ghost predicate EveryCallLive(s: Queue, steps: seq<Step>)
    requires Runs(s, steps)
    decreases |steps|
  {
    steps == [] || (CallsLive(s, steps[0]) && EveryCallLive(Apply(s, steps[0]), steps[1..]))
  }

  ghost predicate NoCallWhileFailing(s: Queue, steps: seq<Step>)
    requires Runs(s, steps)
    decreases |steps|
  {
    steps == [] ||
    (!(s.phase.Failing? && Calls(s, steps[0])) && NoCallWhileFailing(Apply(s, steps[0]), steps[1..]))
  }

  lemma {:induction false} RunCallsIff(s: Queue, steps: seq<Step>)
    requires Inv(s) && Runs(s, steps)
    ensures EveryCallLive(s, steps) <==> NoCallWhileFailing(s, steps)
    decreases |steps|
  {
    if steps != [] {
      CallsWhileFailing(s, steps[0]);
      StepKeeps(s, steps[0]);
      RunCallsIff(Apply(s, steps[0]), steps[1..]);
    }
  }

  /** A run never calls into an exited elevator exactly when it makes no call between a failed registration
      and the return of the old elevator. */
  lemma {:induction false} EveryCallLiveIff(s: Queue, steps: seq<Step>)
    requires Init(s) && Runs(s, steps)
    ensures EveryCallLive(s, steps) <==> NoCallWhileFailing(s, steps)
  {
    RunCallsIff(s, steps);
  }

  lemma {:induction false} NeverFailing(s: Queue, steps: seq<Step>)
    requires Runs(s, steps) && !s.phase.Failing? && RegisterFails !in steps
    ensures NoCallWhileFailing(s, steps)
    decreases |steps|
  {
    if steps != [] {
      assert steps[0] in steps;
      NeverFailing(Apply(s, steps[0]), steps[1..]);
    }
  }

  /** In particular, as long as every new elevator can be registered. */
  lemma {:induction false} RegisteredCallsLive(s: Queue, steps: seq<Step>)
    requires Init(s) && Runs(s, steps) && RegisterFails !in steps
    ensures EveryCallLive(s, steps)
  {
    NeverFailing(s, steps);
    RunCallsIff(s, steps);
  }

  ghost function After(s: Queue, steps: seq<Step>): Queue
    requires Runs(s, steps)
    decreases |steps|
  {
    if steps == [] then s else After(Apply(s, steps[0]), steps[1..])
  }

  /** A step whose calls are live, and then a run whose calls are. */
  lemma {:induction false} GoesLive(s: Queue, step: Step, j: Queue, rest: seq<Step>)
    requires Enabled(s, step) && j == Apply(s, step) && CallsLive(s, step)
    requires Runs(j, rest) && EveryCallLive(j, rest)
    ensures Runs(s, [step] + rest) && EveryCallLive(s, [step] + rest) && After(s, [step] + rest) == After(j, rest)
  {
    assert ([step] + rest)[1..] == rest;
  }

  /** A request is allocated during a switch to `e`, which then cannot be registered. */
  ghost function FailedSwitch(e: Elevator, t: Task, r: Id): seq<Step> {
    [SwitchStart(e)] + ([Count(t, false)] + ([SetUp(t, r)] + ([Attach] + ([RegisterFails] + []))))
  }

  /** In such a run every call so far is live, and the insertion of that request into the sort structures
      drains the elevator that elevator_exit has just taken the operations of. */
  lemma {:induction false} DrainsExited(s: Queue, e: Elevator, t: Task, r: Id)
    requires Init(s) && e != s.elevator
    ensures Runs(s, FailedSwitch(e, t, r)) && EveryCallLive(s, FailedSwitch(e, t, r))
    ensures var q := After(s, FailedSwitch(e, t, r));
            Enabled(q, Insert(r, Sort)) && Target(q, r, Sort) == Back && !CallsLive(q, Insert(r, Sort))
  {
    var s1 := Apply(s, SwitchStart(e));
    var s2 := Apply(s1, Count(t, false));
    var s3 := Apply(s2, SetUp(t, r));
    var s4 := Apply(s3, Attach);
    var s5 := Apply(s4, RegisterFails);
    GoesLive(s4, RegisterFails, s5, []);
    GoesLive(s3, Attach, s4, [RegisterFails] + []);
    GoesLive(s2, SetUp(t, r), s3, [Attach] + ([RegisterFails] + []));
    GoesLive(s1, Count(t, false), s2, [SetUp(t, r)] + ([Attach] + ([RegisterFails] + [])));
    GoesLive(s, SwitchStart(e), s1, [Count(t, false)] + ([SetUp(t, r)] + ([Attach] + ([RegisterFails] + []))));
    assert After(s, FailedSwitch(e, t, r)) == s5;
  }

  // ---- why get_request asks for the flag under the lock ----

  /** While a switch waits no task can count another private request, so elvpriv only falls. */
  lemma {:induction false} WaitOnlyFalls(s: Queue, step: Step)
    requires Inv(s) && Enabled(s, step) && s.switching && step != Clear
    ensures Apply(s, step).elvpriv <= s.elvpriv
    ensures Apply(s, step).switching
  {
  }

  /** While any private request is counted or live the elevator does not change. */
  lemma {:induction false} ElevatorStays(s: Queue, step: Step)
    requires Inv(s) && Enabled(s, step) && s.elvpriv != 0
    ensures Apply(s, step).elevator == s.elevator && Apply(s, step).exited == s.exited
  {
  }
}
