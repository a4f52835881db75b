/** One direction of a throttled group (block/blk-throttle.c): the bio list in front of its slice. */
module ThrottleLane {
  import opened Arithmetic
  import opened ThrottleSlice
  import opened ThrottleRate

  datatype Bio = Bio(id: nat, size: nat)

  function Sizes(bios: seq<Bio>): nat {
    if bios == [] then 0 else Sizes(bios[..|bios| - 1]) + bios[|bios| - 1].size
  }

  /**
    * bio_lists, nr_queued and the slice of one direction. The rest is its history: every bio that was
    * submitted and every one that was let through, in order, since the time `born`; `last` is the time
    * of the last charge and `clock` that of the last operation.
    */
  datatype Lane = Lane(cfg: Config, slice: Slice, bios: seq<Bio>, nr: nat,
                       arrived: seq<Bio>, sent: seq<Bio>, born: nat, last: nat, clock: nat)

  function MeterOf(l: Lane): Meter { Meter(l.slice, l.clock, Sizes(l.sent), |l.sent|) }

  /** What was sent is what the slice accounting knows of. */
  ghost predicate Metered(l: Lane) {
    NoRule(l.cfg) || Inv(l.cfg, l.born, l.last, MeterOf(l))
  }

  /** Bios leave in arrival order, each once; what has not left is queued. */
  ghost predicate LaneOk(l: Lane) {
    && Sane(l.cfg) && l.nr == |l.bios| && l.arrived == l.sent + l.bios
    && (NoRule(l.cfg) ==> l.bios == []) && Metered(l)
  }

  /** Whatever was queued and dispatched when, the bytes and bios sent stay below the configured rate. */
  lemma {:induction false} LaneRate(l: Lane)
    requires LaneOk(l) && !NoRule(l.cfg)
    ensures l.born <= l.clock
    ensures Times(Sizes(l.sent), l.cfg.hz) <= Times(l.cfg.bps, l.clock - l.born + l.cfg.slice)
    ensures Times(|l.sent|, l.cfg.hz) <= Times(l.cfg.iops, l.clock - l.born + l.cfg.slice)
  {
    InvBound(l.cfg, l.born, l.last, MeterOf(l));
  }

  /** A lane with nothing in it. */
  lemma {:induction false} FreshLane(c: Config, now: nat)
    requires Sane(c)
    ensures LaneOk(Lane(c, NewSlice(c, now), [], 0, [], [], now, now, now))
  {
    assert Inv(c, now, now, MeterOf(Lane(c, NewSlice(c, now), [], 0, [], [], now, now, now)));
  }

  /** tg_may_dispatch of the first bio. */
  function Verdicts(l: Lane, now: nat): Verdict
    requires Sane(l.cfg) && l.bios != []
  {
    MayDispatch(l.cfg, l.slice, l.bios[0].size, now)
  }

  /** tg_may_dispatch asked about a bio of some size. */
  function Asked(l: Lane, size: nat, now: nat): Lane
    requires Sane(l.cfg)
  {
    l.(slice := AfterCheck(l.cfg, l.slice, size, now), clock := now)
  }

  function Checked(l: Lane, now: nat): Lane
    requires Sane(l.cfg) && l.bios != []
  {
    Asked(l, l.bios[0].size, now)
  }

  /** A bio charged and sent, and the slice trimmed. */
  function Charged(l: Lane, b: Bio, now: nat): Lane
    requires Sane(l.cfg)
  {
    l.(sent := l.sent + [b], slice := Trim(l.cfg, Charge(l.slice, b.size), now), last := now, clock := now)
  }

  /** tg_dispatch_one_bio */
  function Popped(l: Lane, now: nat): Lane
    requires Sane(l.cfg) && l.bios != [] && l.nr > 0
  {
    Charged(l, l.bios[0], now).(bios := l.bios[1..], nr := l.nr - 1)
  }

  /** A bio that passes without being queued. */
  function Passed(l: Lane, b: Bio, now: nat): Lane
    requires Sane(l.cfg)
  {
    Charged(Asked(l, b.size, now), b, now).(arrived := l.arrived + [b])
  }

  /** A bio of a direction without a rule. */
  function Unmetered(l: Lane, b: Bio): Lane { l.(arrived := l.arrived + [b], sent := l.sent + [b]) }

  function Queued(l: Lane, b: Bio): Lane {
    l.(bios := l.bios + [b], nr := l.nr + 1, arrived := l.arrived + [b])
  }

  /** tg_may_dispatch of the first bio, if there is one. */
  function Rechecked(l: Lane, now: nat): Lane
    requires Sane(l.cfg)
  {
    if l.bios == [] then l else Checked(l, now)
  }

  function WaitOf(v: Verdict): nat { if v.Pass? then 0 else v.jiffies }

  // ---- metering ----

  lemma {:induction false} SizesMore(bios: seq<Bio>, b: Bio)
    ensures Sizes(bios + [b]) == Sizes(bios) + b.size
  {
    assert (bios + [b])[..|bios|] == bios;
  }

  lemma {:induction false} AskedMetered(l: Lane, size: nat, now: nat)
    requires Sane(l.cfg) && Metered(l) && l.clock <= now
    ensures Metered(Asked(l, size, now))
  {
    if !NoRule(l.cfg) {
      var m := Do(l.cfg, MeterOf(l), Pause(now - l.clock));
      var last1 := DoInv(l.cfg, l.born, l.last, MeterOf(l), Pause(now - l.clock));
      var last2 := DoInv(l.cfg, l.born, last1, m, Check(size));
      assert MeterOf(Asked(l, size, now)) == Do(l.cfg, m, Check(size));
    }
  }

  lemma {:induction false} ChargedMetered(l: Lane, b: Bio, now: nat)
    requires Sane(l.cfg) && !NoRule(l.cfg) && Metered(l) && l.clock <= now
    requires MayDispatch(l.cfg, l.slice, b.size, now) == Pass
    ensures Metered(Charged(Asked(l, b.size, now), b, now))
  {
    var m := Do(l.cfg, MeterOf(l), Pause(now - l.clock));
    var last1 := DoInv(l.cfg, l.born, l.last, MeterOf(l), Pause(now - l.clock));
    var last2 := DoInv(l.cfg, l.born, last1, m, Try(b.size));
    SizesMore(l.sent, b);
    assert MeterOf(Charged(Asked(l, b.size, now), b, now)) == Do(l.cfg, m, Try(b.size));
  }

  lemma {:induction false} PassedOk(l: Lane, b: Bio, now: nat)
    requires LaneOk(l) && !NoRule(l.cfg) && l.bios == [] && l.clock <= now
    requires MayDispatch(l.cfg, l.slice, b.size, now) == Pass
    ensures LaneOk(Passed(l, b, now))
  {
    ChargedMetered(l, b, now);
    var c := Charged(Asked(l, b.size, now), b, now);
    assert MeterOf(Passed(l, b, now)) == MeterOf(c);
  }

  lemma {:induction false} QueuedOk(l: Lane, b: Bio)
    requires LaneOk(l) && !NoRule(l.cfg)
    ensures LaneOk(Queued(l, b))
  {
    assert l.sent + l.bios + [b] == l.sent + (l.bios + [b]);
    assert MeterOf(Queued(l, b)) == MeterOf(l);
  }

  // ---- asking twice at one time gives one answer ----

  /** A refused bio waits at least one jiffy. */
  lemma {:induction false} WaitPositive(c: Config, s: Slice, size: nat, now: nat)
    requires Sane(c) && MayDispatch(c, s, size, now).Wait?
    ensures MayDispatch(c, s, size, now).jiffies >= 1
  {
  }

  /** The checks look at the start and the charges of a slice, not at its end. */
  lemma {:induction false} ChecksIgnoreEnd(c: Config, s: Slice, s': Slice, size: nat, now: nat)
    requires Sane(c) && s.start <= now && s' == s.(end := s'.end)
    ensures BpsCheck(c, s', size, now) == BpsCheck(c, s, size, now)
    ensures IopsCheck(c, s', now) == IopsCheck(c, s, now)
  {
  }

  lemma {:induction false} AfterCheckShape(c: Config, s: Slice, size: nat, now: nat)
    requires Sane(c) && !NoRule(c)
    ensures AfterCheck(c, s, size, now) == Renewed(c, s, now).(end := AfterCheck(c, s, size, now).end)
    ensures AfterCheck(c, s, size, now).end >= now + c.slice
  {
    var r := Renewed(c, s, now);
    match MayDispatch(c, s, size, now)
    case Pass =>
    case Wait(w) => RoundUpAtLeast(now + w, c.slice);
  }

  /** Asked again at the same time about the same bio, tg_may_dispatch answers the same. */
  lemma {:induction false} CheckTwice(c: Config, s: Slice, size: nat, now: nat)
    requires Sane(c)
    ensures MayDispatch(c, AfterCheck(c, s, size, now), size, now) == MayDispatch(c, s, size, now)
  {
    if !NoRule(c) {
      var r, a := Renewed(c, s, now), AfterCheck(c, s, size, now);
      AfterCheckShape(c, s, size, now);
      assert Renewed(c, a, now) == a;
      ChecksIgnoreEnd(c, r, a, size, now);
    }
  }

  // ---- emptying one direction ----

  ghost predicate Refused(l: Lane, now: nat)
    requires Sane(l.cfg)
  {
    l.bios != [] && Verdicts(l, now).Wait?
  }

  lemma {:induction false} PopOk(l: Lane, now: nat)
    requires LaneOk(l) && l.bios != [] && l.clock <= now && Verdicts(l, now) == Pass
    ensures LaneOk(Popped(Checked(l, now), now))
  {
    ChargedMetered(l, l.bios[0], now);
    assert l.bios == [l.bios[0]] + l.bios[1..];
    assert l.sent + l.bios == l.sent + [l.bios[0]] + l.bios[1..];
    var p := Popped(Checked(l, now), now);
    assert MeterOf(p) == MeterOf(Charged(Asked(l, l.bios[0].size, now), l.bios[0], now));
  }

  lemma {:induction false} CheckedOk(l: Lane, now: nat)
    requires LaneOk(l) && l.bios != [] && l.clock <= now
    ensures LaneOk(Checked(l, now)) && Verdicts(Checked(l, now), now) == Verdicts(l, now)
  {
    AskedMetered(l, l.bios[0].size, now);
    CheckTwice(l.cfg, l.slice, l.bios[0].size, now);
  }

  /** What one loop of throtl_dispatch_tg leaves: bios pass from the front while they may, at most `max`. */
  function Emptied(l: Lane, now: nat, max: nat): Lane
    requires Sane(l.cfg) && l.nr == |l.bios|
    decreases max
  {
    if l.bios == [] || max == 0 then l
    else if Verdicts(l, now).Wait? then Checked(l, now)
    else Emptied(Popped(Checked(l, now), now), now, max - 1)
  }

  /** The loop ends with the list, with the `max`-th bio, or with a bio that must wait; never sooner. */
  lemma {:induction false} EmptiedStops(l: Lane, now: nat, max: nat)
    requires LaneOk(l) && l.clock <= now
    ensures var e := Emptied(l, now, max);
            && LaneOk(e) && |e.bios| <= |l.bios| <= |e.bios| + max
            && (e.bios == [] || |l.bios| == |e.bios| + max || Refused(e, now))
    decreases max
  {
    if l.bios != [] && max != 0 {
      CheckedOk(l, now);
      if Verdicts(l, now) == Pass {
        PopOk(l, now);
        EmptiedStops(Popped(Checked(l, now), now), now, max - 1);
      }
    }
  }

  /** Where the loop stands. */
  ghost predicate Emptying(l0: Lane, l: Lane, out: seq<Bio>, now: nat, max: nat) {
    && LaneOk(l0) && LaneOk(l) && l.clock <= now && |out| <= max && Gone(l0, l, out)
    && (out == [] ==> l == l0) && SameEnd(l0, max, l, max - |out|, now)
  }

  lemma {:induction false} EmptyingStep(l0: Lane, l: Lane, l': Lane, out: seq<Bio>, now: nat, max: nat, pass: bool)
    requires Emptying(l0, l, out, now, max) && l.bios != [] && |out| < max
    requires LaneOk(l') && l'.clock <= now && (pass <==> Verdicts(l, now) == Pass)
    requires l' == if pass then Popped(Checked(l, now), now) else Checked(l, now)
    ensures pass ==> Emptying(l0, l', out + [l.bios[0]], now, max) && |l'.bios| < |l.bios|
    ensures !pass ==> l' == Emptied(l0, now, max) && Gone(l0, l', out) && (out == [] ==> l == l0)
  {
    SameEndStep(l0, max, l, max - |out|, l', pass, now);
    if pass {
      assert l.bios == [l.bios[0]] + l'.bios;
    }
    GoneMore(l0, l, l', out, pass);
  }

  /** `out` has gone from the front of the list into the history. */
  ghost predicate Gone(l0: Lane, l: Lane, out: seq<Bio>) {
    && l.cfg == l0.cfg && l.arrived == l0.arrived
    && l.sent == l0.sent + out && l0.bios == out + l.bios
  }

  lemma {:induction false} GoneMore(l0: Lane, l: Lane, l': Lane, out: seq<Bio>, pass: bool)
    requires Gone(l0, l, out) && l'.cfg == l.cfg && l'.arrived == l.arrived && l.bios != []
    requires pass ==> l'.sent == l.sent + [l.bios[0]] && l.bios == [l.bios[0]] + l'.bios
    requires !pass ==> l'.sent == l.sent && l'.bios == l.bios
    ensures Gone(l0, l', if pass then out + [l.bios[0]] else out)
  {
    if pass {
      assert out + l.bios == out + [l.bios[0]] + l'.bios;
    }
  }

  ghost predicate Counted(l: Lane) { Sane(l.cfg) && l.nr == |l.bios| }

  /** Both runs of the loop end alike. */
  ghost predicate SameEnd(l: Lane, k: nat, l': Lane, k': nat, now: nat)
    requires Counted(l) && Counted(l')
  {
    Emptied(l, now, k) == Emptied(l', now, k')
  }

  lemma {:induction false} SameEndStep(l0: Lane, k0: nat, l: Lane, k: nat, l': Lane, pass: bool, now: nat)
    requires Counted(l0) && Counted(l) && Counted(l') && l.bios != [] && k > 0 && SameEnd(l0, k0, l, k, now)
    requires pass <==> Verdicts(l, now) == Pass
    requires l' == if pass then Popped(Checked(l, now), now) else Checked(l, now)
    ensures pass ==> SameEnd(l0, k0, l', k - 1, now)
    ensures !pass ==> l' == Emptied(l0, now, k0)
  {
  }
}
