/** The long-run rate a throttled direction keeps, and what the promised waits are worth. */
module ThrottleRate {
  import opened Arithmetic
  import opened ThrottleSlice

  /** What can happen to one direction of a group whose limits stay as they are. */
  datatype Op =
    | Try(size: nat)       // a bio is offered; if it is within the limits it is charged and sent
    | Check(size: nat)     // tg_update_disptime asks only
    | Pause(jiffies: nat)

  /** `bytes` and `ios` count everything ever charged. */
  datatype Meter = Meter(slice: Slice, now: nat, bytes: nat, ios: nat)

  function Do(c: Config, m: Meter, op: Op): Meter
    requires Sane(c)
  {
    match op
    case Pause(d) => m.(now := m.now + d)
    case Check(size) => m.(slice := AfterCheck(c, m.slice, size, m.now))
    case Try(size) =>
      var s := AfterCheck(c, m.slice, size, m.now);
      if MayDispatch(c, m.slice, size, m.now).Wait? then m.(slice := s)
      else m.(slice := Trim(c, Charge(s, size), m.now), bytes := m.bytes + size, ios := m.ios + 1)
  }

  function Run(c: Config, m: Meter, ops: seq<Op>): Meter
    requires Sane(c)
    decreases |ops|
  {
    if ops == [] then m else Run(c, Do(c, m, ops[0]), ops[1..])
  }

  /** The account of one quantity with rate `rate`: `total` charged since `s0`, of which `disp` in
      the current slice; `last` is a time no charge came after. */
  ghost predicate Account(c: Config, rate: nat, s0: nat, start: nat, last: nat, total: nat, disp: nat)
  {
    && disp <= total && s0 <= start && s0 <= last
    && Times(total - disp, c.hz) <= Times(rate, start - s0)
    && Times(total, c.hz) <= Times(rate, last - s0 + c.slice)
  }

  ghost predicate Inv(c: Config, s0: nat, last: nat, m: Meter) {
    && m.slice.start <= m.now && last <= m.now && last + c.slice <= m.slice.end
    && m.slice.start <= m.slice.end                  // BUG_ON in throtl_trim_slice
    && Account(c, c.bps, s0, m.slice.start, last, m.bytes, m.slice.bytes)
    && Account(c, c.iops, s0, m.slice.start, last, m.ios, m.slice.ios)
  }

  // ---- one quantity ----

  /** A slice that starts late enough forgets what was charged, and may. */
  lemma {:induction false} AccountRestart(c: Config, rate: nat, s0: nat, start: nat, last: nat, total: nat,
                                          disp: nat, now: nat)
    requires Account(c, rate, s0, start, last, total, disp) && last + c.slice <= now
    ensures Account(c, rate, s0, now, last, total, 0)
  {
    TimesMono(last - s0 + c.slice, now - s0, rate);
  }

  lemma {:induction false} AccountCharge(c: Config, rate: nat, s0: nat, start: nat, last: nat, total: nat, disp: nat,
                      size: nat, now: nat, rounded: nat)
    requires Sane(c) && Account(c, rate, s0, start, last, total, disp) && start <= now
    requires rounded <= now - start + c.slice && disp + size <= Div(Times(rate, rounded), c.hz)
    ensures Account(c, rate, s0, start, now, total + size, disp + size)
  {
    TimesMono(disp + size, Div(Times(rate, rounded), c.hz), c.hz);
    TimesMono(rounded, now - start + c.slice, rate);
    TimesAdd(total - disp, disp + size, c.hz);
    TimesAdd(start - s0, now - start + c.slice, rate);
    assert (start - s0) + (now - start + c.slice) == now - s0 + c.slice;
    assert (total - disp) + (disp + size) == total + size;
  }

  lemma {:induction false} AccountTrim(c: Config, rate: nat, s0: nat, start: nat, last: nat, total: nat,
                                       disp: nat, ticks: nat)
    requires Sane(c) && Account(c, rate, s0, start, last, total, disp)
    ensures Account(c, rate, s0, start + ticks, last, total, Minus(disp, Div(Times(rate, ticks), c.hz)))
  {
    var trim := Div(Times(rate, ticks), c.hz);
    var disp' := Minus(disp, trim);
    TimesMono(disp - disp', trim, c.hz);
    TimesAdd(total - disp, disp - disp', c.hz);
    TimesAdd(start - s0, ticks, rate);
    assert (total - disp) + (disp - disp') == total - disp';
    assert (start - s0) + ticks == start + ticks - s0;
  }

  // ---- the operations ----

  lemma {:induction false} SetEndKeeps(c: Config, s: Slice, until: nat)
    requires Sane(c)
    ensures until <= SetEnd(c, s, until).end
  {
    RoundUpAtLeast(until, c.slice);
  }

  lemma {:induction false} RenewedInv(c: Config, s0: nat, last: nat, m: Meter)
    requires Sane(c) && Inv(c, s0, last, m)
    ensures Inv(c, s0, last, m.(slice := Renewed(c, m.slice, m.now)))
  {
    var s := m.slice;
    if Used(s, m.now) {
      AccountRestart(c, c.bps, s0, s.start, last, m.bytes, s.bytes, m.now);
      AccountRestart(c, c.iops, s0, s.start, last, m.ios, s.ios, m.now);
    }
  }

  lemma {:induction false} AfterCheckInv(c: Config, s0: nat, last: nat, m: Meter, size: nat)
    requires Sane(c) && Inv(c, s0, last, m)
    ensures Inv(c, s0, last, m.(slice := AfterCheck(c, m.slice, size, m.now)))
  {
    if !NoRule(c) {
      RenewedInv(c, s0, last, m);
      match MayDispatch(c, m.slice, size, m.now)
      case Pass =>
      case Wait(w) => SetEndKeeps(c, Renewed(c, m.slice, m.now), m.now + w);
    }
  }

  lemma {:induction false} TrimInv(c: Config, s0: nat, m: Meter)
    requires Sane(c) && Inv(c, s0, m.now, m)
    ensures Inv(c, s0, m.now, m.(slice := Trim(c, m.slice, m.now)))
  {
    var s := m.slice;
    SetEndKeeps(c, s, m.now + c.slice);
    var ticks := Times(c.slice, Div(m.now - s.start, c.slice));
    AccountTrim(c, c.bps, s0, s.start, m.now, m.bytes, s.bytes, ticks);
    AccountTrim(c, c.iops, s0, s.start, m.now, m.ios, s.ios, ticks);
    assert ticks == Times(Div(m.now - s.start, c.slice), c.slice);
  }

  lemma {:induction false} DoInv(c: Config, s0: nat, last: nat, m: Meter, op: Op) returns (last': nat)
    requires Sane(c) && !NoRule(c) && Inv(c, s0, last, m)
    ensures Inv(c, s0, last', Do(c, m, op))
    ensures last' == if op.Try? && MayDispatch(c, m.slice, op.size, m.now) == Pass then m.now else last
  {
    last' := last;
    match op
    case Pause(d) =>
    case Check(size) => AfterCheckInv(c, s0, last, m, size);
    case Try(size) =>
      AfterCheckInv(c, s0, last, m, size);
      if MayDispatch(c, m.slice, size, m.now).Pass? {
        last' := m.now;
        var s := AfterCheck(c, m.slice, size, m.now);
        var rounded := Rounded(c, s, m.now);
        AccountCharge(c, c.bps, s0, s.start, last, m.bytes, s.bytes, size, m.now, rounded);
        AccountCharge(c, c.iops, s0, s.start, last, m.ios, s.ios, 1, m.now, rounded);
        TrimInv(c, s0, m.(slice := Charge(s, size), bytes := m.bytes + size, ios := m.ios + 1));
      }
  }

  lemma {:induction false} RunInv(c: Config, s0: nat, last: nat, m: Meter, ops: seq<Op>) returns (last': nat)
    requires Sane(c) && !NoRule(c) && Inv(c, s0, last, m)
    ensures Inv(c, s0, last', Run(c, m, ops))
    decreases |ops|
  {
    if ops == [] {
      last' := last;
    } else {
      var l := DoInv(c, s0, last, m, ops[0]);
      last' := RunInv(c, s0, l, Do(c, m, ops[0]), ops[1..]);
    }
  }

  /** From the start `s0` of a fresh slice to any later time, over any mix of bios, checks, trims,
      extensions and new slices, the group is charged at most bps * (t - s0 + slice) / HZ bytes
      and iops * (t - s0 + slice) / HZ bios. */
  lemma {:induction false} RateBound(c: Config, s0: nat, ops: seq<Op>)
    requires Sane(c) && !NoRule(c)
    ensures var m := Run(c, Meter(NewSlice(c, s0), s0, 0, 0), ops);
            && s0 <= m.now
            && Times(m.bytes, c.hz) <= Times(c.bps, m.now - s0 + c.slice)
            && Times(m.ios, c.hz) <= Times(c.iops, m.now - s0 + c.slice)
  {
    var m0 := Meter(NewSlice(c, s0), s0, 0, 0);
    var last := RunInv(c, s0, s0, m0, ops);
    InvBound(c, s0, last, Run(c, m0, ops));
  }

  /** The same from any point of a slice on: what is charged from now on, and what the slice already carries,
      together stay below the rate since that slice's start. */
  lemma {:induction false} RateBoundFrom(c: Config, s: Slice, now: nat, ops: seq<Op>)
    requires Sane(c) && !NoRule(c) && s.start <= now && now + c.slice <= s.end
    requires Times(s.bytes, c.hz) <= Times(c.bps, now - s.start + c.slice)
    requires Times(s.ios, c.hz) <= Times(c.iops, now - s.start + c.slice)
    ensures var m := Run(c, Meter(s, now, s.bytes, s.ios), ops);
            && now <= m.now
            && Times(m.bytes, c.hz) <= Times(c.bps, m.now - s.start + c.slice)
            && Times(m.ios, c.hz) <= Times(c.iops, m.now - s.start + c.slice)
  {
    var m0 := Meter(s, now, s.bytes, s.ios);
    var last := RunInv(c, s.start, now, m0, ops);
    RunLater(c, m0, ops);
    InvBound(c, s.start, last, Run(c, m0, ops));
  }

  lemma {:induction false} RunLater(c: Config, m: Meter, ops: seq<Op>)
    requires Sane(c)
    ensures m.now <= Run(c, m, ops).now
    decreases |ops|
  {
    if ops != [] {
      RunLater(c, Do(c, m, ops[0]), ops[1..]);
    }
  }

  lemma {:induction false} InvBound(c: Config, s0: nat, last: nat, m: Meter)
    requires Inv(c, s0, last, m)
    ensures s0 <= m.now
    ensures Times(m.bytes, c.hz) <= Times(c.bps, m.now - s0 + c.slice)
    ensures Times(m.ios, c.hz) <= Times(c.iops, m.now - s0 + c.slice)
  {
    TimesMono(last - s0 + c.slice, m.now - s0 + c.slice, c.bps);
    TimesMono(last - s0 + c.slice, m.now - s0 + c.slice, c.iops);
  }

  /** The extra slice in the bound is really used: a whole slice's allowance goes out at once. */
  lemma {:induction false} RateBoundTight(c: Config, s0: nat, size: nat)
    requires Sane(c) && !NoRule(c) && Times(size, c.hz) == Times(c.bps, c.slice) && c.hz <= Times(c.iops, c.slice)
    ensures var m := Do(c, Meter(NewSlice(c, s0), s0, 0, 0), Try(size));
            m.now == s0 && Times(m.bytes, c.hz) == Times(c.bps, m.now - s0 + c.slice)
  {
    WholeSlice(c, s0, size);
  }

  /** What a slice that has just begun admits: exactly one throtl_slice worth. */
  lemma {:induction false} WholeSlice(c: Config, s0: nat, size: nat)
    requires Sane(c) && !NoRule(c)
    ensures MayDispatch(c, NewSlice(c, s0), size, s0) == Pass <==>
              Times(size, c.hz) <= Times(c.bps, c.slice) && c.hz <= Times(c.iops, c.slice)
  {
    var s := NewSlice(c, s0);
    assert Renewed(c, s, s0) == s;
    assert Rounded(c, s, s0) == c.slice by { OneSlice(c.slice, c.slice); }
    DivAtLeastIff(Times(c.bps, c.slice), c.hz, size);
    DivAtLeastIff(Times(c.iops, c.slice), c.hz, 1);
    assert Times(1, c.hz) == c.hz;
  }

  // ---- the promised waits ----

  /** After the wait a refusal names, plus one jiffy, the byte limit admits the bio for good. */
  lemma {:induction false} BpsAdmitsAfterWait(c: Config, s: Slice, size: nat, now: nat, later: nat)
    requires Sane(c) && s.start <= now && BpsCheck(c, s, size, now).Wait?
    requires now + BpsCheck(c, s, size, now).jiffies + 1 <= later
    ensures BpsCheck(c, s, size, later) == Pass
  {
    var r := Rounded(c, s, now);
    var r' := Rounded(c, s, later);
    var allowed := BytesAllowed(c, r);
    var extra := s.bytes + size - allowed;
    var w := Div(Times(extra, c.hz), c.bps);
    assert r + w + 1 <= r';
    TimesMono(r + w + 1, r', c.bps);
    TimesAdd(r, w + 1, c.bps);
    assert Times(w + 1, c.bps) == Times(c.bps, w + 1);
    TimesAdd(allowed, extra, c.hz);
    assert Times(allowed + extra, c.hz) <= Times(c.bps, r');
    DivAtLeast(Times(c.bps, r'), c.hz, allowed + extra);
  }

  /** The byte limit admits the bio at the named time itself: it did so already, or the wait is not a whole number
      of slices and so is rounded up, or what the allowance was rounded down by covers what the wait was. */
  predicate FitsAtWait(c: Config, s: Slice, size: nat, now: nat)
    requires Sane(c) && s.start <= now
  {
    var rounded := Rounded(c, s, now);
    var allowed := BytesAllowed(c, rounded);
    s.bytes + size <= allowed ||
    (var over := Times(s.bytes + size - allowed, c.hz);
     var w := Div(over, c.bps);
     w == 0 || RoundUp(w, c.slice) != w || over - Times(w, c.bps) <= Times(c.bps, rounded) - Times(allowed, c.hz))
  }

  /** The time at which the wait ends, as the check will round it. */
  lemma {:induction false} RoundedAtWait(c: Config, s: Slice, now: nat, w: nat)
    requires Sane(c) && s.start <= now && w > 0
    ensures Rounded(c, s, s.start + Rounded(c, s, now) + w) == Rounded(c, s, now) + RoundUp(w, c.slice)
  {
    var elapsed := if now == s.start then c.slice else now - s.start;
    RoundUpShift(Div(elapsed + (c.slice - 1), c.slice), w, c.slice);
  }

  /** What a rounded wait adds to the allowance, against what was asked too much. */
  lemma {:induction false} WaitPays(c: Config, over: nat, w: nat, ru: nat)
    requires Sane(c) && w == Div(over, c.bps)
    ensures ru >= w + 1 ==> over < Times(c.bps, ru)
    ensures Times(w, c.bps) == Times(c.bps, w) <= over
  {
    assert Times(w, c.bps) == Times(c.bps, w) && Times(w + 1, c.bps) == Times(c.bps, w + 1);
    if ru >= w + 1 {
      TimesMono(w + 1, ru, c.bps);
    }
  }

  /** Exactly when the named wait is enough for the bytes. */
  lemma {:induction false} BpsAtWaitIff(c: Config, s: Slice, size: nat, now: nat)
    requires Sane(c) && s.start <= now && BpsCheck(c, s, size, now).Wait?
    ensures BpsCheck(c, s, size, now + BpsCheck(c, s, size, now).jiffies) == Pass <==> FitsAtWait(c, s, size, now)
  {
    var rounded := Rounded(c, s, now);
    var allowed := BytesAllowed(c, rounded);
    var extra := s.bytes + size - allowed;
    var over := Times(extra, c.hz);
    var w := Div(over, c.bps);
    var w1 := if w == 0 then 1 else w;
    var ru := RoundUp(w1, c.slice);
    RoundUpAtLeast(w1, c.slice);
    RoundedAtWait(c, s, now, w1);
    assert now + BpsCheck(c, s, size, now).jiffies == s.start + rounded + w1;
    DivAtLeastIff(Times(c.bps, rounded + ru), c.hz, allowed + extra);
    TimesAdd(rounded, ru, c.bps);
    TimesAdd(allowed, extra, c.hz);
    WaitPays(c, over, w, ru);
  }

  /** The extra jiffy is needed: at the named time itself the answer may still be no. */
  lemma {:induction false} BpsWaitOneShort(c: Config, s: Slice)
    requires c == Config(100, 10, 13, UINT_MAX) && s == Slice(0, 200, 13, 0)
    ensures BpsCheck(c, s, 4, 100) == Wait(30) && BpsCheck(c, s, 4, 130).Wait?
  {
    assert Rounded(c, s, 100) == 100 && Rounded(c, s, 130) == 130;
    assert BytesAllowed(c, 100) == 13 && BytesAllowed(c, 130) == 16;
    assert Div(Times(4, 100), 13) == 30;
  }

  /** A refusal by the I/O limit never names the fallback of one jiffy: less time has elapsed than the count needs. */
  lemma {:induction false} IopsNeeds(c: Config, s: Slice, now: nat)
    requires Sane(c) && s.start <= now && s.ios + 1 <= UINT_MAX && IopsCheck(c, s, now).Wait?
    ensures Div(Times(s.ios + 1, c.hz), c.iops) + 1 > now - s.start
  {
    var x := Times(s.ios + 1, c.hz);
    var r := Rounded(c, s, now);
    if Times(c.iops, r) >= x {
      DivAtLeast(Times(c.iops, r), c.hz, s.ios + 1);
      assert false;
    }
    DivAtLeast(x, c.iops, r);
    assert Times(r, c.iops) == Times(c.iops, r);
  }

  /** For the I/O limit the named wait itself is enough. */
  lemma {:induction false} IopsAdmitsAfterWait(c: Config, s: Slice, now: nat, later: nat)
    requires Sane(c) && s.start <= now && s.ios + 1 <= UINT_MAX && IopsCheck(c, s, now).Wait?
    requires now + IopsCheck(c, s, now).jiffies <= later
    ensures IopsCheck(c, s, later) == Pass
  {
    IopsNeeds(c, s, now);
    var r' := Rounded(c, s, later);
    var w := Div(Times(s.ios + 1, c.hz), c.iops) + 1;
    assert w <= later - s.start <= r';
    TimesMono(w, r', c.iops);
    assert Times(w, c.iops) == Times(c.iops, w);
    DivAtLeast(Times(c.iops, r'), c.hz, s.ios + 1);
  }

  lemma {:induction false} BpsStaysAdmitted(c: Config, s: Slice, size: nat, now: nat, later: nat)
    requires Sane(c) && s.start <= now <= later && BpsCheck(c, s, size, now) == Pass
    ensures BpsCheck(c, s, size, later) == Pass
  {
    RoundedMono(c, s, now, later);
    TimesMono(Rounded(c, s, now), Rounded(c, s, later), c.bps);
    DivMono(Times(c.bps, Rounded(c, s, now)), Times(c.bps, Rounded(c, s, later)), c.hz);
  }

  lemma {:induction false} IopsStaysAdmitted(c: Config, s: Slice, now: nat, later: nat)
    requires Sane(c) && s.start <= now <= later && IopsCheck(c, s, now) == Pass
    ensures IopsCheck(c, s, later) == Pass
  {
    RoundedMono(c, s, now, later);
    TimesMono(Rounded(c, s, now), Rounded(c, s, later), c.iops);
    DivMono(Times(c.iops, Rounded(c, s, now)), Times(c.iops, Rounded(c, s, later)), c.hz);
  }

  /** What decides a recheck: in the extended slice the I/O count and, at the very end of the wait, whether that
      was enough for the bytes; after it one fresh slice's allowance. */
  predicate PassesLater(c: Config, s: Slice, size: nat, now: nat, w: nat, later: nat)
    requires Sane(c) && now <= later
  {
    var r := Renewed(c, s, now);
    if later <= AfterCheck(c, s, size, now).end then
      && r.ios + 1 <= IosAllowed(c, Rounded(c, r, later))
      && (later > now + w || FitsAtWait(c, r, size, now))
    else
      size <= BytesAllowed(c, c.slice) && 1 <= IosAllowed(c, c.slice)
  }

  lemma {:induction false} EndAside(c: Config, r: Slice, r': Slice, size: nat, later: nat)
    requires Sane(c) && r.start <= later && r' == r.(end := r'.end)
    ensures BpsCheck(c, r', size, later) == BpsCheck(c, r, size, later)
    ensures IopsCheck(c, r', later) == IopsCheck(c, r, later)
  {
  }

  /** From the jiffy after the named wait on the byte limit no longer refuses, in the same slice; at the named
      time itself exactly when FitsAtWait says so. */
  lemma {:induction false} BytesFitLater(c: Config, s: Slice, size: nat, now: nat, w: nat, later: nat)
    requires Sane(c) && !NoRule(c) && MayDispatch(c, s, size, now) == Wait(w) && now + w <= later
    ensures BpsCheck(c, Renewed(c, s, now), size, later) == Pass <==>
              later > now + w || FitsAtWait(c, Renewed(c, s, now), size, now)
  {
    var r := Renewed(c, s, now);
    if BpsCheck(c, r, size, now).Pass? {
      BpsStaysAdmitted(c, r, size, now, later);
    } else if later > now + w {
      BpsAdmitsAfterWait(c, r, size, now, later);
    } else {
      BpsAtWaitIff(c, r, size, now);
    }
  }

  /** tg_may_dispatch as a whole keeps the promise of its wait exactly when PassesLater holds. In the slice
      it extended, a refusal by bytes has not looked at the I/O count, which may refuse next; after that
      slice the charge is forgotten but so is the time waited, and only a bio that fits into one fresh
      slice gets through. */
  lemma {:induction false} AdmittedAfterWaitIff(c: Config, s: Slice, size: nat, now: nat, w: nat, later: nat)
    requires Sane(c) && !NoRule(c) && MayDispatch(c, s, size, now) == Wait(w) && now + w <= later
    ensures MayDispatch(c, AfterCheck(c, s, size, now), size, later) == Pass <==>
              PassesLater(c, s, size, now, w, later)
  {
    var r := Renewed(c, s, now);
    var s' := AfterCheck(c, s, size, now);
    assert s' == r.(end := s'.end);
    if later <= s'.end {
      var r' := Renewed(c, s', later);
      EndAside(c, r, r', size, later);
      BytesFitLater(c, s, size, now, w, later);
    } else {
      assert Renewed(c, s', later) == NewSlice(c, later);
      assert Rounded(c, NewSlice(c, later), later) == c.slice;
    }
  }

  /** A wait that the I/O limit named is kept from its end on, for as long as the extended slice lasts. */
  lemma {:induction false} IopsRefusalKept(c: Config, s: Slice, r: Slice, size: nat, now: nat, w: nat, later: nat)
    requires Sane(c) && !NoRule(c) && r == Renewed(c, s, now) && r.ios + 1 <= UINT_MAX
    requires BpsCheck(c, r, size, now) == Pass && IopsCheck(c, r, now) == Wait(w)
    requires now + w <= later <= AfterCheck(c, s, size, now).end
    ensures MayDispatch(c, AfterCheck(c, s, size, now), size, later) == Pass
  {
    assert MayDispatch(c, s, size, now) == Wait(w);
    AdmittedAfterWaitIff(c, s, size, now, w, later);
    IopsAdmitsAfterWait(c, r, now, later);
  }

  /** A refusal by bytes whose wait is not kept within the slice, a fresh one: the I/O count was not asked. */
  lemma {:induction false} ByteWaitHidesIops(c: Config, s: Slice, size: nat, now: nat, later: nat)
    requires c == Config(100, 10, 1000, 1) && s == NewSlice(c, now) && now == 0 && size == 150 && later == 16
    ensures MayDispatch(c, s, size, now) == Wait(15) && later <= AfterCheck(c, s, size, now).end
    ensures MayDispatch(c, AfterCheck(c, s, size, now), size, later).Wait?
  {
    FirstRefused(c, s, size, now);
    AdmittedAfterWaitIff(c, s, size, now, 15, later);
    assert Rounded(c, s, later) == 20 && IosAllowed(c, 20) == 0;
  }

  lemma {:induction false} FirstRefused(c: Config, s: Slice, size: nat, now: nat)
    requires c == Config(100, 10, 1000, 1) && s == Slice(0, 10, 0, 0) && now == 0 && size == 150
    ensures MayDispatch(c, s, size, now) == Wait(15)
    ensures Renewed(c, s, now) == s && AfterCheck(c, s, size, now).end == 20
  {
    FirstVerdict(c, s, size, now);
    assert Renewed(c, s, now) == s;
    assert MayDispatch(c, s, size, now) == Wait(15);
    assert AfterCheck(c, s, size, now) == SetEnd(c, s, 15);
    assert RoundUp(15, 10) == 20;
  }

  lemma {:induction false} FirstVerdict(c: Config, s: Slice, size: nat, now: nat)
    requires c == Config(100, 10, 1000, 1) && s == Slice(0, 10, 0, 0) && now == 0 && size == 150
    ensures BpsCheck(c, s, size, now) == Wait(15)
  {
    var rounded := Rounded(c, s, now);
    assert rounded == 10;
    var allowed := BytesAllowed(c, rounded);
    assert allowed == 100;
    var over := Times(s.bytes + size - allowed, c.hz);
    assert over == 5000;
    assert Div(over, c.bps) == 5;
  }

  /** Hence a bio too big for one slice that is looked at again only after its slice has run out
      is where it began: refused, in a fresh slice, with the full wait of a first attempt. */
  lemma {:induction false} LateRecheckStartsOver(c: Config, s: Slice, size: nat, now: nat)
    requires Sane(c) && !NoRule(c) && size > BytesAllowed(c, c.slice) && s.end < now
    ensures MayDispatch(c, s, size, now).Wait?
    ensures MayDispatch(c, s, size, now) == MayDispatch(c, NewSlice(c, 0), size, 0)
    ensures AfterCheck(c, s, size, now).start == now && AfterCheck(c, s, size, now).bytes == 0
  {
    assert Renewed(c, s, now) == NewSlice(c, now) && Renewed(c, NewSlice(c, 0), 0) == NewSlice(c, 0);
    assert Rounded(c, NewSlice(c, now), now) == c.slice && Rounded(c, NewSlice(c, 0), 0) == c.slice;
  }
}
