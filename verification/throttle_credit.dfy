/** What a throttled group is owed: time gone by is credited, nothing is charged twice, and no wait is longer than the
    rate asks for (block/blk-throttle.c). */
module ThrottleCredit {
  import opened Arithmetic
  import opened ThrottleSlice
  import opened ThrottleRate

  // ---- what passes ----

  /** The `k`-th slice from `start` on is running. */
  ghost predicate Running(c: Config, start: nat, now: nat, k: nat) {
    && start <= now <= start + Times(k, c.slice) && k >= 1
    && (k == 1 || start + Times(k - 1, c.slice) < now)
  }

  /** Within the rate up to the end of the `k`-th slice, and within what an unsigned int counts. */
  ghost predicate WithinRate(c: Config, bytes: nat, ios: nat, k: nat) {
    && Times(bytes, c.hz) <= Times(c.bps, Times(k, c.slice))
    && Times(ios, c.hz) <= Times(c.iops, Times(k, c.slice)) && ios <= 0xFFFF_FFFF
  }

  lemma {:induction false} RoundedIs(c: Config, s: Slice, now: nat) returns (k: nat)
    requires Sane(c) && s.start <= now
    ensures Running(c, s.start, now, k) && Rounded(c, s, now) == Times(k, c.slice)
  {
    var elapsed := if now == s.start then c.slice else now - s.start;
    k := Div(elapsed + (c.slice - 1), c.slice);
    RoundUpAtLeast(elapsed, c.slice);
    OneSlice(elapsed, c.slice);
    assert Times(0, c.slice) == 0 && Times(1, c.slice) == c.slice;
    if k > 1 {
      TimesAdd(k - 1, 1, c.slice);
    }
  }

  /** A bio passes exactly when, with it, the charges of a slice not used up, or its own charges alone if it is, are
      within the rate at the end of the running slice. Only a group with neither limit is let pass unasked. */
  lemma {:induction false} PassesIff(c: Config, s: Slice, size: nat, now: nat) returns (k: nat)
    requires Sane(c)
    ensures c.bps == 0xFFFF_FFFF_FFFF_FFFF && c.iops == 0xFFFF_FFFF ==> MayDispatch(c, s, size, now) == Pass
    ensures !(c.bps == 0xFFFF_FFFF_FFFF_FFFF && c.iops == 0xFFFF_FFFF) && s.start <= now <= s.end ==>
              Running(c, s.start, now, k)
              && (MayDispatch(c, s, size, now) == Pass <==> WithinRate(c, s.bytes + size, s.ios + 1, k))
    ensures !(c.bps == 0xFFFF_FFFF_FFFF_FFFF && c.iops == 0xFFFF_FFFF) && !(s.start <= now <= s.end) ==>
              (MayDispatch(c, s, size, now) == Pass <==> WithinRate(c, size, 1, 1))
  {
    var r := Renewed(c, s, now);
    k := RoundedIs(c, r, now);
    PassIs(c, r, size, now, k);
  }

  lemma {:induction false} PassIs(c: Config, r: Slice, size: nat, now: nat, k: nat)
    requires Sane(c) && r.start <= now && Rounded(c, r, now) == Times(k, c.slice)
    ensures BpsCheck(c, r, size, now) == Pass && IopsCheck(c, r, now) == Pass <==>
              WithinRate(c, r.bytes + size, r.ios + 1, k)
  {
    var rounded := Rounded(c, r, now);
    DivAtLeastIff(Times(c.bps, rounded), c.hz, r.bytes + size);
    DivAtLeastIff(Times(c.iops, rounded), c.hz, r.ios + 1);
  }

  // ---- trimming ----

  /** Of a charge, `now` is left where `was` stood, for time that is worth `worth` / `hz`: at most that is taken off,
      and less by no more than what is under one unit, unless nothing is left. */
  ghost predicate Credited(was: nat, now: nat, worth: nat, hz: nat) {
    now <= was && Times(was - now, hz) <= worth && (now > 0 ==> worth < Times(was - now + 1, hz))
  }

  lemma {:induction false} MinusCredited(was: nat, worth: nat, hz: nat)
    requires hz > 0
    ensures Credited(was, Minus(was, Div(worth, hz)), worth, hz)
  {
    var trim := Div(worth, hz);
    if was < trim {
      TimesMono(was, trim, hz);
    }
  }

  /** throtl_trim_slice moves the start over whole slices, all that have gone by unless they are worth less than a byte
      and less than an I/O, and takes their worth off both charges. */
  lemma {:induction false} TrimCredits(c: Config, s: Slice, now: nat) returns (k: nat)
    requires Sane(c) && s.start <= now <= s.end
    ensures var t := Trim(c, s, now);
            var moved := Times(k, c.slice);
            && t.start == s.start + moved <= now
            && (t.start + c.slice > now || (k == 0 && Worthless(c, now - s.start)))
            && Credited(s.bytes, t.bytes, Times(c.bps, moved), c.hz)
            && Credited(s.ios, t.ios, Times(c.iops, moved), c.hz)
            && now + c.slice <= t.end < now + c.slice + c.slice
  {
    var nr := Div(now - s.start, c.slice);
    var t := Trim(c, s, now);
    RoundUpAtLeast(now + c.slice, c.slice);
    assert Times(c.slice, nr) == Times(nr, c.slice);
    TimesAdd(nr, 1, c.slice);
    assert Times(1, c.slice) == c.slice && Times(0, c.slice) == 0;
    MinusCredited(s.bytes, Times(c.bps, Times(c.slice, nr)), c.hz);
    MinusCredited(s.ios, Times(c.iops, Times(c.slice, nr)), c.hz);
    if t.start == s.start {
      k := 0;
      Untrimmed(c, s, now, nr);
    } else {
      k := nr;
    }
  }

  /** Whole slices in `elapsed` jiffies are worth neither a byte nor an I/O. */
  ghost predicate Worthless(c: Config, elapsed: nat)
    requires Sane(c)
  {
    var whole := Times(Div(elapsed, c.slice), c.slice);
    Times(c.bps, whole) < c.hz && Times(c.iops, whole) < c.hz
  }

  lemma {:induction false} Untrimmed(c: Config, s: Slice, now: nat, nr: nat)
    requires Sane(c) && s.start <= now <= s.end && nr == Div(now - s.start, c.slice)
    requires Trim(c, s, now).start == s.start
    ensures Trim(c, s, now).bytes == s.bytes && Trim(c, s, now).ios == s.ios
    ensures nr == 0 || Worthless(c, now - s.start)
    ensures Times(c.bps, 0) == 0 && Times(c.iops, 0) == 0
  {
    assert Times(c.slice, nr) == Times(nr, c.slice);
    assert Times(1, c.hz) == c.hz;
    if nr > 0 {
      TimesMono(1, nr, c.slice);
      assert Times(1, c.slice) == c.slice;
    }
  }

  /** A slice trimmed of all it was owed admits, at any later time, what it would have admitted with one byte more. */
  lemma {:induction false} TrimAdmits(c: Config, s: Slice, t: Slice, k: nat, size: nat, later: nat)
    requires Sane(c) && t.start == s.start + Times(k, c.slice) <= later && t.bytes <= s.bytes
    requires Times(c.bps, Times(k, c.slice)) < Times(s.bytes - t.bytes + 1, c.hz)
    requires BpsCheck(c, s, size + 1, later) == Pass
    ensures BpsCheck(c, t, size, later) == Pass
  {
    var moved := Times(k, c.slice);
    var r, r' := Rounded(c, s, later), Rounded(c, t, later);
    RoundedMoved(c, s, t, k, later);
    DivAtLeastIff(Times(c.bps, r), c.hz, s.bytes + size + 1);
    DivAtLeastIff(Times(c.bps, r'), c.hz, t.bytes + size);
    TimesMono(r, moved + r', c.bps);
    TimesAdd(moved, r', c.bps);
    TimesAdd(s.bytes - t.bytes + 1, t.bytes + size, c.hz);
  }

  /** The same for the I/O count. */
  lemma {:induction false} TrimAdmitsIo(c: Config, s: Slice, t: Slice, k: nat, later: nat)
    requires Sane(c) && t.start == s.start + Times(k, c.slice) <= later && t.ios <= s.ios && s.ios + 2 <= UINT_MAX
    requires Times(c.iops, Times(k, c.slice)) < Times(s.ios - t.ios + 1, c.hz)
    requires IopsCheck(c, s.(ios := s.ios + 1), later) == Pass
    ensures IopsCheck(c, t, later) == Pass
  {
    var moved := Times(k, c.slice);
    var r, r' := Rounded(c, s, later), Rounded(c, t, later);
    RoundedMoved(c, s, t, k, later);
    assert Rounded(c, s.(ios := s.ios + 1), later) == r;
    DivAtLeastIff(Times(c.iops, r), c.hz, s.ios + 2);
    DivAtLeastIff(Times(c.iops, r'), c.hz, t.ios + 1);
    TimesMono(r, moved + r', c.iops);
    TimesAdd(moved, r', c.iops);
    TimesAdd(s.ios - t.ios + 1, t.ios + 1, c.hz);
  }

  lemma {:induction false} RoundedMoved(c: Config, s: Slice, t: Slice, k: nat, later: nat)
    requires Sane(c) && t.start == s.start + Times(k, c.slice) <= later
    ensures Rounded(c, s, later) <= Times(k, c.slice) + Rounded(c, t, later)
  {
    var e := later - t.start;
    if later > s.start && e > 0 {
      RoundUpShift(k, e, c.slice);
    } else if later > s.start {
      RoundUpShift(k, 0, c.slice);
      RoundUpAtLeast(0, c.slice);
    }
  }

  // ---- charges ----

  /** Along every run a slice is charged no more than what was sent. */
  lemma {:induction false} NothingChargedTwice(c: Config, m: Meter, ops: seq<Op>)
    requires Sane(c) && m.slice.bytes <= m.bytes && m.slice.ios <= m.ios
    ensures Run(c, m, ops).slice.bytes <= Run(c, m, ops).bytes && Run(c, m, ops).slice.ios <= Run(c, m, ops).ios
    decreases |ops|
  {
    if ops != [] {
      DoChargesOnce(c, m, ops[0]);
      NothingChargedTwice(c, Do(c, m, ops[0]), ops[1..]);
    }
  }

  lemma {:induction false} DoChargesOnce(c: Config, m: Meter, op: Op)
    requires Sane(c) && m.slice.bytes <= m.bytes && m.slice.ios <= m.ios
    ensures Do(c, m, op).slice.bytes <= Do(c, m, op).bytes && Do(c, m, op).slice.ios <= Do(c, m, op).ios
  {
  }

  /** Hence, in every run from a fresh slice, the byte limit refuses only a bio that with all that was sent would exceed
      the rate since the slice's present start. */
  lemma {:induction false} RefusedOnlyOverRate(c: Config, s0: nat, ops: seq<Op>, size: nat)
    requires Sane(c)
    ensures var m := Run(c, Meter(NewSlice(c, s0), s0, 0, 0), ops);
            m.slice.start <= m.now && BpsCheck(c, m.slice, size, m.now).Wait? ==>
              Times(c.bps, m.now - m.slice.start) < Times(m.bytes + size, c.hz)
  {
    var m := Run(c, Meter(NewSlice(c, s0), s0, 0, 0), ops);
    NothingChargedTwice(c, Meter(NewSlice(c, s0), s0, 0, 0), ops);
    if m.slice.start <= m.now && BpsCheck(c, m.slice, size, m.now).Wait? {
      var r := Rounded(c, m.slice, m.now);
      DivAtLeastIff(Times(c.bps, r), c.hz, m.slice.bytes + size);
      TimesMono(m.now - m.slice.start, r, c.bps);
      TimesMono(m.slice.bytes + size, m.bytes + size, c.hz);
    }
  }

  // ---- waits ----

  /** No wait is longer than the rate asks for: a jiffy before its end the rate has not yet paid for what the slice
      carries and the bio, and one byte more. */
  lemma {:induction false} BpsWaitNotLong(c: Config, s: Slice, size: nat, now: nat)
    requires Sane(c) && s.start <= now && BpsCheck(c, s, size, now).Wait?
    ensures BpsCheck(c, s, size, now).jiffies >= 1
    ensures Times(c.bps, now - s.start + BpsCheck(c, s, size, now).jiffies - 1) < Times(s.bytes + size + 1, c.hz)
  {
    var r := Rounded(c, s, now);
    var allowed := BytesAllowed(c, r);
    var extra := s.bytes + size - allowed;
    var w := Div(Times(extra, c.hz), c.bps);
    assert Times(w, c.bps) == Times(c.bps, w);
    TimesAdd(r, w, c.bps);
    TimesAdd(allowed + 1, extra, c.hz);
    if w > 0 {
      TimesMono(r + w - 1, r + w, c.bps);
    } else {
      TimesMono(allowed + 1, s.bytes + size + 1, c.hz);
    }
  }

  lemma {:induction false} IopsWaitNotLong(c: Config, s: Slice, now: nat)
    requires Sane(c) && s.start <= now && s.ios + 1 <= UINT_MAX && IopsCheck(c, s, now).Wait?
    ensures IopsCheck(c, s, now).jiffies >= 1
    ensures Times(c.iops, now - s.start + IopsCheck(c, s, now).jiffies - 1) <= Times(s.ios + 1, c.hz)
  {
    IopsNeeds(c, s, now);
    var w := Div(Times(s.ios + 1, c.hz), c.iops);
    assert Times(w, c.iops) == Times(c.iops, w);
  }

  /** A refusal makes the slice last to the end of its wait, so that the bio is looked at again in it, and no longer
      than a slice beyond what the wait and throtl_slice ask for, unless it lasted so long already. */
  lemma {:induction false} RefusalLasts(c: Config, s: Slice, size: nat, now: nat, w: nat)
    requires Sane(c) && !NoRule(c) && MayDispatch(c, s, size, now) == Wait(w)
    ensures var r, a := Renewed(c, s, now), AfterCheck(c, s, size, now);
            && a == r.(end := a.end) && now + w <= a.end
            && (a.end == s.end || a.end < now + c.slice + c.slice || a.end < now + w + c.slice)
  {
    RoundUpAtLeast(now + w, c.slice);
    RoundUpAtLeast(now + c.slice, c.slice);
  }
}
