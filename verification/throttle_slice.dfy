/** Slices of block/blk-throttle.c: one group, one direction, fixed limits.

    Integers are unbounded; the source's 64-bit products are assumed not to overflow. */
module ThrottleSlice {
  import opened Arithmetic

  const UINT_MAX: nat := 0xFFFF_FFFF
  const U64_MAX: nat := 0xFFFF_FFFF_FFFF_FFFF

  /** `slice` is throtl_slice in jiffies. */
  datatype Config = Config(hz: nat, slice: nat, bps: nat, iops: nat)

  predicate Sane(c: Config) { c.hz > 0 && c.slice > 0 && c.bps > 0 && c.iops > 0 }

  /** tg_no_rule_group: both limits are -1. */
  predicate NoRule(c: Config) { c.bps == U64_MAX && c.iops == UINT_MAX }

  /** slice_start, slice_end, bytes_disp and io_disp of one direction. */
  datatype Slice = Slice(start: nat, end: nat, bytes: nat, ios: nat)

  /** do_div, div64_u64 */
  function Div(a: nat, k: nat): (q: nat)
    requires k > 0
    ensures Times(q, k) <= a < Times(q + 1, k)
  {
    assert a == (a / k) * k + a % k;
    a / k
  }

  /** The kernel's roundup(). */
  function RoundUp(x: nat, y: nat): nat
    requires y > 0
  {
    Times(Div(x + (y - 1), y), y)
  }

  /** throtl_start_new_slice */
  function NewSlice(c: Config, now: nat): Slice { Slice(now, now + c.slice, 0, 0) }

  /** throtl_slice_used */
  predicate Used(s: Slice, now: nat) { !(s.start <= now <= s.end) }

  /** throtl_extend_slice, throtl_set_slice_end */
  function SetEnd(c: Config, s: Slice, until: nat): Slice
    requires Sane(c)
  {
    s.(end := RoundUp(until, c.slice))
  }

  /** The elapsed time both limit checks reckon with. */
  function Rounded(c: Config, s: Slice, now: nat): (r: nat)
    requires Sane(c) && s.start <= now
    ensures now - s.start <= r <= now - s.start + c.slice && c.slice <= r
  {
    var elapsed := if now == s.start then c.slice else now - s.start;
    RoundUpAtLeast(elapsed, c.slice);
    OneSlice(elapsed, c.slice);
    RoundUp(elapsed, c.slice)
  }

  function BytesAllowed(c: Config, rounded: nat): nat
    requires Sane(c)
  {
    Div(Times(c.bps, rounded), c.hz)
  }

  function IosAllowed(c: Config, rounded: nat): nat
    requires Sane(c)
  {
    var n := Div(Times(c.iops, rounded), c.hz);
    if n > UINT_MAX then UINT_MAX else n
  }

  datatype Verdict = Pass | Wait(jiffies: nat)

  /** tg_with_in_bps_limit */
  function BpsCheck(c: Config, s: Slice, size: nat, now: nat): Verdict
    requires Sane(c) && s.start <= now
  {
    var rounded := Rounded(c, s, now);
    var allowed := BytesAllowed(c, rounded);
    if s.bytes + size <= allowed then Pass
    else
      var w := Div(Times(s.bytes + size - allowed, c.hz), c.bps);
      Wait((if w == 0 then 1 else w) + (rounded - (now - s.start)))
  }

  /** tg_with_in_iops_limit */
  function IopsCheck(c: Config, s: Slice, now: nat): Verdict
    requires Sane(c) && s.start <= now
  {
    if s.ios + 1 <= IosAllowed(c, Rounded(c, s, now)) then Pass
    else
      var w := Div(Times(s.ios + 1, c.hz), c.iops) + 1;
      Wait(if w > now - s.start then w - (now - s.start) else 1)
  }

  /** The slice tg_may_dispatch works on: a new one if the old is used up, else the old one,
      long enough to last throtl_slice from now. */
  function Renewed(c: Config, s: Slice, now: nat): (r: Slice)
    requires Sane(c)
    ensures r.start <= now && now + c.slice <= r.end
  {
    if Used(s, now) then NewSlice(c, now)
    else if s.end < now + c.slice then RoundUpAtLeast(now + c.slice, c.slice); SetEnd(c, s, now + c.slice)
    else s
  }

  /** tg_may_dispatch without its effect on the slice. */
  function MayDispatch(c: Config, s: Slice, size: nat, now: nat): Verdict
    requires Sane(c)
  {
    if NoRule(c) then Pass
    else
      var r := Renewed(c, s, now);
      match BpsCheck(c, r, size, now)
      case Pass => IopsCheck(c, r, now)
      case Wait(w) => Wait(w)
  }

  /** The effect of tg_may_dispatch on the slice. */
  function AfterCheck(c: Config, s: Slice, size: nat, now: nat): Slice
    requires Sane(c)
  {
    if NoRule(c) then s
    else
      var r := Renewed(c, s, now);
      match MayDispatch(c, s, size, now)
      case Pass => r
      case Wait(w) => if r.end < now + w then SetEnd(c, r, now + w) else r
  }

  /** throtl_charge_bio */
  function Charge(s: Slice, size: nat): Slice { s.(bytes := s.bytes + size, ios := s.ios + 1) }

  function Minus(a: nat, b: nat): nat { if a >= b then a - b else 0 }

  /** throtl_trim_slice */
  function Trim(c: Config, s: Slice, now: nat): Slice
    requires Sane(c)
  {
    if Used(s, now) then s
    else
      var e := SetEnd(c, s, now + c.slice);
      var nr := Div(now - s.start, c.slice);
      var bytesTrim := Div(Times(c.bps, Times(c.slice, nr)), c.hz);
      var ioTrim := Div(Times(c.iops, Times(c.slice, nr)), c.hz);
      if nr == 0 || (bytesTrim == 0 && ioTrim == 0) then e
      else e.(bytes := Minus(s.bytes, bytesTrim), ios := Minus(s.ios, ioTrim), start := s.start + Times(c.slice, nr))
  }

  // ---- rounding ----

  lemma {:induction false} DivAtLeast(a: nat, k: nat, n: nat)
    requires k > 0 && Times(n, k) <= a
    ensures n <= Div(a, k)
  {
    if n > Div(a, k) {
      TimesMono(Div(a, k) + 1, n, k);
      assert false;
    }
  }

  lemma {:induction false} DivAtLeastIff(a: nat, k: nat, n: nat)
    requires k > 0
    ensures n <= Div(a, k) <==> Times(n, k) <= a
  {
    if n <= Div(a, k) {
      TimesMono(n, Div(a, k), k);
    } else {
      TimesMono(Div(a, k) + 1, n, k);
    }
  }

  lemma {:induction false} DivMono(a: nat, b: nat, k: nat)
    requires a <= b && k > 0
    ensures Div(a, k) <= Div(b, k)
  {
    DivAtLeast(b, k, Div(a, k));
  }

  lemma {:induction false} RoundUpAtLeast(x: nat, y: nat)
    requires y > 0
    ensures x <= RoundUp(x, y) < x + y
  {
    TimesAdd(Div(x + (y - 1), y), 1, y);
    assert Times(1, y) == y;
  }

  lemma {:induction false} OneSlice(x: nat, y: nat)
    requires y > 0 && x > 0
    ensures y <= RoundUp(x, y) && (x <= y ==> RoundUp(x, y) == y)
  {
    assert Times(1, y) == y && Times(2, y) == y + y;
    DivAtLeast(x + (y - 1), y, 1);
    TimesMono(1, Div(x + (y - 1), y), y);
  }

  /** Whole slices stand outside the rounding. */
  lemma {:induction false} RoundUpShift(k: nat, x: nat, y: nat)
    requires y > 0
    ensures RoundUp(Times(k, y) + x, y) == Times(k, y) + RoundUp(x, y)
  {
    var a := x + (y - 1);
    var q := Div(a, y);
    TimesAdd(k, q, y);
    TimesAdd(k, q + 1, y);
    assert Div(Times(k, y) + a, y) == k + q by {
      DivAtLeastIff(Times(k, y) + a, y, k + q);
      DivAtLeastIff(Times(k, y) + a, y, k + (q + 1));
    }
    assert Times(k, y) + x + (y - 1) == Times(k, y) + a;
  }

  lemma {:induction false} RoundedMono(c: Config, s: Slice, now: nat, later: nat)
    requires Sane(c) && s.start <= now <= later
    ensures Rounded(c, s, now) <= Rounded(c, s, later)
  {
    if now > s.start {
      DivMono(now - s.start + (c.slice - 1), later - s.start + (c.slice - 1), c.slice);
      TimesMono(Div(now - s.start + (c.slice - 1), c.slice), Div(later - s.start + (c.slice - 1), c.slice), c.slice);
    } else {
      OneSlice(c.slice, c.slice);
    }
  }
}
