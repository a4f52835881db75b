/** throtl_grp, updated in place: in each direction the bio list and the slice in front of it (block/blk-throttle.c). */
module ThrottleGroup {
  import opened Arithmetic
  import opened Lists
  import opened ThrottleSlice
  import opened ThrottleLane
  import opened ThrottleTree

  /** One direction of a group. */
  class Direction {
    const cfg: Config
    var start: nat                // slice_start
    var end: nat                  // slice_end
    var bytes: nat                // bytes_disp
    var ios: nat                  // io_disp
    var bios: seq<Bio>            // bio_lists
    var nr: nat                   // nr_queued
    ghost var arrived: seq<Bio>
    ghost var sent: seq<Bio>
    ghost var born: nat
    ghost var last: nat
    ghost var clock: nat

    constructor (cfg: Config, now: nat)
      requires Sane(cfg)
      ensures View() == Lane(cfg, NewSlice(cfg, now), [], 0, [], [], now, now, now) && LaneOk(View())
    {
      this.cfg := cfg;
      start, end, bytes, ios := now, now + cfg.slice, 0, 0;
      bios, nr := [], 0;
      arrived, sent, born, last, clock := [], [], now, now, now;
      FreshLane(cfg, now);
    }

    function Account(): Slice
      reads this
    {
      Slice(start, end, bytes, ios)
    }

    ghost function View(): Lane
      reads this
    {
      Lane(cfg, Account(), bios, nr, arrived, sent, born, last, clock)
    }

    // ---- the slice ----

    /** throtl_start_new_slice */
    method StartNewSlice(now: nat)
      modifies this`start, this`end, this`bytes, this`ios
      ensures Account() == NewSlice(cfg, now)
    {
      bytes, ios := 0, 0;
      start := now;
      end := now + cfg.slice;
    }

    /** throtl_set_slice_end and throtl_extend_slice */
    method SetSliceEnd(until: nat)
      requires Sane(cfg)
      modifies this`end
      ensures Account() == SetEnd(cfg, old(Account()), until)
    {
      end := RoundUp(until, cfg.slice);
    }

    /** throtl_slice_used */
    method SliceUsed(now: nat) returns (used: bool)
      ensures used <==> Used(Account(), now)
    {
      used := !(start <= now && now <= end);
    }

    /** throtl_trim_slice */
    method TrimSlice(now: nat)
      requires Sane(cfg)
      modifies this`start, this`end, this`bytes, this`ios
      ensures Account() == Trim(cfg, old(Account()), now)
    {
      var used := SliceUsed(now);
      if used {
        return;
      }
      SetSliceEnd(now + cfg.slice);
      var nrSlices := Div(now - start, cfg.slice);
      if nrSlices == 0 {
        return;
      }
      var bytesTrim := Div(Times(cfg.bps, Times(cfg.slice, nrSlices)), cfg.hz);
      var ioTrim := Div(Times(cfg.iops, Times(cfg.slice, nrSlices)), cfg.hz);
      if bytesTrim == 0 && ioTrim == 0 {
        return;
      }
      bytes := if bytes >= bytesTrim then bytes - bytesTrim else 0;
      ios := if ios >= ioTrim then ios - ioTrim else 0;
      start := start + Times(cfg.slice, nrSlices);
    }

    /** The elapsed time of both checks, rounded up to whole slices. */
    method ElapsedRounded(now: nat) returns (elapsed: nat, rounded: nat)
      requires Sane(cfg) && start <= now
      ensures elapsed == now - start && rounded == Rounded(cfg, Account(), now)
    {
      elapsed := now - start;
      rounded := elapsed;
      if elapsed == 0 {
        rounded := cfg.slice;
      }
      rounded := RoundUp(rounded, cfg.slice);
    }

    /** tg_with_in_iops_limit */
    method WithinIopsLimit(now: nat) returns (v: Verdict)
      requires Sane(cfg) && start <= now
      ensures v == IopsCheck(cfg, Account(), now)
    {
      var elapsed, rounded := ElapsedRounded(now);
      var tmp := Div(Times(cfg.iops, rounded), cfg.hz);
      var allowed := if tmp > UINT_MAX then UINT_MAX else tmp;
      if ios + 1 <= allowed {
        return Pass;
      }
      var wait := Div(Times(ios + 1, cfg.hz), cfg.iops) + 1;
      if wait > elapsed {
        wait := wait - elapsed;
      } else {
        wait := 1;
      }
      v := Wait(wait);
    }

    /** tg_with_in_bps_limit */
    method WithinBpsLimit(size: nat, now: nat) returns (v: Verdict)
      requires Sane(cfg) && start <= now
      ensures v == BpsCheck(cfg, Account(), size, now)
    {
      var elapsed, rounded := ElapsedRounded(now);
      var allowed := Div(Times(cfg.bps, rounded), cfg.hz);
      if bytes + size <= allowed {
        return Pass;
      }
      var wait := Div(Times(bytes + size - allowed, cfg.hz), cfg.bps);
      if wait == 0 {
        wait := 1;
      }
      v := Wait(wait + (rounded - elapsed));
    }

    /** A new slice, or the old one made to last throtl_slice from now. */
    method Renew(now: nat)
      requires Sane(cfg)
      modifies this`start, this`end, this`bytes, this`ios
      ensures Account() == Renewed(cfg, old(Account()), now)
    {
      var used := SliceUsed(now);
      if used {
        StartNewSlice(now);
      } else if end < now + cfg.slice {
        SetSliceEnd(now + cfg.slice);
      }
    }

    method MayDispatchNow(size: nat, now: nat) returns (v: Verdict)
      requires Sane(cfg)
      modifies this`start, this`end, this`bytes, this`ios
      ensures v == MayDispatch(cfg, old(Account()), size, now)
      ensures Account() == AfterCheck(cfg, old(Account()), size, now)
    {
      if NoRule(cfg) {
        return Pass;
      }
      Renew(now);
      v := WithinBpsLimit(size, now);
      if v.Pass? {
        v := WithinIopsLimit(now);
      }
      if v.Wait? && end < now + v.jiffies {
        SetSliceEnd(now + v.jiffies);
      }
    }

    /** tg_may_dispatch */
    method MayDispatchBio(size: nat, now: nat) returns (v: Verdict)
      requires LaneOk(View()) && clock <= now
      modifies this`start, this`end, this`bytes, this`ios, this`clock
      ensures v == MayDispatch(cfg, old(Account()), size, now)
      ensures View() == Asked(old(View()), size, now) && LaneOk(View())
    {
      AskedMetered(View(), size, now);
      v := MayDispatchNow(size, now);
      clock := now;
    }

    /** throtl_charge_bio and throtl_trim_slice */
    method ChargeBio(b: Bio, now: nat)
      requires Sane(cfg)
      modifies this`start, this`end, this`bytes, this`ios, this`sent, this`last, this`clock
      ensures View() == Charged(old(View()), b, now)
    {
      bytes := bytes + b.size;
      ios := ios + 1;
      TrimSlice(now);
      sent, last, clock := sent + [b], now, now;
    }

    // ---- the bio list ----

    /** tg_dispatch_one_bio */
    method DispatchOneBio(now: nat) returns (b: Bio)
      requires Sane(cfg) && bios != [] && nr > 0
      modifies this
      ensures b == old(bios[0]) && View() == Popped(old(View()), now)
    {
      b := bios[0];
      bios := bios[1..];
      nr := nr - 1;
      ChargeBio(b, now);
    }

    /** tg_may_dispatch of the first bio and, if it may, tg_dispatch_one_bio. */
    method TryFirst(now: nat) returns (pass: bool)
      requires LaneOk(View()) && bios != [] && clock <= now
      modifies this
      ensures LaneOk(View()) && clock == now && (pass <==> Verdicts(old(View()), now) == Pass)
      ensures View() == if pass then Popped(Checked(old(View()), now), now) else Checked(old(View()), now)
      ensures !pass ==> Refused(View(), now)
    {
      ghost var l := View();
      CheckedOk(l, now);
      var v := MayDispatchBio(bios[0].size, now);
      pass := v.Pass?;
      if pass {
        PopOk(l, now);
        var b := DispatchOneBio(now);
      }
    }

    /**
      * One loop of throtl_dispatch_tg: at most `max` bios, oldest first, as long as they may pass. When
      * none passes the first was refused, and asked again at the same time it is refused again.
      */
    method DispatchBios(now: nat, max: nat) returns (out: seq<Bio>)
      requires LaneOk(View()) && max > 0 && clock <= now
      modifies this
      ensures LaneOk(View()) && View() == Emptied(old(View()), now, max) && clock <= now
      ensures Gone(old(View()), View(), out) && |out| <= max
      ensures out == [] && old(bios) != [] ==> Refused(View(), now)
      ensures out == [] && old(bios) == [] ==> View() == old(View())
    {
      ghost var l0 := View();
      out := [];
      while bios != [] && |out| < max
        invariant Emptying(l0, View(), out, now, max)
        decreases |bios|
      {
        ghost var before := View();
        var first := bios[0];
        var pass := TryFirst(now);
        EmptyingStep(l0, before, View(), out, now, max, pass);
        if !pass {
          return;
        }
        out := out + [first];
      }
    }

    /** tg_may_dispatch of the first bio, if there is one: how long it has to wait. */
    method CheckFirst(now: nat) returns (wait: Option<nat>)
      requires LaneOk(View()) && clock <= now
      modifies this
      ensures LaneOk(View()) && View() == Rechecked(old(View()), now) && clock <= now
      ensures wait == if old(bios) == [] then None else Some(WaitOf(Verdicts(old(View()), now)))
      ensures Refused(old(View()), now) ==> wait.Some? && wait.value > 0
    {
      if bios == [] {
        return None;
      }
      var v := MayDispatchBio(bios[0].size, now);
      if v.Wait? {
        WaitPositive(cfg, old(Account()), bios[0].size, now);
      }
      wait := Some(WaitOf(v));
    }

    /** A bio with none before it: passed and charged, or only asked about. */
    method TryBio(b: Bio, now: nat) returns (pass: bool)
      requires LaneOk(View()) && !NoRule(cfg) && bios == [] && clock <= now
      modifies this
      ensures LaneOk(View()) && (pass <==> MayDispatch(cfg, old(Account()), b.size, now) == Pass)
      ensures View() == if pass then Passed(old(View()), b, now) else Asked(old(View()), b.size, now)
    {
      ghost var l := View();
      var v := MayDispatchBio(b.size, now);
      pass := v.Pass?;
      if pass {
        PassedOk(l, b, now);
        ChargeBio(b, now);
        arrived := arrived + [b];
      }
    }

    /** A bio of a direction without a rule leaves no trace but in the history. */
    ghost method Unruled(b: Bio)
      requires LaneOk(View()) && NoRule(cfg)
      modifies this`arrived, this`sent
      ensures LaneOk(View()) && View() == Unmetered(old(View()), b)
    {
      assert bios == [];
      arrived, sent := arrived + [b], sent + [b];
    }

    /** The list's part of throtl_add_bio_tg. */
    method QueueBio(b: Bio)
      requires LaneOk(View()) && !NoRule(cfg)
      modifies this`bios, this`nr, this`arrived
      ensures LaneOk(View()) && View() == Queued(old(View()), b)
    {
      QueuedOk(View(), b);
      bios, nr := bios + [b], nr + 1;
      arrived := arrived + [b];
    }
  }

  class Group {
    const read: Direction
    const write: Direction
    var disptime: nat
    var onRr: bool                // THROTL_TG_FLAG_on_rr

    constructor (readLimits: Config, writeLimits: Config, now: nat)
      requires Sane(readLimits) && Sane(writeLimits)
      ensures fresh(read) && fresh(write) && read != write
      ensures GrpOk(View()) && !Waiting(View()) && !onRr
    {
      read := new Direction(readLimits, now);
      write := new Direction(writeLimits, now);
      disptime, onRr := now, false;
    }

    function At(dir: bool): Direction { if dir then write else read }

    ghost function View(): Grp
      reads this, read, write
    {
      Grp(read.View(), write.View(), disptime, onRr)
    }
  }

  ghost function Directions(grps: seq<Group>): set<Direction> {
    (set g | g in grps :: g.read) + (set g | g in grps :: g.write)
  }

  /** The groups at `i` and `j` share nothing. */
  ghost predicate Apart(grps: seq<Group>, i: nat, j: nat)
    requires i < |grps| && j < |grps|
  {
    && grps[i].read != grps[j].write
    && (i != j ==> grps[i] != grps[j] && grps[i].read != grps[j].read && grps[i].write != grps[j].write)
  }

  ghost predicate AllApart(grps: seq<Group>) {
    forall i, j :: 0 <= i < |grps| && 0 <= j < |grps| ==> Apart(grps, i, j)
  }
}
