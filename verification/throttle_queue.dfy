/** throtl_data, updated in place: queueing bios, the service tree and the dispatch loop. */
module ThrottleQueue {
  import opened Arithmetic
  import opened Lists
  import opened ThrottleSlice
  import opened ThrottleLane
  import opened ThrottleTree
  import opened ThrottleGroup

  const GRP_QUANTUM := 8            // throtl_grp_quantum
  const QUANTUM := 32               // throtl_quantum

  /** The tree is in order, counted, its cached left end is null or the earliest group. */
  ghost predicate TreeInv(groups: seq<Grp>, tree: seq<nat>, left: Option<nat>, count: nat) {
    && TreeOk(tree, groups) && count == |tree|
    && (left.Some? ==> tree != [] && left.value == tree[0])
    && (forall g :: 0 <= g < |groups| ==> (groups[g].onRr <==> g in tree))
  }

  /** The totals are the sums over the groups. */
  ghost predicate CountInv(groups: seq<Grp>, nrRead: nat, nrWrite: nat) {
    && nrRead == Total(groups, false) && nrWrite == Total(groups, true)
    && (forall g :: 0 <= g < |groups| ==> GrpOk(groups[g]))
  }

  /** No lane has been used later than `now`. */
  ghost predicate GrpBy(g: Grp, now: nat) { g.read.clock <= now && g.write.clock <= now }

  ghost predicate UsedBy(groups: seq<Grp>, now: nat) { forall g :: 0 <= g < |groups| ==> GrpBy(groups[g], now) }

  /** A group other than `but` is on the tree exactly when it has queued bios. */
  ghost predicate ServedBut(groups: seq<Grp>, tree: seq<nat>, but: Option<nat>) {
    forall g :: 0 <= g < |groups| && Some(g) != but ==> (g in tree <==> Waiting(groups[g]))
  }

  class Throttle {
    const grps: seq<Group>
    var tree: seq<nat>
    var left: Option<nat>
    var count: nat
    var nrRead: nat
    var nrWrite: nat
    ghost var groups: seq<Grp>    // what the groups hold

    constructor (grps: seq<Group>)
      requires AllApart(grps)
      requires forall g :: 0 <= g < |grps| ==> GrpOk(grps[g].View()) && !Waiting(grps[g].View()) && !grps[g].onRr
      ensures Valid() && this.grps == grps
    {
      this.grps := grps;
      tree, left, count, nrRead, nrWrite := [], None, 0, 0, 0;
      groups := seq(|grps|, i requires 0 <= i < |grps| reads grps, Directions(grps) => grps[i].View());
      new;
      assert forall i :: 0 <= i < |grps| ==> Mirrors(i);
      TotalZero(groups, false);
      TotalZero(groups, true);
    }

    /** The group at `i` holds what `groups` says. */
    ghost predicate Mirrors(i: nat)
      requires i < |grps|
      reads this`groups, grps[i], grps[i].read, grps[i].write
    {
      i < |groups| && groups[i] == grps[i].View()
    }

    ghost predicate Mirrored()
      reads this`groups, grps, Directions(grps)
    {
      |groups| == |grps| && AllApart(grps) && forall i :: 0 <= i < |grps| ==> Mirrors(i)
    }

    ghost predicate Tree()
      reads this, grps, Directions(grps)
    {
      Mirrored() && TreeInv(groups, tree, left, count)
    }

    ghost predicate Valid()
      reads this, grps, Directions(grps)
    {
      Tree() && CountInv(groups, nrRead, nrWrite) && ServedBut(groups, tree, None)
    }

    /** Whatever was queued, dispatched and passed, each direction of each group stays below its rate. */
    lemma {:induction false} RateKept(g: nat, dir: bool)
      requires Valid() && g < |grps| && !NoRule(grps[g].At(dir).cfg)
      ensures var d := grps[g].At(dir);
              && d.born <= d.clock
              && Times(Sizes(d.sent), d.cfg.hz) <= Times(d.cfg.bps, d.clock - d.born + d.cfg.slice)
              && Times(|d.sent|, d.cfg.hz) <= Times(d.cfg.iops, d.clock - d.born + d.cfg.slice)
    {
      assert Mirrors(g) && GrpOk(groups[g]);
      LaneRate(groups[g].At(dir));
    }

    // ---- one group changes ----

    /** The flag that says whether the group is on the tree. */
    method Mark(g: nat, on: bool)
      requires Mirrored() && g < |grps|
      modifies this`groups, grps
      ensures Mirrored() && groups == old(groups)[g := old(groups)[g].(onRr := on)]
    {
      assert Mirrors(g);
      grps[g].onRr := on;
      groups := groups[g := groups[g].(onRr := on)];
      OthersKeep(g);
    }

    method SetDisptime(g: nat, t: nat)
      requires Mirrored() && g < |grps|
      modifies this`groups, grps
      ensures Mirrored() && groups == old(groups)[g := old(groups)[g].(disptime := t)]
    {
      assert Mirrors(g);
      grps[g].disptime := t;
      groups := groups[g := groups[g].(disptime := t)];
      OthersKeep(g);
    }

    method CheckFirstOf(g: nat, dir: bool, now: nat) returns (wait: Option<nat>)
      requires Mirrored() && g < |grps| && LaneOk(groups[g].At(dir)) && groups[g].At(dir).clock <= now
      modifies this`groups, Directions(grps)
      ensures Mirrored() && |groups| == |old(groups)|
      ensures var l, l' := old(groups)[g].At(dir), groups[g].At(dir);
              && groups == old(groups)[g := old(groups)[g].Put(dir, l')]
              && LaneOk(l') && l' == Rechecked(l, now) && l'.clock <= now
              && wait == (if l.bios == [] then None else Some(WaitOf(Verdicts(l, now))))
              && (Refused(l, now) ==> wait.Some? && wait.value > 0)
    {
      assert Mirrors(g);
      var d := grps[g].At(dir);
      wait := d.CheckFirst(now);
      groups := groups[g := groups[g].Put(dir, d.View())];
      assert Apart(grps, g, g);
      OthersKeep(g);
    }

    method DispatchOf(g: nat, dir: bool, now: nat, max: nat) returns (out: seq<Bio>)
      requires Mirrored() && g < |grps| && LaneOk(groups[g].At(dir)) && groups[g].At(dir).clock <= now && max > 0
      modifies this`groups, Directions(grps)
      ensures Mirrored() && |groups| == |old(groups)|
      ensures var l, l' := old(groups)[g].At(dir), groups[g].At(dir);
              && groups == old(groups)[g := old(groups)[g].Put(dir, l')]
              && LaneOk(l') && l' == Emptied(l, now, max) && l'.clock <= now
              && Gone(l, l', out) && |out| <= max && (out == [] && l.bios != [] ==> Refused(l', now))
    {
      assert Mirrors(g);
      var d := grps[g].At(dir);
      out := d.DispatchBios(now, max);
      groups := groups[g := groups[g].Put(dir, d.View())];
      assert Apart(grps, g, g);
      OthersKeep(g);
    }

    method QueueTo(g: nat, dir: bool, b: Bio)
      requires Mirrored() && g < |grps| && LaneOk(groups[g].At(dir)) && !NoRule(groups[g].At(dir).cfg)
      modifies this`groups, Directions(grps)
      ensures Mirrored() && groups == old(groups)[g := old(groups)[g].Put(dir, Queued(old(groups)[g].At(dir), b))]
    {
      assert Mirrors(g);
      var d := grps[g].At(dir);
      d.QueueBio(b);
      groups := groups[g := groups[g].Put(dir, d.View())];
      assert Apart(grps, g, g);
      OthersKeep(g);
    }

    method TryTo(g: nat, dir: bool, b: Bio, now: nat) returns (pass: bool)
      requires Mirrored() && g < |grps| && LaneOk(groups[g].At(dir)) && !NoRule(groups[g].At(dir).cfg)
      requires groups[g].At(dir).bios == [] && groups[g].At(dir).clock <= now
      modifies this`groups, Directions(grps)
      ensures Mirrored() && |groups| == |old(groups)|
      ensures var l, l' := old(groups)[g].At(dir), groups[g].At(dir);
              && groups == old(groups)[g := old(groups)[g].Put(dir, l')] && LaneOk(l')
              && (pass <==> MayDispatch(l.cfg, l.slice, b.size, now) == Pass)
              && l' == if pass then Passed(l, b, now) else Asked(l, b.size, now)
    {
      assert Mirrors(g);
      var d := grps[g].At(dir);
      pass := d.TryBio(b, now);
      groups := groups[g := groups[g].Put(dir, d.View())];
      assert Apart(grps, g, g);
      OthersKeep(g);
    }

    ghost method UnruledTo(g: nat, dir: bool, b: Bio)
      requires Mirrored() && g < |grps| && LaneOk(groups[g].At(dir)) && NoRule(groups[g].At(dir).cfg)
      modifies this`groups, Directions(grps)
      ensures Mirrored() && |groups| == |old(groups)|
      ensures var l, l' := old(groups)[g].At(dir), groups[g].At(dir);
              groups == old(groups)[g := old(groups)[g].Put(dir, l')] && LaneOk(l') && l' == Unmetered(l, b)
    {
      assert Mirrors(g);
      var d := grps[g].At(dir);
      d.Unruled(b);
      groups := groups[g := groups[g].Put(dir, d.View())];
      assert Apart(grps, g, g);
      OthersKeep(g);
    }

    /** A change to one group and its part of `groups` leaves the others in agreement. */
    twostate lemma {:induction false} OthersKeep(g: nat)
      requires old(Mirrored()) && g < |grps| && |groups| == |grps| && Mirrors(g)
      requires groups == old(groups)[g := groups[g]]
      requires forall o: Group :: o in grps && o != grps[g] ==> unchanged(o)
      requires forall d: Direction :: d in Directions(grps) && d != grps[g].read && d != grps[g].write ==> unchanged(d)
      ensures Mirrored()
    {
      forall i | 0 <= i < |grps|
        ensures Mirrors(i)
      {
        assert old(Mirrors(i)) && Apart(grps, i, g) && Apart(grps, g, i);
        assert grps[i] in grps && grps[i].read in Directions(grps) && grps[i].write in Directions(grps);
      }
    }

    // ---- the service tree ----

    /** throtl_rb_first */
    method RbFirst() returns (g: Option<nat>)
      requires Tree()
      modifies this`left
      ensures Tree() && g == if tree == [] then None else Some(tree[0])
    {
      if count == 0 {
        return None;
      }
      if left.None? {
        left := Some(tree[0]);
      }
      g := left;
    }

    /** tg_service_tree_add: walk down from the left; at the left end the cache is set. */
    method ServiceTreeAdd(g: nat)
      requires Mirrored() && TreeOk(tree, groups) && g < |groups| && g !in tree
      requires left.Some? ==> tree != [] && left.value == tree[0]
      modifies this`tree, this`left
      ensures tree == Added(old(tree), g, groups) && TreeOk(tree, groups) && |tree| == |old(tree)| + 1
      ensures left.Some? ==> left.value == tree[0]
    {
      AddedOk(tree, g, groups);
      assert Mirrors(g);
      var k := FindPlace(grps[g].disptime);
      if k == 0 {
        left := Some(g);
      }
      tree := tree[..k] + [g] + tree[k..];
    }

    method FindPlace(key: nat) returns (k: nat)
      requires Mirrored() && Nodes(tree, |groups|)
      ensures k == Place(tree, key, groups, 0)
    {
      k := 0;
      while k < |tree| && key >= grps[tree[k]].disptime
        invariant 0 <= k <= |tree|
        invariant Place(tree, key, groups, 0) == Place(tree, key, groups, k)
      {
        assert Mirrors(tree[k]);
        k := k + 1;
      }
      assert k < |tree| ==> Mirrors(tree[k]);
    }

    /** throtl_enqueue_tg */
    method Enqueue(g: nat)
      requires Tree() && g < |groups|
      modifies this`groups, this`tree, this`left, this`count, grps
      ensures Tree() && groups == old(groups)[g := old(groups)[g].(onRr := true)]
      ensures tree == if g in old(tree) then old(tree) else Added(old(tree), g, groups)
      ensures forall x :: x in tree <==> x in old(tree) || x == g
    {
      assert Mirrors(g);
      if !grps[g].onRr {
        TreeFrame(tree, groups, g, groups[g].(onRr := true));
        Mark(g, true);
        ServiceTreeAdd(g);
        count := count + 1;
      } else {
        assert groups == groups[g := groups[g].(onRr := true)];
      }
    }

    /** throtl_dequeue_tg */
    method Dequeue(g: nat)
      requires Tree() && g < |groups|
      modifies this`groups, this`tree, this`left, this`count, grps
      ensures Tree() && groups == old(groups)[g := old(groups)[g].(onRr := false)]
      ensures tree == Without(old(tree), g) && g !in tree
    {
      RemovedOk(tree, g, groups);
      assert Mirrors(g);
      if grps[g].onRr {
        if left == Some(g) {
          left := None;
        }
        tree := Without(tree, g);
        count := count - 1;
        TreeFrame(tree, groups, g, groups[g].(onRr := false));
        Mark(g, false);
      } else {
        assert groups == groups[g := groups[g].(onRr := false)];
      }
    }

    /** tg_update_disptime: the earliest time at which a first bio may pass. */
    method UpdateDisptime(g: nat, now: nat)
      requires Tree() && g < |groups| && GrpOk(groups[g]) && Waiting(groups[g]) && GrpBy(groups[g], now)
      modifies this`groups, this`tree, this`left, this`count, grps, Directions(grps)
      ensures Tree() && |groups| == |old(groups)| && Retimed(old(groups)[g], groups[g], now)
      ensures groups == old(groups)[g := groups[g]] && TimedBy(old(groups)[g], groups[g], now)
      ensures Nodes(Without(old(tree), g), |groups|) && tree == Added(Without(old(tree), g), g, groups)
    {
      ghost var grp := groups[g];
      var readWait, writeWait := CheckBoth(g, now);
      var wait := Least(readWait, writeWait);
      RetimedIs(grp, readWait, writeWait, wait, now);
      Replace(g, now + wait);
    }

    /** Both slices brought up to date and the waits of the first bios. */
    method CheckBoth(g: nat, now: nat) returns (readWait: Option<nat>, writeWait: Option<nat>)
      requires Tree() && g < |groups| && GrpOk(groups[g]) && GrpBy(groups[g], now)
      modifies this`groups, grps, Directions(grps)
      ensures Tree() && |groups| == |old(groups)| && groups == old(groups)[g := groups[g]]
      ensures var grp := old(groups)[g];
              && groups[g] == grp.(read := Rechecked(grp.read, now), write := Rechecked(grp.write, now))
              && GrpOk(groups[g]) && GrpBy(groups[g], now)
              && readWait == (if grp.read.bios == [] then None else Some(WaitOf(Verdicts(grp.read, now))))
              && writeWait == (if grp.write.bios == [] then None else Some(WaitOf(Verdicts(grp.write, now))))
              && (Refused(grp.read, now) ==> readWait.Some? && readWait.value > 0)
              && (Refused(grp.write, now) ==> writeWait.Some? && writeWait.value > 0)
    {
      readWait := CheckFirstOf(g, false, now);
      writeWait := CheckFirstOf(g, true, now);
      TreeFrame(tree, old(groups), g, groups[g]);
      assert groups == old(groups)[g := groups[g]];
    }

    /** What the callers of UpdateDisptime rely on. */
    method PutOff(g: nat, now: nat)
      requires Tree() && g < |groups| && GrpOk(groups[g]) && Waiting(groups[g]) && GrpBy(groups[g], now)
      modifies this`groups, this`tree, this`left, this`count, grps, Directions(grps)
      ensures Tree() && |groups| == |old(groups)| && Retimed(old(groups)[g], groups[g], now)
      ensures groups == old(groups)[g := groups[g]]
      ensures forall x :: x in tree <==> x in old(tree) || x == g
      ensures g !in old(tree) ==> Nodes(old(tree), |groups|) && tree == Added(old(tree), g, groups)
    {
      RemovedOk(tree, g, groups);
      UpdateDisptime(g, now);
    }

    /** Off the tree, and on again at another time. */
    method Replace(g: nat, t: nat)
      requires Tree() && g < |groups|
      modifies this`groups, this`tree, this`left, this`count, grps
      ensures Tree() && groups == old(groups)[g := old(groups)[g].(disptime := t, onRr := true)]
      ensures Nodes(Without(old(tree), g), |groups|) && tree == Added(Without(old(tree), g), g, groups)
    {
      Dequeue(g);
      TreeFrame(tree, groups, g, groups[g].(disptime := t));
      SetDisptime(g, t);
      Enqueue(g);
    }

    /** throtl_dispatch_tg: at most six reads, then at most two writes. */
    method DispatchTg(g: nat, now: nat) returns (out: seq<Bio>)
      requires Tree() && CountInv(groups, nrRead, nrWrite) && g < |groups| && g !in tree && GrpBy(groups[g], now)
      modifies this`groups, this`nrRead, this`nrWrite, grps, Directions(grps)
      ensures Tree() && CountInv(groups, nrRead, nrWrite)
      ensures |groups| == |old(groups)| && groups == old(groups)[g := groups[g]]
      ensures Thinned(old(groups)[g], groups[g], out, now)
      ensures nrRead + nrWrite + |out| == old(nrRead) + old(nrWrite)
    {
      ghost var before := groups;
      assert GrpOk(groups[g]);
      var outRead, outWrite := DispatchBoth(g, now);
      DispatchCounts(before, groups, g, outRead, outWrite, nrRead, nrWrite, now);
      nrRead, nrWrite := nrRead - |outRead|, nrWrite - |outWrite|;
      out := outRead + outWrite;
    }

    method DispatchBoth(g: nat, now: nat) returns (outRead: seq<Bio>, outWrite: seq<Bio>)
      requires Tree() && g < |groups| && GrpOk(groups[g]) && GrpBy(groups[g], now)
      modifies this`groups, grps, Directions(grps)
      ensures Tree() && |groups| == |old(groups)| && groups == old(groups)[g := groups[g]]
      ensures BothEmptied(old(groups)[g], groups[g], outRead, outWrite, now)
    {
      var maxReads := GRP_QUANTUM * 3 / 4;
      outRead := DispatchOf(g, false, now, maxReads);
      outWrite := DispatchOf(g, true, now, GRP_QUANTUM - maxReads);
      TreeFrame(tree, old(groups), g, groups[g]);
      assert groups == old(groups)[g := groups[g]];
    }

    /** One turn of throtl_select_dispatch: serve the earliest group. */
    method ServeFirst(g: nat, now: nat) returns (out: seq<Bio>)
      requires Valid() && UsedBy(groups, now) && tree != [] && tree[0] == g && groups[g].disptime <= now
      modifies this, grps, Directions(grps)
      ensures Valid() && UsedBy(groups, now)
      ensures |groups| == |old(groups)| && groups == old(groups)[g := groups[g]]
      ensures |out| <= GRP_QUANTUM && nrRead + nrWrite + |out| == old(nrRead) + old(nrWrite)
      ensures Left(old(groups)[g], groups[g], out)
      ensures out == [] ==> Due(tree, groups, now) < old(Due(tree, groups, now))
      ensures GrpOk(groups[g]) && (Waiting(groups[g]) ==> Timely(groups[g], now))
    {
      HeadWaiting(groups, tree, g);
      ghost var before := groups;
      assert GrpBy(groups[g], now);
      out := Thin(g, now);
      ghost var thin := groups;
      PutBack(g, now);
      LeftSame(before[g], thin[g], groups[g], out);
      UsedStep(before, groups, g, now);
    }

    /** Off the tree, and its lists thinned. */
    method Thin(g: nat, now: nat) returns (out: seq<Bio>)
      requires Valid() && tree != [] && tree[0] == g && g < |groups| && groups[g].disptime <= now
      requires GrpBy(groups[g], now)
      modifies this, grps, Directions(grps)
      ensures Tree() && CountInv(groups, nrRead, nrWrite) && ServedBut(groups, tree, Some(g))
      ensures g !in tree && g < |groups| == |old(groups)| && groups == old(groups)[g := groups[g]]
      ensures |out| <= GRP_QUANTUM && nrRead + nrWrite + |out| == old(nrRead) + old(nrWrite)
      ensures Left(old(groups)[g], groups[g], out) && (out == [] ==> AllRefused(groups[g], now))
      ensures GrpBy(groups[g], now)
      ensures Due(tree, groups, now) + 1 == old(Due(tree, groups, now))
    {
      ghost var before := groups;
      Off(g);
      ghost var off := groups;
      out := DispatchTg(g, now);
      StillServed(off, groups, tree, g);
      ThinnedLeft(before[g], off[g], groups[g], out, now);
      HeadOff(before, groups, old(tree), g, now);
    }

    /** Back on the tree at its new time, if bios are left. */
    method PutBack(g: nat, now: nat)
      requires Tree() && CountInv(groups, nrRead, nrWrite) && ServedBut(groups, tree, Some(g))
      requires g < |groups| && g !in tree && GrpBy(groups[g], now)
      modifies this`groups, this`tree, this`left, this`count, grps, Directions(grps)
      ensures Valid() && |groups| == |old(groups)| && groups == old(groups)[g := groups[g]] && GrpBy(groups[g], now)
      ensures SameBios(old(groups)[g].read, groups[g].read) && SameBios(old(groups)[g].write, groups[g].write)
      ensures Due(tree, groups, now) <= old(Due(tree, groups, now)) + 1
      ensures AllRefused(old(groups)[g], now) ==> Due(tree, groups, now) <= old(Due(tree, groups, now))
      ensures GrpOk(groups[g]) && (Waiting(groups[g]) ==> Timely(groups[g], now))
    {
      ghost var before, rest := groups, tree;
      assert GrpOk(groups[g]);
      assert Mirrors(g);
      if grps[g].read.nr > 0 || grps[g].write.nr > 0 {
        Rejoin(g, now);
        DueBack(before, groups, rest, g, now);
      }
    }

    method Rejoin(g: nat, now: nat)
      requires Tree() && CountInv(groups, nrRead, nrWrite) && ServedBut(groups, tree, Some(g))
      requires g < |groups| && g !in tree && GrpOk(groups[g]) && Waiting(groups[g]) && GrpBy(groups[g], now)
      modifies this`groups, this`tree, this`left, this`count, grps, Directions(grps)
      ensures Valid() && |groups| == |old(groups)| && groups == old(groups)[g := groups[g]] && GrpBy(groups[g], now)
      ensures SameBios(old(groups)[g].read, groups[g].read) && SameBios(old(groups)[g].write, groups[g].write)
      ensures Nodes(old(tree), |groups|) && tree == Added(old(tree), g, groups)
      ensures AllRefused(old(groups)[g], now) ==> groups[g].disptime > now
      ensures GrpOk(groups[g]) && Timely(groups[g], now)
    {
      ghost var before, rest := groups, tree;
      PutOff(g, now);
      RetimedKeeps(before, groups, g, nrRead, nrWrite, now);
      ServedPlus(before, groups, rest, tree, g);
      EnqueueWaiting(g);
    }

    /** The head of the tree taken off. */
    method Off(g: nat)
      requires Valid() && tree != [] && tree[0] == g
      modifies this`groups, this`tree, this`left, this`count, grps, Directions(grps)
      ensures Tree() && CountInv(groups, nrRead, nrWrite) && ServedBut(groups, tree, Some(g))
      ensures tree == old(tree)[1..] && g !in tree && groups == old(groups)[g := old(groups)[g].(onRr := false)]
    {
      RemovedOk(tree, g, groups);
      CountUpdate(groups, g, groups[g].(onRr := false), nrRead, nrWrite);
      Dequeue(g);
    }

    /**
      * throtl_select_dispatch with the clock standing still: it ends, and then either the quantum is used
      * up or no group is due. `from` says where each bio handed on came from: per group and direction
      * they are, in order, what the list has lost at its front.
      */
    method SelectDispatch(now: nat) returns (out: seq<Bio>, ghost from: seq<Origin>)
      requires Valid() && UsedBy(groups, now)
      modifies this, grps, Directions(grps)
      ensures Valid() && UsedBy(groups, now) && |groups| == |old(groups)|
      ensures nrRead + nrWrite + |out| == old(nrRead) + old(nrWrite) && |out| < 40
      ensures |out| >= 32 || forall i :: 0 <= i < |tree| ==> now < groups[tree[i]].disptime
      ensures Handed(old(groups), groups, out, from)
    {
      out, from := [], [];
      while true
        invariant Valid() && UsedBy(groups, now) && |groups| == |old(groups)| && |out| < QUANTUM
        invariant nrRead + nrWrite + |out| == old(nrRead) + old(nrWrite)
        invariant Handed(old(groups), groups, out, from)
        decreases QUANTUM - |out|, Due(tree, groups, now)
      {
        var g := FirstDue(now);
        if g.None? {
          return;
        }
        var more;
        ghost var origins;
        more, origins := ServeNext(g.value, now, old(groups), out, from);
        out, from := out + more, from + origins;
        if |out| >= QUANTUM {
          return;
        }
      }
    }

    /** The earliest group, if it is due; if it is not, none is. */
    method FirstDue(now: nat) returns (g: Option<nat>)
      requires Valid()
      modifies this`left
      ensures Valid()
      ensures g.Some? ==> tree != [] && tree[0] == g.value && g.value < |groups| && groups[g.value].disptime <= now
      ensures g.None? ==> forall i :: 0 <= i < |tree| ==> now < groups[tree[i]].disptime
    {
      g := RbFirst();
      if g.Some? {
        assert Mirrors(g.value);
        if now < grps[g.value].disptime {
          NoneDue(tree, groups, now);
          g := None;
        }
      }
    }

    /** A turn that also notes where the bios came from. */
    method ServeNext(g: nat, now: nat, ghost start: seq<Grp>, ghost out: seq<Bio>, ghost from: seq<Origin>)
      returns (more: seq<Bio>, ghost origins: seq<Origin>)
      requires Valid() && UsedBy(groups, now) && tree != [] && tree[0] == g && groups[g].disptime <= now
      requires Handed(start, groups, out, from)
      modifies this, grps, Directions(grps)
      ensures Valid() && UsedBy(groups, now) && |groups| == |old(groups)| && |more| <= GRP_QUANTUM
      ensures nrRead + nrWrite + |more| == old(nrRead) + old(nrWrite)
      ensures more == [] ==> Due(tree, groups, now) < old(Due(tree, groups, now))
      ensures Handed(start, groups, out + more, from + origins)
    {
      ghost var before := groups;
      more := ServeFirst(g, now);
      origins := Origins(before[g], groups[g], g);
      HandMore(start, before, groups, g, out, from, more);
    }

    /** throtl_add_bio_tg */
    method AddBio(g: nat, dir: bool, b: Bio)
      requires Valid() && g < |groups| && !NoRule(groups[g].At(dir).cfg)
      modifies this, grps, Directions(grps)
      ensures Valid() && g in tree && |groups| == |old(groups)| && groups == old(groups)[g := groups[g]]
      ensures groups[g] == old(groups)[g].Put(dir, Queued(old(groups)[g].At(dir), b)).(onRr := true)
    {
      ghost var before := groups;
      Append(g, dir, b);
      StillServed(before, groups, tree, g);
      EnqueueWaiting(g);
    }

    method EnqueueWaiting(g: nat)
      requires Tree() && CountInv(groups, nrRead, nrWrite) && ServedBut(groups, tree, Some(g))
      requires g < |groups| && Waiting(groups[g])
      modifies this`groups, this`tree, this`left, this`count, grps, Directions(grps)
      ensures Valid() && g in tree && groups == old(groups)[g := old(groups)[g].(onRr := true)]
      ensures g in old(tree) ==> tree == old(tree)
    {
      ghost var before, rest := groups, tree;
      Marked(groups, g, nrRead, nrWrite);
      Enqueue(g);
      BackOn(before, groups, rest, tree, g);
    }

    method Append(g: nat, dir: bool, b: Bio)
      requires Tree() && CountInv(groups, nrRead, nrWrite) && g < |groups| && !NoRule(groups[g].At(dir).cfg)
      modifies this`groups, this`nrRead, this`nrWrite, grps, Directions(grps)
      ensures Tree() && CountInv(groups, nrRead, nrWrite)
      ensures groups == old(groups)[g := old(groups)[g].Put(dir, Queued(old(groups)[g].At(dir), b))]
    {
      assert GrpOk(groups[g]);
      OneMore(groups, g, dir, b, nrRead, nrWrite);
      TreeFrame(tree, groups, g, groups[g].Put(dir, Queued(groups[g].At(dir), b)));
      QueueTo(g, dir, b);
      if dir {
        nrWrite := nrWrite + 1;
      } else {
        nrRead := nrRead + 1;
      }
    }

    /** Retiming keeps everything in agreement. */
    method Retime(g: nat, now: nat)
      requires Valid() && g < |groups| && g in tree && GrpBy(groups[g], now)
      modifies this`groups, this`tree, this`left, this`count, grps, Directions(grps)
      ensures Valid() && |groups| == |old(groups)| && groups == old(groups)[g := groups[g]] && GrpBy(groups[g], now)
      ensures SameBios(old(groups)[g].read, groups[g].read) && SameBios(old(groups)[g].write, groups[g].write)
      ensures GrpOk(groups[g]) && Timely(groups[g], now)
    {
      ghost var before, rest := groups, tree;
      assert GrpOk(groups[g]);
      PutOff(g, now);
      RetimedKeeps(before, groups, g, nrRead, nrWrite, now);
      OnAgain(before, groups, rest, tree, g);
    }

    /**
      * blk_throtl_bio: the bio passes when it has been throttled before, when its group has no rule, or when
      * nothing waits in its direction and the limits allow it now; else it joins the end of its list.
      */
    method ThrottleBio(g: nat, dir: bool, b: Bio, throttled: bool, now: nat) returns (passes: bool)
      requires Valid() && UsedBy(groups, now) && g < |groups|
      modifies this, grps, Directions(grps)
      ensures Valid() && UsedBy(groups, now)
      ensures |groups| == |old(groups)| && groups == old(groups)[g := groups[g]]
      ensures var l := old(groups)[g].At(dir);
              passes <==> throttled || NoRule(l.cfg)
                          || (l.bios == [] && Sane(l.cfg) && MayDispatch(l.cfg, l.slice, b.size, now) == Pass)
      ensures throttled ==> groups == old(groups)
      ensures !throttled ==> Submitted(old(groups)[g].At(dir), groups[g].At(dir), b, passes)
      ensures Same(old(groups)[g].At(!dir), groups[g].At(!dir))
      ensures GrpOk(groups[g]) && if !passes && old(groups)[g].At(dir).bios == [] then Timely(groups[g], now)
                                  else groups[g].disptime == old(groups)[g].disptime
    {
      if throttled {
        assert groups == groups[g := groups[g]];
        return true;
      }
      assert Mirrors(g) && GrpOk(groups[g]);
      if NoRule(grps[g].At(dir).cfg) {
        UnruledTo(g, dir, b);
        Touched(old(groups), groups, tree, left, count, nrRead, nrWrite, g);
        return true;
      }
      if grps[g].At(dir).nr > 0 {
        AddBio(g, dir, b);
        return false;
      }
      passes := FirstBio(g, dir, b, now);
    }

    /** A bio with none queued before it: passed and charged, or queued with a new dispatch time. */
    method FirstBio(g: nat, dir: bool, b: Bio, now: nat) returns (passes: bool)
      requires Valid() && g < |groups| && Sane(groups[g].At(dir).cfg) && !NoRule(groups[g].At(dir).cfg)
      requires groups[g].At(dir).bios == [] && GrpBy(groups[g], now)
      modifies this, grps, Directions(grps)
      ensures Valid() && |groups| == |old(groups)| && groups == old(groups)[g := groups[g]] && GrpBy(groups[g], now)
      ensures var l := old(groups)[g].At(dir); passes <==> MayDispatch(l.cfg, l.slice, b.size, now) == Pass
      ensures Submitted(old(groups)[g].At(dir), groups[g].At(dir), b, passes)
      ensures Same(old(groups)[g].At(!dir), groups[g].At(!dir))
      ensures GrpOk(groups[g]) && (!passes ==> Timely(groups[g], now))
      ensures passes ==> groups[g].disptime == old(groups)[g].disptime
    {
      assert GrpOk(groups[g]);
      passes := TryTo(g, dir, b, now);
      Touched(old(groups), groups, tree, left, count, nrRead, nrWrite, g);
      if passes {
        return;
      }
      AddBio(g, dir, b);
      Retime(g, now);
    }

    /** throtl_schedule_next_dispatch: with bios queued there is a group to wait for. */
    method ScheduleNext(now: nat) returns (delay: Option<nat>)
      requires Valid()
      modifies this`left
      ensures Valid() && (delay.None? <==> nrRead + nrWrite == 0)
      ensures delay.Some? ==> forall i :: 0 <= i < |tree| ==> now + delay.value <= groups[tree[i]].disptime
                                                              || delay.value == 0
      ensures delay.Some? ==> exists i :: 0 <= i < |tree| && groups[tree[i]].disptime <= now + delay.value
    {
      if nrRead + nrWrite == 0 {
        return None;
      }
      SomeWaits(groups, tree, nrRead, nrWrite);
      assert count != 0;
      var first := RbFirst();
      HeadLeast(tree, groups);
      assert Mirrors(first.value);
      var t := grps[first.value].disptime;
      delay := if t <= now then Some(0) else Some(t - now);
    }
  }

  method Least(a: Option<nat>, b: Option<nat>) returns (w: nat)
    requires a.Some? || b.Some?
    ensures a == Some(w) || b == Some(w)
    ensures (a.Some? ==> w <= a.value) && (b.Some? ==> w <= b.value)
  {
    if a.Some? && (b.None? || a.value <= b.value) {
      w := a.value;
    } else {
      w := b.value;
    }
  }

  /** The dispatch time is when the first of the waiting bios may pass, reckoned at `now`. */
  ghost predicate Timely(g: Grp, now: nat)
    requires Sane(g.read.cfg) && Sane(g.write.cfg)
  {
    && (g.read.bios != [] ==> g.disptime <= now + WaitOf(Verdicts(g.read, now)))
    && (g.write.bios != [] ==> g.disptime <= now + WaitOf(Verdicts(g.write, now)))
    && ((g.read.bios != [] && g.disptime == now + WaitOf(Verdicts(g.read, now)))
        || (g.write.bios != [] && g.disptime == now + WaitOf(Verdicts(g.write, now))))
  }

  /** Asked again, the first bios get the same answers. */
  lemma {:induction false} RecheckedSame(l: Lane, now: nat)
    requires LaneOk(l) && l.clock <= now && l.bios != []
    ensures Sane(Rechecked(l, now).cfg) && Verdicts(Rechecked(l, now), now) == Verdicts(l, now)
  {
    CheckedOk(l, now);
  }

  lemma {:induction false} TimelyIs(g: Grp, g': Grp, now: nat)
    requires GrpOk(g) && Waiting(g) && GrpBy(g, now) && TimedBy(g, g', now)
    ensures Sane(g'.read.cfg) && Sane(g'.write.cfg) && Timely(g', now)
  {
    if g.read.bios != [] {
      RecheckedSame(g.read, now);
    }
    if g.write.bios != [] {
      RecheckedSame(g.write, now);
    }
  }

  /** Only slices and the dispatch time change; with every first bio refused the time is later than now. */
  ghost predicate Retimed(g: Grp, g': Grp, now: nat)
    requires GrpOk(g)
  {
    && GrpOk(g') && GrpBy(g', now) && g'.onRr && g'.disptime >= now
    && SameBios(g.read, g'.read) && SameBios(g.write, g'.write)
    && (AllRefused(g, now) ==> g'.disptime > now) && Timely(g', now)
  }

  /** The dispatch time is exactly when the first of the first bios may pass. */
  ghost predicate TimedBy(g: Grp, g': Grp, now: nat)
    requires GrpOk(g) && Waiting(g)
  {
    g' == Grp(Rechecked(g.read, now), Rechecked(g.write, now), now + MinWait(g, now), true)
  }

  /** The shorter of the waits of the first bios there are. */
  function MinWait(g: Grp, now: nat): nat
    requires Sane(g.read.cfg) && Sane(g.write.cfg) && Waiting(g)
  {
    if g.write.bios == [] then WaitOf(Verdicts(g.read, now))
    else if g.read.bios == [] then WaitOf(Verdicts(g.write, now))
    else
      var r, w := WaitOf(Verdicts(g.read, now)), WaitOf(Verdicts(g.write, now));
      if r <= w then r else w
  }

  lemma {:induction false} RetimedIs(g: Grp, readWait: Option<nat>, writeWait: Option<nat>, wait: nat, now: nat)
    requires GrpOk(g) && Waiting(g) && GrpBy(g, now)
    requires GrpOk(g.(read := Rechecked(g.read, now), write := Rechecked(g.write, now)))
    requires readWait == if g.read.bios == [] then None else Some(WaitOf(Verdicts(g.read, now)))
    requires writeWait == if g.write.bios == [] then None else Some(WaitOf(Verdicts(g.write, now)))
    requires Refused(g.read, now) ==> readWait.Some? && readWait.value > 0
    requires Refused(g.write, now) ==> writeWait.Some? && writeWait.value > 0
    requires readWait == Some(wait) || writeWait == Some(wait)
    requires (readWait.Some? ==> wait <= readWait.value) && (writeWait.Some? ==> wait <= writeWait.value)
    ensures var g' := Grp(Rechecked(g.read, now), Rechecked(g.write, now), now + wait, true);
            Retimed(g, g', now) && TimedBy(g, g', now)
  {
    TimelyIs(g, Grp(Rechecked(g.read, now), Rechecked(g.write, now), now + wait, true), now);
  }

  ghost predicate SameBios(l: Lane, l': Lane) {
    l'.bios == l.bios && l'.cfg == l.cfg && l'.arrived == l.arrived && l'.sent == l.sent
  }

  ghost predicate AllRefused(g: Grp, now: nat)
    requires GrpOk(g)
  {
    (g.read.bios != [] ==> Refused(g.read, now)) && (g.write.bios != [] ==> Refused(g.write, now))
  }

  /** `out` has left the front of the two lists; nothing left only if every first bio was refused. */
  ghost predicate Thinned(g: Grp, g': Grp, out: seq<Bio>, now: nat) {
    && GrpOk(g) && GrpOk(g') && GrpBy(g', now) && |out| <= GRP_QUANTUM
    && g' == g.(read := Emptied(g.read, now, GRP_QUANTUM * 3 / 4),
                write := Emptied(g.write, now, GRP_QUANTUM - GRP_QUANTUM * 3 / 4))
    && g'.read.arrived == g.read.arrived && g'.write.arrived == g.write.arrived
    && g.read.sent <= g'.read.sent && g.write.sent <= g'.write.sent
    && out == g'.read.sent[|g.read.sent|..] + g'.write.sent[|g.write.sent|..]
    && (out == [] ==> AllRefused(g', now))
  }

  /** A turn of a group hands on up to six reads and up to two writes, and fewer only where the next must wait. */
  lemma {:induction false} TurnShares(g: Grp, g': Grp, out: seq<Bio>, now: nat)
    requires Thinned(g, g', out, now) && GrpBy(g, now)
    ensures |g'.read.bios| <= |g.read.bios| <= |g'.read.bios| + 6
    ensures g'.read.bios == [] || |g.read.bios| == |g'.read.bios| + 6 || Refused(g'.read, now)
    ensures |g'.write.bios| <= |g.write.bios| <= |g'.write.bios| + 2
    ensures g'.write.bios == [] || |g.write.bios| == |g'.write.bios| + 2 || Refused(g'.write, now)
  {
    Shares(g, g', now, GRP_QUANTUM * 3 / 4, GRP_QUANTUM - GRP_QUANTUM * 3 / 4);
  }

  lemma {:induction false} Shares(g: Grp, g': Grp, now: nat, maxReads: nat, maxWrites: nat)
    requires GrpOk(g) && GrpOk(g') && GrpBy(g, now)
    requires g' == g.(read := Emptied(g.read, now, maxReads), write := Emptied(g.write, now, maxWrites))
    ensures |g'.read.bios| <= |g.read.bios| <= |g'.read.bios| + maxReads
    ensures g'.read.bios == [] || |g.read.bios| == |g'.read.bios| + maxReads || Refused(g'.read, now)
    ensures |g'.write.bios| <= |g.write.bios| <= |g'.write.bios| + maxWrites
    ensures g'.write.bios == [] || |g.write.bios| == |g'.write.bios| + maxWrites || Refused(g'.write, now)
  {
    EmptiedStops(g.read, now, maxReads);
    EmptiedStops(g.write, now, maxWrites);
  }

  /** Both loops of throtl_dispatch_tg are over. */
  ghost predicate BothEmptied(g: Grp, g': Grp, outRead: seq<Bio>, outWrite: seq<Bio>, now: nat)
    requires GrpOk(g)
  {
    && GrpOk(g') && GrpBy(g', now) && |outRead| + |outWrite| <= GRP_QUANTUM
    && g' == g.(read := Emptied(g.read, now, GRP_QUANTUM * 3 / 4),
                write := Emptied(g.write, now, GRP_QUANTUM - GRP_QUANTUM * 3 / 4))
    && Gone(g.read, g'.read, outRead) && Gone(g.write, g'.write, outWrite)
    && (outRead == [] && g.read.bios != [] ==> Refused(g'.read, now))
    && (outWrite == [] && g.write.bios != [] ==> Refused(g'.write, now))
  }

  lemma {:induction false} ThinnedIs(g: Grp, g': Grp, outRead: seq<Bio>, outWrite: seq<Bio>, now: nat)
    requires GrpOk(g) && BothEmptied(g, g', outRead, outWrite, now)
    ensures Thinned(g, g', outRead + outWrite, now)
    ensures |g'.read.bios| == |g.read.bios| - |outRead| && |g'.write.bios| == |g.write.bios| - |outWrite|
  {
    assert g'.read.sent[|g.read.sent|..] == outRead && g'.write.sent[|g.write.sent|..] == outWrite;
  }

  lemma {:induction false} DispatchCounts(before: seq<Grp>, after: seq<Grp>, g: nat, outRead: seq<Bio>,
                                          outWrite: seq<Bio>, nrRead: nat, nrWrite: nat, now: nat)
    requires CountInv(before, nrRead, nrWrite) && g < |before| == |after| && after == before[g := after[g]]
    requires GrpOk(before[g]) && BothEmptied(before[g], after[g], outRead, outWrite, now)
    ensures Thinned(before[g], after[g], outRead + outWrite, now)
    ensures nrRead >= |outRead| && nrWrite >= |outWrite|
    ensures CountInv(after, nrRead - |outRead|, nrWrite - |outWrite|)
  {
    ThinnedIs(before[g], after[g], outRead, outWrite, now);
    CountUpdate(before, g, after[g], nrRead, nrWrite);
  }

  lemma {:induction false} CountUpdate(groups: seq<Grp>, i: nat, g: Grp, nrRead: nat, nrWrite: nat)
    requires CountInv(groups, nrRead, nrWrite) && i < |groups| && GrpOk(g)
    requires |g.read.bios| <= |groups[i].read.bios| && |g.write.bios| <= |groups[i].write.bios|
    ensures nrRead >= |groups[i].read.bios| - |g.read.bios| && nrWrite >= |groups[i].write.bios| - |g.write.bios|
    ensures CountInv(groups[i := g], nrRead - (|groups[i].read.bios| - |g.read.bios|),
                     nrWrite - (|groups[i].write.bios| - |g.write.bios|))
  {
    TotalUpdate(groups, i, g, false);
    TotalUpdate(groups, i, g, true);
    TotalAtLeast(groups, i, false);
    TotalAtLeast(groups, i, true);
  }

  /** What left is what the two histories gained; nothing arrived. */
  ghost predicate Left(g: Grp, g': Grp, out: seq<Bio>) {
    OnlySent(g, g') && out == g'.read.sent[|g.read.sent|..] + g'.write.sent[|g.write.sent|..]
  }

  ghost predicate OnlySent(g: Grp, g': Grp) {
    && g'.read.arrived == g.read.arrived && g'.write.arrived == g.write.arrived
    && g.read.sent <= g'.read.sent && g.write.sent <= g'.write.sent
  }

  /** The group and direction a bio came from. */
  datatype Origin = Origin(g: nat, dir: bool)

  /** The bios of `out` that came from one group and direction. */
  ghost function Pick(out: seq<Bio>, from: seq<Origin>, o: Origin): seq<Bio>
    requires |out| == |from|
  {
    if out == [] then [] else (if from[0] == o then [out[0]] else []) + Pick(out[1..], from[1..], o)
  }

  ghost predicate HandedAt(g: Grp, g': Grp, out: seq<Bio>, from: seq<Origin>, i: nat)
    requires |out| == |from|
  {
    && g'.read.arrived == g.read.arrived && g'.write.arrived == g.write.arrived
    && g'.read.sent == g.read.sent + Pick(out, from, Origin(i, false))
    && g'.write.sent == g.write.sent + Pick(out, from, Origin(i, true))
  }

  /** Every list has sent exactly what was picked from it. */
  ghost predicate Handed(start: seq<Grp>, after: seq<Grp>, out: seq<Bio>, from: seq<Origin>) {
    && |start| == |after| && |out| == |from|
    && forall i :: 0 <= i < |start| ==> HandedAt(start[i], after[i], out, from, i)
  }

  ghost function Origins(g: Grp, g': Grp, i: nat): seq<Origin>
    requires OnlySent(g, g')
  {
    Repeat(|g'.read.sent| - |g.read.sent|, Origin(i, false)) + Repeat(|g'.write.sent| - |g.write.sent|, Origin(i, true))
  }

  ghost function Repeat(n: nat, o: Origin): (f: seq<Origin>)
    ensures |f| == n && forall k :: 0 <= k < n ==> f[k] == o
  {
    if n == 0 then [] else [o] + Repeat(n - 1, o)
  }

  lemma {:induction false} PickAppend(a: seq<Bio>, fa: seq<Origin>, b: seq<Bio>, fb: seq<Origin>, o: Origin)
    requires |a| == |fa| && |b| == |fb|
    ensures Pick(a + b, fa + fb, o) == Pick(a, fa, o) + Pick(b, fb, o)
  {
    if a == [] {
      assert a + b == b && fa + fb == fb;
    } else {
      assert (a + b)[1..] == a[1..] + b && (fa + fb)[1..] == fa[1..] + fb;
      PickAppend(a[1..], fa[1..], b, fb, o);
    }
  }

  lemma {:induction false} PickSame(b: seq<Bio>, f: seq<Origin>, from: Origin, o: Origin)
    requires |b| == |f| && forall i :: 0 <= i < |f| ==> f[i] == from
    ensures Pick(b, f, o) == if from == o then b else []
  {
    if b != [] {
      PickSame(b[1..], f[1..], from, o);
      assert b == [b[0]] + b[1..];
    }
  }

  /** What one group hands on, picked apart again. */
  lemma {:induction false} PickLeft(g: Grp, g': Grp, more: seq<Bio>, i: nat, o: Origin)
    requires Left(g, g', more)
    ensures |Origins(g, g', i)| == |more|
    ensures Pick(more, Origins(g, g', i), o) ==
              if o == Origin(i, false) then g'.read.sent[|g.read.sent|..]
              else if o == Origin(i, true) then g'.write.sent[|g.write.sent|..] else []
  {
    PickTwo(g'.read.sent[|g.read.sent|..], g'.write.sent[|g.write.sent|..], i, o);
  }

  lemma {:induction false} PickTwo(r: seq<Bio>, w: seq<Bio>, i: nat, o: Origin)
    ensures Pick(r + w, Repeat(|r|, Origin(i, false)) + Repeat(|w|, Origin(i, true)), o) ==
              if o == Origin(i, false) then r else if o == Origin(i, true) then w else []
  {
    var fr, fw := Repeat(|r|, Origin(i, false)), Repeat(|w|, Origin(i, true));
    assert Pick(r + w, fr + fw, o) == Pick(r, fr, o) + Pick(w, fw, o) by {
      PickAppend(r, fr, w, fw, o);
    }
    assert Pick(r, fr, o) == if o == Origin(i, false) then r else [] by {
      PickSame(r, fr, Origin(i, false), o);
    }
    assert Pick(w, fw, o) == if o == Origin(i, true) then w else [] by {
      PickSame(w, fw, Origin(i, true), o);
    }
    assert r + [] == r && [] + w == w;
  }

  lemma {:induction false} HandMore(start: seq<Grp>, before: seq<Grp>, after: seq<Grp>, g: nat,
                                    out: seq<Bio>, from: seq<Origin>, more: seq<Bio>)
    requires Handed(start, before, out, from) && g < |after| == |before| && after == before[g := after[g]]
    requires Left(before[g], after[g], more)
    ensures Handed(start, after, out + more, from + Origins(before[g], after[g], g))
  {
    var tags := Origins(before[g], after[g], g);
    PickLeft(before[g], after[g], more, g, Origin(g, false));
    forall i | 0 <= i < |start|
      ensures HandedAt(start[i], after[i], out + more, from + tags, i)
    {
      HandOne(start[i], before[i], after[i], out, from, more, tags, i, before[g], after[g], g);
    }
  }

  lemma {:induction false} HandOne(s: Grp, b: Grp, a: Grp, out: seq<Bio>, from: seq<Origin>, more: seq<Bio>,
                                   tags: seq<Origin>, i: nat, bg: Grp, ag: Grp, g: nat)
    requires |out| == |from| && |more| == |tags| && HandedAt(s, b, out, from, i)
    requires Left(bg, ag, more) && tags == Origins(bg, ag, g)
    requires if i == g then b == bg && a == ag else a == b
    ensures HandedAt(s, a, out + more, from + tags, i)
  {
    PickLeft(bg, ag, more, g, Origin(i, false));
    PickLeft(bg, ag, more, g, Origin(i, true));
    HandLane(s.read.sent, b.read.sent, a.read.sent, out, from, more, tags, Origin(i, false));
    HandLane(s.write.sent, b.write.sent, a.write.sent, out, from, more, tags, Origin(i, true));
  }

  lemma {:induction false} HandLane(s: seq<Bio>, b: seq<Bio>, a: seq<Bio>, out: seq<Bio>, from: seq<Origin>,
                                    more: seq<Bio>, tags: seq<Origin>, o: Origin)
    requires |out| == |from| && |more| == |tags|
    requires b == s + Pick(out, from, o) && b <= a && a[|b|..] == Pick(more, tags, o)
    ensures a == s + Pick(out + more, from + tags, o)
  {
    PickAppend(out, from, more, tags, o);
    assert a == b + a[|b|..];
  }

  lemma {:induction false} ThinnedLeft(g: Grp, off: Grp, g': Grp, out: seq<Bio>, now: nat)
    requires off == g.(onRr := false) && Thinned(off, g', out, now)
    ensures Left(g, g', out) && |out| <= GRP_QUANTUM && GrpOk(g') && GrpBy(g', now)
    ensures out == [] ==> AllRefused(g', now)
  {
  }

  /** Without its head, which was due, the tree has one due group less. */
  lemma {:induction false} HeadOff(before: seq<Grp>, after: seq<Grp>, tree: seq<nat>, g: nat, now: nat)
    requires g < |before| == |after| && after == before[g := after[g]] && before[g].disptime <= now
    requires tree != [] && tree[0] == g && g !in tree[1..] && Nodes(tree, |before|) && Nodes(tree[1..], |before|)
    ensures Due(tree[1..], after, now) + 1 == Due(tree, before, now)
  {
    DueFrame(tree[1..], before, g, after[g], now);
  }

  lemma {:induction false} LeftSame(g: Grp, thin: Grp, g': Grp, out: seq<Bio>)
    requires Left(g, thin, out) && SameBios(thin.read, g'.read) && SameBios(thin.write, g'.write)
    ensures Left(g, g', out)
  {
  }

  lemma {:induction false} UsedStep(before: seq<Grp>, after: seq<Grp>, g: nat, now: nat)
    requires UsedBy(before, now) && g < |before| == |after| && after == before[g := after[g]] && GrpBy(after[g], now)
    ensures UsedBy(after, now)
  {
  }

  lemma {:induction false} HeadWaiting(groups: seq<Grp>, tree: seq<nat>, g: nat)
    requires TreeOk(tree, groups) && ServedBut(groups, tree, None) && tree != [] && tree[0] == g
    ensures g < |groups| && Waiting(groups[g])
  {
    assert g in tree;
  }

  /** A group's slices or history changed, its queued bios did not. */
  lemma {:induction false} Touched(before: seq<Grp>, after: seq<Grp>, tree: seq<nat>, left: Option<nat>, count: nat,
                                   nrRead: nat, nrWrite: nat, g: nat)
    requires TreeInv(before, tree, left, count) && CountInv(before, nrRead, nrWrite) && ServedBut(before, tree, None)
    requires g < |before| == |after| && after == before[g := after[g]] && GrpOk(after[g])
    requires after[g].disptime == before[g].disptime && after[g].onRr == before[g].onRr
    requires after[g].read.bios == before[g].read.bios && after[g].write.bios == before[g].write.bios
    ensures TreeInv(after, tree, left, count) && CountInv(after, nrRead, nrWrite) && ServedBut(after, tree, None)
  {
    TreeFrame(tree, before, g, after[g]);
    TotalUpdate(before, g, after[g], false);
    TotalUpdate(before, g, after[g], true);
  }

  /** Serving a group off the tree does not change who else is served. */
  lemma {:induction false} StillServed(before: seq<Grp>, after: seq<Grp>, tree: seq<nat>, g: nat)
    requires g < |before| == |after| && ServedBut(before, tree, Some(g)) && after == before[g := after[g]]
    ensures ServedBut(after, tree, Some(g))
  {
  }

  lemma {:induction false} ServedPlus(before: seq<Grp>, after: seq<Grp>, rest: seq<nat>, tree: seq<nat>, g: nat)
    requires g < |before| == |after| && after == before[g := after[g]] && ServedBut(before, rest, Some(g))
    requires forall x :: x in tree <==> x in rest || x == g
    ensures ServedBut(after, tree, Some(g))
  {
  }

  lemma {:induction false} BackOn(before: seq<Grp>, after: seq<Grp>, rest: seq<nat>, tree: seq<nat>, g: nat)
    requires g < |before| == |after| && after == before[g := after[g]] && ServedBut(before, rest, Some(g))
    requires Waiting(after[g]) && (forall x :: x in tree <==> x in rest || x == g)
    ensures ServedBut(after, tree, None)
  {
  }

  lemma {:induction false} DueBack(before: seq<Grp>, after: seq<Grp>, rest: seq<nat>, g: nat, now: nat)
    requires g < |before| == |after| && after == before[g := after[g]] && g !in rest
    requires Nodes(rest, |before|) && Nodes(Added(rest, g, after), |after|)
    ensures Due(Added(rest, g, after), after, now)
         == Due(rest, before, now) + (if after[g].disptime <= now then 1 else 0)
  {
    DueFrame(rest, before, g, after[g], now);
    DueAdded(rest, g, after, now);
  }

  lemma {:induction false} RetimedKeeps(before: seq<Grp>, after: seq<Grp>, g: nat, nrRead: nat, nrWrite: nat, now: nat)
    requires CountInv(before, nrRead, nrWrite) && g < |before| == |after| && after == before[g := after[g]]
    requires GrpOk(before[g]) && Retimed(before[g], after[g], now)
    ensures CountInv(after, nrRead, nrWrite)
  {
    CountUpdate(before, g, after[g], nrRead, nrWrite);
  }

  /** The bio has joined the history; it is either gone too or last in the list. */
  ghost predicate Submitted(l: Lane, l': Lane, b: Bio, passes: bool) {
    && l'.arrived == l.arrived + [b] && l'.cfg == l.cfg
    && (passes ==> l.bios == [] && l'.bios == [] && l'.sent == l.sent + [b])
    && (!passes ==> l'.bios == l.bios + [b] && l'.sent == l.sent)
  }

  ghost predicate Same(l: Lane, l': Lane) {
    l'.bios == l.bios && l'.arrived == l.arrived && l'.sent == l.sent && l'.cfg == l.cfg
  }

  lemma {:induction false} OneMore(groups: seq<Grp>, g: nat, dir: bool, b: Bio, nrRead: nat, nrWrite: nat)
    requires g < |groups| && CountInv(groups, nrRead, nrWrite) && !NoRule(groups[g].At(dir).cfg)
    ensures CountInv(groups[g := groups[g].Put(dir, Queued(groups[g].At(dir), b))],
                     if dir then nrRead else nrRead + 1, if dir then nrWrite + 1 else nrWrite)
  {
    assert GrpOk(groups[g]);
    var grp := groups[g].Put(dir, Queued(groups[g].At(dir), b));
    QueuedOk(groups[g].At(dir), b);
    TotalUpdate(groups, g, grp, false);
    TotalUpdate(groups, g, grp, true);
  }

  /** Marking a group as on the tree changes no sum. */
  lemma {:induction false} Marked(groups: seq<Grp>, g: nat, nrRead: nat, nrWrite: nat)
    requires g < |groups| && CountInv(groups, nrRead, nrWrite)
    ensures CountInv(groups[g := groups[g].(onRr := true)], nrRead, nrWrite)
  {
    TotalUpdate(groups, g, groups[g].(onRr := true), false);
    TotalUpdate(groups, g, groups[g].(onRr := true), true);
  }

  lemma {:induction false} OnAgain(before: seq<Grp>, after: seq<Grp>, rest: seq<nat>, tree: seq<nat>, g: nat)
    requires g < |before| == |after| && after == before[g := after[g]] && ServedBut(before, rest, None)
    requires Waiting(after[g]) && (forall x :: x in tree <==> x in rest || x == g)
    ensures ServedBut(after, tree, None)
  {
  }

  lemma {:induction false} SomeWaits(groups: seq<Grp>, tree: seq<nat>, nrRead: nat, nrWrite: nat)
    requires CountInv(groups, nrRead, nrWrite) && ServedBut(groups, tree, None) && nrRead + nrWrite > 0
    ensures tree != []
  {
    if tree == [] {
      forall g | g in groups
        ensures g.read.bios == [] && g.write.bios == []
      {
        var i :| 0 <= i < |groups| && groups[i] == g;
        assert !Waiting(groups[i]);
      }
      TotalZero(groups, false);
      TotalZero(groups, true);
    }
  }
}
