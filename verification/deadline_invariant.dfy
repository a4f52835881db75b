/** What every operation of the deadline scheduler keeps. */
module DeadlineInvariant {
  import opened Lists
  import opened DeadlineModel

  // ---- lists ----

  lemma {:induction false} WithoutKeeps(l: seq<Id>, r: Id, key: map<Id, nat>)
    ensures NoDup(l) ==> NoDup(Without(l, r))
    ensures Ordered(l, key) ==> Ordered(Without(l, r), key)
    ensures r !in l ==> Without(l, r) == l
    ensures NoDup(l) && r in l ==> |Without(l, r)| == |l| - 1
    ensures l != [] && l[0] == r && NoDup(l) ==> Without(l, r) == l[1..]
  {
    if l != [] {
      WithoutKeeps(l[1..], r, key);
      if NoDup(l) {
        assert l[0] !in l[1..];
        assert NoDup(l[1..]);
        if l[0] != r {
          assert l[0] !in Without(l[1..], r);
        }
      }
      assert l == [l[0]] + l[1..];
    }
  }

  lemma {:induction false} InsertKeeps(l: seq<Id>, r: Id, pos: map<Id, nat>)
    requires r in pos && r !in l && NoDup(l) && Ordered(l, pos) && forall x :: x in l ==> x in pos
    ensures NoDup(InsertSorted(l, r, pos)) && Ordered(InsertSorted(l, r, pos), pos)
  {
    if l == [] || pos[r] < pos[l[0]] {
      assert ([r] + l)[1..] == l;
    } else {
      InsertKeeps(l[1..], r, pos);
      var m := InsertSorted(l[1..], r, pos);
      assert l[0] !in l[1..] && l[0] !in m;
      assert ([l[0]] + m)[1..] == m;
    }
  }

  lemma {:induction false} OrderedSame(l: seq<Id>, key: map<Id, nat>, key': map<Id, nat>)
    requires Ordered(l, key) && forall x :: x in l ==> x in key' && (x in key ==> key'[x] == key[x])
    ensures Ordered(l, key')
  {
    if l != [] {
      OrderedSame(l[1..], key, key');
    }
  }

  lemma {:induction false} OrderedAppend(l: seq<Id>, r: Id, key: map<Id, nat>)
    requires Ordered(l, key) && r in key && forall x :: x in l ==> x in key && key[x] <= key[r]
    ensures Ordered(l + [r], key)
  {
    if l != [] {
      OrderedAppend(l[1..], r, key);
      assert (l + [r])[1..] == l[1..] + [r];
    }
  }

  lemma {:induction false} TakePlaceNoDup(l: seq<Id>, req: Id, next: Id)
    requires req != next && NoDup(l)
    ensures NoDup(TakePlace(l, req, next))
  {
    if l != [] {
      var rest := l[1..];
      assert l[0] !in rest && NoDup(rest);
      if l[0] == next {
        WithoutKeeps(rest, req, map[]);
        WithoutKeeps(Without(rest, req), next, map[]);
      } else {
        TakePlaceNoDup(rest, req, next);
      }
    }
  }

  /** `req` takes over the place and the deadline of `next`. */
  lemma {:induction false} TakePlaceKeeps(l: seq<Id>, req: Id, next: Id, due: map<Id, nat>)
    requires req != next && Ordered(l, due) && req in due && next in due && due[next] < due[req]
    ensures Ordered(TakePlace(l, req, next), due[req := due[next]])
  {
    if l != [] {
      var due' := due[req := due[next]];
      var rest := l[1..];
      if l[0] == req {
        TakePlaceKeeps(rest, req, next, due);
      } else if l[0] == next {
        var m := Without(rest, req);
        WithoutKeeps(rest, req, due);
        WithoutKeeps(m, next, due);
        OrderedSame(Without(m, next), due, due');
        assert ([req] + Without(m, next))[1..] == Without(m, next);
      } else {
        TakePlaceKeeps(rest, req, next, due);
        var t := TakePlace(rest, req, next);
        assert ([l[0]] + t)[1..] == t;
      }
    }
  }

  lemma {:induction false} LatterOther(l: seq<Id>, r: Id)
    requires NoDup(l)
    ensures Latter(l, r) != Some(r)
  {
    if |l| >= 2 {
      assert NoDup(l[1..]);
      LatterOther(l[1..], r);
    }
  }

  // ---- one direction ----

  lemma {:induction false} RemoveLane(l: Lane, r: Id, pos: map<Id, nat>, due: map<Id, nat>, h: nat)
    requires LaneOk(l, pos, due, h)
    ensures LaneOk(WithoutLane(l, r), pos, due, h)
  {
    WithoutKeeps(l.sort, r, pos);
    WithoutKeeps(l.fifo, r, due);
    LatterOther(l.sort, r);
  }

  lemma {:induction false} SameKeys(l: Lane, pos: map<Id, nat>, due: map<Id, nat>, h: nat,
                                    pos': map<Id, nat>, due': map<Id, nat>, h': nat)
    requires LaneOk(l, pos, due, h) && h <= h'
    requires forall x :: x in l.fifo ==> x in pos' && x in due' && pos'[x] == pos[x] && due'[x] == due[x]
    ensures LaneOk(l, pos', due', h')
  {
    OrderedSame(l.sort, pos, pos');
    OrderedSame(l.fifo, due, due');
  }

  lemma {:induction false} AddLane(l: Lane, r: Id, pos: map<Id, nat>, due: map<Id, nat>, h: nat)
    requires LaneOk(l, pos, due, h) && r !in l.fifo && r in pos && r in due && due[r] == h
    ensures LaneOk(l.(sort := InsertSorted(l.sort, r, pos), fifo := l.fifo + [r]), pos, due, h)
  {
    InsertKeeps(l.sort, r, pos);
    OrderedAppend(l.fifo, r, due);
  }

  lemma {:induction false} FrontSort(l: seq<Id>, r: Id, sector: nat, pos: map<Id, nat>)
    requires NoDup(l) && Ordered(l, pos) && r in l && forall x :: x in l ==> x in pos
    ensures NoDup(InsertSorted(Without(l, r), r, pos[r := sector]))
    ensures Ordered(InsertSorted(Without(l, r), r, pos[r := sector]), pos[r := sector])
  {
    WithoutKeeps(l, r, pos);
    OrderedSame(Without(l, r), pos, pos[r := sector]);
    InsertKeeps(Without(l, r), r, pos[r := sector]);
  }

  lemma {:induction false} FrontLane(l: Lane, r: Id, sector: nat, pos: map<Id, nat>, due: map<Id, nat>, h: nat)
    requires LaneOk(l, pos, due, h) && r in l.fifo
    ensures LaneOk(l.(sort := InsertSorted(Without(l.sort, r), r, pos[r := sector])), pos[r := sector], due, h)
  {
    FrontSort(l.sort, r, sector, pos);
  }

  lemma {:induction false} TakeLane(l: Lane, req: Id, next: Id, pos: map<Id, nat>, due: map<Id, nat>, h: nat)
    requires LaneOk(l, pos, due, h) && req != next && req in l.fifo && next in l.fifo && due[next] < due[req]
    ensures LaneOk(WithoutLane(l, next).(fifo := TakePlace(l.fifo, req, next)), pos, due[req := due[next]], h)
  {
    var l' := WithoutLane(l, next).(fifo := TakePlace(l.fifo, req, next));
    assert NoDup(l'.sort) && Ordered(l'.sort, pos) by {
      WithoutKeeps(l.sort, next, pos);
    }
    assert NoDup(l'.fifo) && Ordered(l'.fifo, due[req := due[next]]) by {
      TakePlaceNoDup(l.fifo, req, next);
      TakePlaceKeeps(l.fifo, req, next, due);
    }
    assert l'.next.Some? ==> l'.next.value in l'.sort by {
      LatterOther(l.sort, next);
    }
  }

  // ---- the operations ----

  lemma {:induction false} RemoveDir(d: DD, dir: bool, r: Id, which: bool)
    requires Ok(d)
    ensures DirOk(Remove(d, dir, r), which)
  {
    if which == dir {
      RemoveLane(d.At(dir), r, d.pos, d.due, d.now + d.Expire(dir));
    }
  }

  lemma {:induction false} RemoveOk(d: DD, dir: bool, r: Id)
    requires Ok(d)
    ensures Ok(Remove(d, dir, r))
  {
    RemoveDir(d, dir, r, false);
    RemoveDir(d, dir, r, true);
  }

  lemma {:induction false} AddDir(d: DD, r: Id, dir: bool, sector: nat, which: bool)
    requires Ok(d) && !Queued(d, r)
    ensures DirOk(Add(d, r, dir, sector), which)
  {
    var j := Add(d, r, dir, sector);
    var h := d.now + d.Expire(which);
    SameKeys(d.At(which), d.pos, d.due, h, j.pos, j.due, h);
    if which == dir {
      AddLane(d.At(dir), r, j.pos, j.due, h);
    }
  }

  lemma {:induction false} AddOk(d: DD, r: Id, dir: bool, sector: nat)
    requires Ok(d) && !Queued(d, r)
    ensures Ok(Add(d, r, dir, sector))
  {
    AddDir(d, r, dir, sector, false);
    AddDir(d, r, dir, sector, true);
  }

  lemma {:induction false} FrontDir(d: DD, dir: bool, r: Id, sector: nat, which: bool)
    requires Ok(d) && r in d.At(dir).fifo
    ensures DirOk(FrontMerged(d, dir, r, sector), which)
  {
    var h := d.now + d.Expire(which);
    if which == dir {
      FrontLane(d.At(dir), r, sector, d.pos, d.due, h);
    } else {
      SameKeys(d.At(which), d.pos, d.due, h, d.pos[r := sector], d.due, h);
    }
  }

  lemma {:induction false} FrontMergedOk(d: DD, dir: bool, r: Id, sector: nat)
    requires Ok(d) && r in d.At(dir).fifo
    ensures Ok(FrontMerged(d, dir, r, sector))
  {
    FrontDir(d, dir, r, sector, false);
    FrontDir(d, dir, r, sector, true);
  }

  lemma {:induction false} TakeDir(d: DD, dir: bool, req: Id, next: Id, which: bool)
    requires Ok(d) && req != next && req in d.At(dir).fifo && next in d.At(dir).fifo && d.due[next] < d.due[req]
    ensures DirOk(MergedRequests(d, dir, req, next), which)
  {
    var h := d.now + d.Expire(which);
    if which == dir {
      TakeLane(d.At(dir), req, next, d.pos, d.due, h);
    } else {
      SameKeys(d.At(which), d.pos, d.due, h, d.pos, d.due[req := d.due[next]], h);
    }
  }

  lemma {:induction false} MergedRequestsOk(d: DD, dir: bool, req: Id, next: Id)
    requires Ok(d) && req != next && req in d.At(dir).fifo && next in d.At(dir).fifo
    ensures Ok(MergedRequests(d, dir, req, next))
  {
    if d.due[next] < d.due[req] {
      TakeDir(d, dir, req, next, false);
      TakeDir(d, dir, req, next, true);
    } else {
      RemoveOk(d, dir, next);
    }
  }

  lemma {:induction false} MoveOk(d: DD, dir: bool, r: Id)
    requires Ok(d) && r in d.At(dir).fifo
    ensures Ok(Move(d, dir, r))
  {
    var d2 := Aim(d, dir, r);
    assert Ok(d2) by {
      assert DirOk(d2, dir) && DirOk(d2, !dir);
    }
    RemoveOk(d2, dir, r);
    SameLanes(Remove(d2, dir, r), Move(d, dir, r));
  }

  lemma {:induction false} SameLanes(d: DD, d': DD)
    requires Ok(d) && d' == d.(out := d'.out, batching := d'.batching, starved := d'.starved)
    requires d'.starved <= d'.writesStarved
    ensures Ok(d')
  {
    assert DirOk(d', false) && DirOk(d', true);
  }

  /** The request that deadline_dispatch_requests picks is queued, and where. */
  lemma {:induction false} PickedQueued(d: DD)
    requires Ok(d)
    ensures InBatch(d) ==> Running(d).value in d.At(d.write.next.Some?).fifo
    ensures d.read.fifo != [] || d.write.fifo != [] ==>
              d.At(NewDir(d)).fifo != [] && BatchHead(d, NewDir(d)) in d.At(NewDir(d)).fifo
    ensures NewStarved(d) <= d.writesStarved
  {
  }

  lemma {:induction false} DispatchOk(d: DD)
    requires Ok(d)
    ensures Ok(Dispatch(d))
  {
    PickedQueued(d);
    if InBatch(d) {
      var d' := d.(batching := d.batching + 1);
      SameLanes(d, d');
      MoveOk(d', d.write.next.Some?, Running(d).value);
    } else if d.read.fifo != [] || d.write.fifo != [] {
      var d' := d.(starved := NewStarved(d), batching := 1);
      SameLanes(d, d');
      MoveOk(d', NewDir(d), BatchHead(d, NewDir(d)));
    }
  }

  lemma {:induction false} TickOk(d: DD, n: nat)
    requires Ok(d)
    ensures Ok(d.(now := d.now + n))
  {
    SameKeys(d.read, d.pos, d.due, d.now + d.readExpire, d.pos, d.due, d.now + n + d.readExpire);
    SameKeys(d.write, d.pos, d.due, d.now + d.writeExpire, d.pos, d.due, d.now + n + d.writeExpire);
  }

  lemma {:induction false} StepOk(d: DD, s: Step)
    requires Ok(d) && Enabled(d, s)
    ensures Ok(Apply(d, s))
  {
    match s
    case AddStep(r, dir, sector) => AddOk(d, r, dir, sector);
    case FrontMerge(dir, r, sector) => FrontMergedOk(d, dir, r, sector);
    case MergeStep(dir, req, next) => MergedRequestsOk(d, dir, req, next);
    case DispatchStep => DispatchOk(d);
    case Tick(n) => TickOk(d, n);
  }
}
