/** How a merge can cost an expired request its place, for any setting of the tunables. */
module DeadlineBackwards {
  import opened Arithmetic
  import opened Lists
  import opened DeadlineModel
  import opened DeadlineInvariant
  import opened DeadlinePlaces
  import opened DeadlineProgress

  /** `c` is last in the FIFO, first in the tree, and not next. */
  ghost predicate Last(l: Lane, c: Id) {
    && l.fifo != [] && l.fifo[|l.fifo| - 1] == c
    && l.sort != [] && l.sort[0] == c && l.next != Some(c)
  }

  /** Only one direction is queued, all of it expired, and `c` is last in it. */
  ghost predicate Behind(d: DD, dir: bool, c: Id) {
    && Ok(d) && d.At(!dir).fifo == [] && Last(d.At(dir), c)
    && (forall x :: x in d.At(dir).fifo ==> Expired(d, x))
  }

  // ---- lists ----

  lemma {:induction false} LastWithout(l: seq<Id>, x: Id)
    requires l != [] && l[|l| - 1] != x
    ensures Without(l, x) != [] && Without(l, x)[|Without(l, x)| - 1] == l[|l| - 1]
  {
    if |l| > 1 {
      LastWithout(l[1..], x);
    }
  }

  lemma {:induction false} FirstWithout(l: seq<Id>, x: Id)
    requires l != [] && l[0] != x
    ensures Without(l, x) != [] && Without(l, x)[0] == l[0]
  {
  }

  lemma {:induction false} LatterNotHead(l: seq<Id>, x: Id)
    requires NoDup(l) && l != []
    ensures Latter(l, x) != Some(l[0])
  {
    if |l| >= 2 {
      LatterInRest(l, x);
      assert l[0] !in l[1..];
    }
  }

  lemma {:induction false} LatterInRest(l: seq<Id>, x: Id)
    requires |l| >= 2
    ensures Latter(l, x).Some? ==> Latter(l, x).value in l[1..]
  {
    if l[0] == x {
      assert l[1..][0] == l[1];
    }
  }

  lemma {:induction false} AheadLast(l: seq<Id>)
    requires l != [] && NoDup(l)
    ensures Ahead(l, l[|l| - 1]) == |l| - 1
  {
    if |l| > 1 {
      assert l[0] != l[|l| - 1] && NoDup(l[1..]);
      AheadLast(l[1..]);
    }
  }

  // ---- the last request is passed over until it is alone ----

  lemma {:induction false} PicksAnother(d: DD, dir: bool, c: Id, dir': bool, x: Id)
    requires Behind(d, dir, c) && |d.At(dir).fifo| >= 2 && x in d.At(dir').fifo
    requires InBatch(d) ==> Some(x) == Running(d)
    requires !InBatch(d) ==> dir' == NewDir(d) && x == BatchHead(d, dir')
    ensures dir' == dir && x != c
  {
    assert DirOk(d, dir) && DirOk(d, !dir);
    if InBatch(d) {
      assert d.At(!dir).next.None?;
    } else {
      ExpiredHead(d, dir, c);
    }
  }

  /** Another request leaves, and the last stays last. */
  lemma {:induction false} LastStays(l: Lane, c: Id, x: Id)
    requires Last(l, c) && NoDup(l.fifo) && NoDup(l.sort) && x in l.fifo && x != c
    ensures Last(WithoutLane(l, x), c) && |WithoutLane(l, x).fifo| == |l.fifo| - 1
    ensures Latter(l.sort, x) != Some(c)
  {
    LastWithout(l.fifo, x);
    FirstWithout(l.sort, x);
    LatterNotHead(l.sort, x);
    WithoutKeeps(l.fifo, x, map[]);
  }

  lemma {:induction false} MovedBehind(d: DD, dir: bool, c: Id, x: Id)
    requires Behind(d, dir, c) && x in d.At(dir).fifo && x != c
    ensures Behind(Move(d, dir, x), dir, c) && |Move(d, dir, x).At(dir).fifo| == |d.At(dir).fifo| - 1
  {
    var l := d.At(dir);
    var j := Move(d, dir, x);
    assert Ok(j) by { MoveOk(d, dir, x); }
    assert NoDup(l.fifo) && NoDup(l.sort) by { assert DirOk(d, dir); }
    MoveShape(d, dir, x);
    assert Last(j.At(dir), c) && |j.At(dir).fifo| == |l.fifo| - 1 by {
      LastStays(l, c, x);
      LastStays(l.(next := Latter(l.sort, x)), c, x);
    }
  }

  lemma {:induction false} MoveShape(d: DD, dir: bool, x: Id)
    ensures var l, j := d.At(dir), Move(d, dir, x);
            && j.At(dir) == WithoutLane(l.(next := Latter(l.sort, x)), x) && j.At(!dir).fifo == d.At(!dir).fifo
            && j.due == d.due && j.now == d.now && forall y :: y in j.At(dir).fifo ==> y in l.fifo
  {
  }

  lemma {:induction false} PassedOver(d: DD, dir: bool, c: Id)
    requires Behind(d, dir, c) && |d.At(dir).fifo| >= 2
    ensures Behind(Dispatch(d), dir, c) && |Dispatch(d).At(dir).fifo| == |d.At(dir).fifo| - 1
    ensures Dispatch(d).out != d.out + [c]
  {
    var dir', x, d' := DispatchShape(d);
    PicksAnother(d, dir, c, dir', x);
    MovedBehind(d', dir, c, x);
    assert (d.out + [x])[|d.out|] == x && (d.out + [c])[|d.out|] == c;
  }

  lemma {:induction false} PassedOverAgain(d: DD, dir: bool, c: Id, n: nat) returns (steps: seq<Step>)
    requires Behind(d, dir, c) && n < |d.At(dir).fifo|
    ensures Runs(d, steps) && |steps| == Dispatches(steps) == n && !Served(d, steps, c)
    decreases n
  {
    if n == 0 {
      steps := [];
    } else {
      PassedOver(d, dir, c);
      var rest := PassedOverAgain(Dispatch(d), dir, c, n - 1);
      Goes(d, Dispatch(d), DispatchStep, rest, c);
      steps := [DispatchStep] + rest;
    }
  }

  // ---- the merge ----

  lemma {:induction false} MergedBehind(d: DD, dir: bool, a: Id, c: Id)
    requires Behind(d, dir, c) && d.At(dir).fifo[0] == a && a != c && d.due[a] == d.due[c]
    ensures Enabled(d, MergeStep(dir, c, a)) && Behind(MergedRequests(d, dir, c, a), dir, c)
    ensures |MergedRequests(d, dir, c, a).At(dir).fifo| == |d.At(dir).fifo| - 1
  {
    assert NoDup(d.At(dir).fifo) && NoDup(d.At(dir).sort) && Enabled(d, MergeStep(dir, c, a)) by {
      assert DirOk(d, dir);
    }
    assert Ok(MergedRequests(d, dir, c, a)) by { MergedRequestsOk(d, dir, c, a); }
    LastStays(d.At(dir), c, a);
    assert MergedRequests(d, dir, c, a).At(dir) == WithoutLane(d.At(dir), a);
  }

  /**
    * The first request of the FIFO, due at the same time as the last, is merged into it. Though none stood
    * before it, the dispatches that should then be enough do not serve it, whatever the tunables: there need
    * only be as many requests between the two.
    */
  lemma {:induction false} MergedBackwards(d: DD, dir: bool, a: Id, c: Id) returns (rest: seq<Step>)
    requires Behind(d, dir, c) && d.At(dir).fifo[0] == a && a != c && d.due[a] == d.due[c]
    requires |d.At(dir).fifo| >= Bound(d, 1) + 2
    ensures a in d.At(dir).fifo && Expired(d, a) && Ahead(d.At(dir).fifo, a) == 0
    ensures var steps := [MergeStep(dir, c, a)] + rest;
            Runs(d, steps) && Dispatches(steps) == Bound(d, 1) && !Served(d, steps, a)
  {
    var j := MergedRequests(d, dir, c, a);
    MergedBehind(d, dir, a, c);
    rest := PassedOverAgain(j, dir, c, Bound(d, 1));
    Goes(d, j, MergeStep(dir, c, a), rest, a);
  }

  /** That merge is one of those MergedPlaceIff speaks of. */
  lemma {:induction false} MergedPlaceLost(d: DD, dir: bool, a: Id, c: Id)
    requires Behind(d, dir, c) && d.At(dir).fifo[0] == a && d.due[a] == d.due[c] && |d.At(dir).fifo| >= 3
    ensures !NoPlaceLost(d, dir, c, a)
  {
    assert DirOk(d, dir);
    AheadLast(d.At(dir).fifo);
  }

  // ---- such a queue for any tunables ----

  lemma {:induction false} OrderedByIndex(l: seq<Id>, key: map<Id, nat>)
    requires forall i :: 0 <= i < |l| ==> l[i] in key
    requires forall i, j :: 0 <= i < j < |l| ==> key[l[i]] <= key[l[j]]
    ensures Ordered(l, key)
  {
    if l != [] {
      OrderedByIndex(l[1..], key);
    }
  }

  ghost function UpTo(n: nat): (l: seq<Id>)
    ensures |l| == n && forall i :: 0 <= i < n ==> l[i] == i
  {
    seq(n, i => i)
  }

  ghost function Rising(n: nat): (m: map<Id, nat>)
    ensures forall i :: 0 <= i < n ==> i in m && m[i] == i + 1
  {
    if n == 0 then map[] else Rising(n - 1)[n - 1 := n]
  }

  ghost function Level(n: nat): (m: map<Id, nat>)
    ensures forall i :: 0 <= i < n ==> i in m && m[i] == 10
  {
    if n == 0 then map[] else Level(n - 1)[n - 1 := 10]
  }

  /** Requests 0 to n arrived in order with ascending sectors, then n + 1, which ends where 0 begins. */
  ghost function Arrived(n: nat): Lane { Lane([n + 1] + UpTo(n + 1), UpTo(n + 2), None) }

  lemma {:induction false} ArrivedOk(n: nat, pos: map<Id, nat>, due: map<Id, nat>, h: nat)
    requires forall i :: 0 <= i <= n + 1 ==> i in pos && i in due && due[i] == 10 <= h
    requires pos[n + 1] == 0 && forall i :: 0 <= i <= n ==> pos[i] == i + 1
    ensures LaneOk(Arrived(n), pos, due, h)
  {
    var l := Arrived(n);
    ArrivedSame(n);
    assert Ordered(l.fifo, due) by { OrderedByIndex(l.fifo, due); }
    assert Ordered(l.sort, pos) by { OrderedByIndex(l.sort, pos); }
    assert NoDup(l.fifo) && NoDup(l.sort);
    assert forall x :: x in l.fifo ==> x in pos && x in due && due[x] <= h;
  }

  lemma {:induction false} ArrivedSame(n: nat)
    ensures forall x :: x in Arrived(n).fifo <==> x in Arrived(n).sort
  {
    var l := Arrived(n);
    forall x: Id
      ensures x in l.fifo <==> x in l.sort
    {
      if x <= n {
        assert l.sort[x + 1] == x && l.fifo[x] == x;
      } else if x == n + 1 {
        assert l.sort[0] == x && l.fifo[x] == x;
      }
    }
  }

  lemma {:induction false} BackwardsExists(dir: bool, writesStarved: nat, fifoBatch: nat, n: nat) returns (d: DD)
    ensures Behind(d, dir, n + 1) && d.At(dir).fifo[0] == 0 && d.due[0] == d.due[n + 1]
    ensures |d.At(dir).fifo| == n + 2 && d.writesStarved == writesStarved && d.fifoBatch == fifoBatch
  {
    var pos, due := Rising(n + 1)[n + 1 := 0], Level(n + 2);
    var none := Lane([], [], None);
    d := DD(if dir then none else Arrived(n), if dir then Arrived(n) else none, pos, due,
            0, 0, fifoBatch, writesStarved, 50, 500, 11, []);
    assert LaneOk(d.At(dir), pos, due, d.now + d.Expire(dir)) by { ArrivedOk(n, pos, due, d.now + d.Expire(dir)); }
    OneDirection(d, dir);
    assert forall x :: x in d.At(dir).fifo ==> Expired(d, x);
  }

  lemma {:induction false} OneDirection(d: DD, dir: bool)
    requires LaneOk(d.At(dir), d.pos, d.due, d.now + d.Expire(dir)) && d.At(!dir) == Lane([], [], None)
    requires d.starved <= d.writesStarved
    ensures Ok(d)
  {
    assert DirOk(d, dir) && DirOk(d, !dir);
  }
}
