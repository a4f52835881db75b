/** Throttled groups and their service tree (block/blk-throttle.c). */
module ThrottleTree {
  import opened Lists
  import opened ThrottleSlice
  import opened ThrottleLane

  datatype Grp = Grp(read: Lane, write: Lane, disptime: nat, onRr: bool)
  {
    function At(dir: bool): Lane { if dir then write else read }
    function Put(dir: bool, l: Lane): Grp { if dir then this.(write := l) else this.(read := l) }
  }

  predicate Waiting(g: Grp) { g.read.bios != [] || g.write.bios != [] }

  ghost predicate GrpOk(g: Grp) { LaneOk(g.read) && LaneOk(g.write) }

  // ---- sums over all groups ----

  ghost function Total(groups: seq<Grp>, dir: bool): nat {
    if groups == [] then 0 else |groups[0].At(dir).bios| + Total(groups[1..], dir)
  }

  lemma {:induction false} TotalUpdate(groups: seq<Grp>, i: nat, g: Grp, dir: bool)
    requires i < |groups|
    ensures Total(groups[i := g], dir) + |groups[i].At(dir).bios| == Total(groups, dir) + |g.At(dir).bios|
  {
    if i == 0 {
      assert groups[0 := g][1..] == groups[1..];
    } else {
      TotalUpdate(groups[1..], i - 1, g, dir);
      assert groups[i := g][1..] == groups[1..][i - 1 := g];
    }
  }

  lemma {:induction false} TotalAtLeast(groups: seq<Grp>, i: nat, dir: bool)
    requires i < |groups|
    ensures Total(groups, dir) >= |groups[i].At(dir).bios|
  {
    if i != 0 {
      TotalAtLeast(groups[1..], i - 1, dir);
    }
  }

  lemma {:induction false} TotalZero(groups: seq<Grp>, dir: bool)
    requires forall g :: g in groups ==> g.At(dir).bios == []
    ensures Total(groups, dir) == 0
  {
    if groups != [] {
      TotalZero(groups[1..], dir);
    }
  }

  // ---- the service tree, in order ----

  ghost predicate Nodes(t: seq<nat>, n: nat) { forall i :: 0 <= i < |t| ==> t[i] < n }

  /** Every node is a group, and the dispatch times do not decrease. */
  ghost predicate TreeOk(t: seq<nat>, groups: seq<Grp>) {
    && NoDup(t) && Nodes(t, |groups|)
    && (forall i, j :: 0 <= i < j < |t| ==> groups[t[i]].disptime <= groups[t[j]].disptime)
  }

  /** Where tg_service_tree_add puts a key: behind every node that is not later. */
  function Place(t: seq<nat>, key: nat, groups: seq<Grp>, from: nat): (i: nat)
    requires from <= |t| && Nodes(t, |groups|)
    ensures from <= i <= |t|
    ensures i < |t| ==> key < groups[t[i]].disptime
    ensures forall j :: from <= j < i ==> groups[t[j]].disptime <= key
    decreases |t| - from
  {
    if from == |t| || key < groups[t[from]].disptime then from else Place(t, key, groups, from + 1)
  }

  function Added(t: seq<nat>, g: nat, groups: seq<Grp>): (t': seq<nat>)
    requires g < |groups| && Nodes(t, |groups|)
    ensures forall x :: x in t' <==> x in t || x == g
  {
    var k := Place(t, groups[g].disptime, groups, 0);
    assert t == t[..k] + t[k..];
    t[..k] + [g] + t[k..]
  }

  lemma {:induction false} AddedOk(t: seq<nat>, g: nat, groups: seq<Grp>)
    requires TreeOk(t, groups) && g < |groups| && g !in t
    ensures TreeOk(Added(t, g, groups), groups)
  {
    var k := Place(t, groups[g].disptime, groups, 0);
    var a := Added(t, g, groups);
    forall i, j | 0 <= i < j < |a|
      ensures a[i] != a[j] && groups[a[i]].disptime <= groups[a[j]].disptime
    {
      var i', j' := if i < k then i else i - 1, if j < k then j else j - 1;
      if i != k {
        assert a[i] == t[i'];
      }
      if j != k {
        assert a[j] == t[j'];
      }
      if j > k && i == k {
        assert groups[t[k]].disptime <= groups[t[j']].disptime;
      }
    }
  }

  /** Changing a group outside the tree leaves it in order. */
  lemma {:induction false} TreeFrame(t: seq<nat>, groups: seq<Grp>, i: nat, g: Grp)
    requires TreeOk(t, groups) && i < |groups| && (i !in t || g.disptime == groups[i].disptime)
    ensures TreeOk(t, groups[i := g])
  {
  }

  lemma {:induction false} RemovedOk(t: seq<nat>, g: nat, groups: seq<Grp>)
    requires TreeOk(t, groups)
    ensures TreeOk(Without(t, g), groups)
    ensures g in t ==> |Without(t, g)| == |t| - 1
    ensures g !in t ==> Without(t, g) == t
    ensures t != [] && t[0] != g ==> Without(t, g) != [] && Without(t, g)[0] == t[0]
    ensures t != [] && t[0] == g ==> Without(t, g) == t[1..]
  {
    if t != [] {
      var rest := t[1..];
      assert t == [t[0]] + rest && t[0] !in rest;
      assert TreeOk(rest, groups);
      RemovedOk(rest, g, groups);
      var m := Without(rest, g);
      if t[0] != g {
        HeadBefore(t[0], rest, m, groups);
      }
    }
  }

  lemma {:induction false} HeadBefore(h: nat, rest: seq<nat>, m: seq<nat>, groups: seq<Grp>)
    requires TreeOk([h] + rest, groups) && TreeOk(m, groups) && forall x :: x in m ==> x in rest
    ensures TreeOk([h] + m, groups)
  {
    var t := [h] + rest;
    assert t[0] == h && h < |groups|;
    forall i | 0 <= i < |m|
      ensures m[i] != h && groups[h].disptime <= groups[m[i]].disptime
    {
      assert m[i] in rest;
      var k :| 0 <= k < |rest| && rest[k] == m[i];
      assert t[k + 1] == m[i] && t[0] == h;
    }
  }

  lemma {:induction false} HeadLeast(t: seq<nat>, groups: seq<Grp>)
    requires TreeOk(t, groups) && t != []
    ensures forall i :: 0 <= i < |t| ==> groups[t[0]].disptime <= groups[t[i]].disptime
  {
  }

  // ---- groups that are due ----

  ghost function Due(t: seq<nat>, groups: seq<Grp>, now: nat): nat
    requires Nodes(t, |groups|)
  {
    if t == [] then 0 else (if groups[t[0]].disptime <= now then 1 else 0) + Due(t[1..], groups, now)
  }

  lemma {:induction false} DueInsert(a: seq<nat>, g: nat, b: seq<nat>, groups: seq<Grp>, now: nat)
    requires Nodes(a + b, |groups|) && Nodes(a + [g] + b, |groups|) && g < |groups|
    ensures Due(a + [g] + b, groups, now)
         == Due(a + b, groups, now) + (if groups[g].disptime <= now then 1 else 0)
  {
    var l, m := a + b, a + [g] + b;
    if a == [] {
      assert l == b && m[1..] == b && m[0] == g;
    } else {
      assert l[1..] == a[1..] + b && m[1..] == a[1..] + [g] + b;
      assert l[0] == a[0] && m[0] == a[0];
      DueInsert(a[1..], g, b, groups, now);
    }
  }

  lemma {:induction false} DueAdded(t: seq<nat>, g: nat, groups: seq<Grp>, now: nat)
    requires g < |groups| && Nodes(t, |groups|) && Nodes(Added(t, g, groups), |groups|)
    ensures Due(Added(t, g, groups), groups, now)
         == Due(t, groups, now) + (if groups[g].disptime <= now then 1 else 0)
  {
    var k := Place(t, groups[g].disptime, groups, 0);
    assert t == t[..k] + t[k..];
    DueInsert(t[..k], g, t[k..], groups, now);
  }

  lemma {:induction false} DueFrame(t: seq<nat>, groups: seq<Grp>, i: nat, g: Grp, now: nat)
    requires i < |groups| && i !in t && Nodes(t, |groups|)
    ensures Due(t, groups[i := g], now) == Due(t, groups, now)
  {
    if t != [] {
      DueFrame(t[1..], groups, i, g, now);
    }
  }

  /** With the earliest group not due none is. */
  lemma {:induction false} NoneDue(t: seq<nat>, groups: seq<Grp>, now: nat)
    requires TreeOk(t, groups) && (t == [] || now < groups[t[0]].disptime)
    ensures forall i :: 0 <= i < |t| ==> now < groups[t[i]].disptime
  {
    if t != [] {
      HeadLeast(t, groups);
    }
  }
}
