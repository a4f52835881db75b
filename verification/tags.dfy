/** The tag allocator of block/blk-tag.c: bitmap, index, busy list and request queue. */
module TagModel {
  import opened Lists

  type Id = nat

  /**
    * `tag` maps every request with REQ_QUEUED set to its tag; a request outside it has tag -1.
    * `async` holds the requests that are not synchronous.
    */
  datatype Tags = Tags(
    realMax: nat,
    maxDepth: nat,
    refcnt: nat,
    bits: seq<bool>,
    index: seq<Option<Id>>,
    busy: seq<Id>,
    queue: seq<Id>,
    tag: map<Id, nat>,
    async: set<Id>,
    asyncInFlight: int,
    syncInFlight: int)

  /** ALIGN(depth, BITS_PER_LONG) */
  function Align(depth: nat): (a: nat)
    ensures depth <= a < depth + 64 && a % 64 == 0
  {
    (depth + 63) / 64 * 64
  }

  /** A bit is set exactly when one live request holds that tag, and tag_index names it. */
  ghost predicate BitOk(s: Tags, t: nat)
    requires t < |s.bits|
  {
    && (s.bits[t] <==> t < |s.index| && s.index[t].Some?)
    && (t < |s.index| && s.index[t].Some? ==> s.index[t].value in s.tag && s.tag[s.index[t].value] == t)
  }

  ghost predicate TagOk(s: Tags, r: Id) {
    r in s.tag ==> s.tag[r] < |s.index| && s.index[s.tag[r]] == Some(r)
  }

  ghost predicate Valid(s: Tags) {
    && |s.index| == s.realMax && |s.bits| == Align(s.realMax) && s.maxDepth <= s.realMax
    && (forall t :: 0 <= t < |s.bits| ==> BitOk(s, t))
    && (forall r :: r in s.tag ==> TagOk(s, r))
    && NoDup(s.busy) && (forall r :: r in s.busy <==> r in s.tag)
    && NoDup(s.queue) && (forall r :: r in s.queue ==> r !in s.tag)
  }

  // ---- operations ----

  function FirstZero(bits: seq<bool>, from: nat, n: nat): (t: nat)
    requires from <= n <= |bits|
    ensures from <= t <= n
    ensures t < n ==> !bits[t]
    ensures forall k :: from <= k < t ==> bits[k]
    decreases n - from
  {
    if from == n || !bits[from] then from else FirstZero(bits, from + 1, n)
  }

  /** The tags a request may use: asynchronous ones leave two for the others. */
  function Limit(s: Tags, r: Id): nat {
    if r in s.async && s.maxDepth > 1 then (if s.maxDepth == 2 then 1 else s.maxDepth - 2) else s.maxDepth
  }

  predicate Crowded(s: Tags, r: Id) { r in s.async && s.maxDepth > 1 && s.asyncInFlight > Limit(s, r) }

  function Flown(s: Tags, r: Id, change: int): Tags {
    if r in s.async then s.(asyncInFlight := s.asyncInFlight + change) else s.(syncInFlight := s.syncInFlight + change)
  }

  /** The request leaves the queue with tag t: blk_start_request and the head of the busy list. */
  function Given(s: Tags, r: Id, t: nat): Tags
    requires t < |s.bits| && t < |s.index|
  {
    Flown(s.(bits := s.bits[t := true], index := s.index[t := Some(r)], tag := s.tag[r := t],
             queue := Without(s.queue, r), busy := [r] + s.busy), r, 1)
  }

  /** blk_queue_start_tag: None when no tag may be had. */
  function Start(s: Tags, r: Id): Option<Tags>
    requires Valid(s)
  {
    if Crowded(s, r) then None
    else
      var t := FirstZero(s.bits, 0, Limit(s, r));
      if t >= Limit(s, r) then None else Some(Given(s, r, t))
  }

  /** blk_queue_end_tag */
  function End(s: Tags, r: Id): Tags
    requires r in s.tag && s.tag[r] < |s.index| && s.tag[r] < |s.bits|
  {
    var t := s.tag[r];
    s.(busy := Without(s.busy, r), tag := s.tag - {r}, index := s.index[t := None], bits := s.bits[t := false])
  }

  /** blk_requeue_request of a started, tagged request. */
  function Requeue(s: Tags, r: Id): Tags
    requires r in s.tag && s.tag[r] < |s.index| && s.tag[r] < |s.bits|
  {
    var e := End(s, r);
    Flown(e.(queue := [r] + e.queue), r, -1)
  }

  /** Overrun: the old tables are copied into new ones that are too small for them. */
  datatype Resized = Resized(s: Tags, err: int) | Overrun

  const EBUSY := 16
  const ENOMEM := 12

  /** init_tag_map's limit on the depth; blk_init_tags has no queue to take it from. */
  function Clamped(depth: nat, nrRequests: Option<nat>): nat {
    if nrRequests.Some? && depth > 2 * nrRequests.value then 2 * nrRequests.value else depth
  }

  /** blk_queue_resize_tags; `memory` says whether both allocations succeed. */
  function Resize(s: Tags, depth: nat, nrRequests: nat, memory: bool): Resized
    requires |s.index| == s.realMax && |s.bits| == Align(s.realMax)
  {
    var d := Clamped(depth, Some(nrRequests));
    if depth <= s.realMax then Resized(s.(maxDepth := depth), 0)
    else if s.refcnt != 1 then Resized(s, -EBUSY)
    else if !memory then Resized(s, -ENOMEM)
    else if d < |s.index| || Align(d) < |s.bits| then Overrun
    else Resized(Grown(s, d), 0)
  }

  function Grown(s: Tags, depth: nat): (g: Tags)
    requires |s.index| == s.realMax <= depth && |s.bits| == Align(s.realMax)
    ensures |g.bits| == Align(depth) && |g.index| == depth
    ensures forall t :: 0 <= t < |g.bits| ==> g.bits[t] == (t < |s.bits| && s.bits[t])
    ensures forall t :: 0 <= t < depth ==> g.index[t] == if t < s.realMax then s.index[t] else None
  {
    AlignMono(s.realMax, depth);
    s.(realMax := depth, maxDepth := depth,
       index := s.index + seq(depth - s.realMax, _ => None),
       bits := s.bits + seq(Align(depth) - |s.bits|, _ => false))
  }

  lemma {:induction false} AlignMono(a: nat, b: nat)
    requires a <= b
    ensures Align(a) <= Align(b)
  {
  }

  // ---- every operation keeps bitmap, index, busy list and queue in agreement ----

  lemma {:induction false} GivenValid(s: Tags, r: Id, t: nat)
    requires Valid(s) && r in s.queue && t < s.realMax && !s.bits[t]
    ensures Valid(Given(s, r, t))
  {
    var g := Given(s, r, t);
    WithoutNoDup(s.queue, r);
    assert BitOk(s, t);
    forall u | 0 <= u < |g.bits|
      ensures BitOk(g, u)
    {
      assert BitOk(s, u);
    }
    forall x | x in g.tag
      ensures TagOk(g, x)
    {
      assert TagOk(s, x);
    }
  }

  /** What blk_queue_start_tag does: the least free tag below the limit, or none and then why. */
  lemma {:induction false} StartSound(s: Tags, r: Id)
    requires Valid(s) && r in s.queue
    ensures Start(s, r).Some? ==>
              var j := Start(s, r).value;
              && Valid(j) && r in j.tag && j.tag[r] < Limit(s, r) && !s.bits[j.tag[r]]
              && (forall k :: 0 <= k < j.tag[r] ==> s.bits[k])
              && (forall x :: x in s.tag ==> x in j.tag && j.tag[x] == s.tag[x] && s.tag[x] != j.tag[r])
    ensures Start(s, r).None? <==> Crowded(s, r) || forall k :: 0 <= k < Limit(s, r) ==> s.bits[k]
  {
    var t := FirstZero(s.bits, 0, Limit(s, r));
    if t < Limit(s, r) {
      GivenValid(s, r, t);
      forall x | x in s.tag
        ensures s.tag[x] != t
      {
        assert TagOk(s, x) && BitOk(s, t);
      }
    }
  }

  lemma {:induction false} EndValid(s: Tags, r: Id)
    requires Valid(s) && r in s.tag
    ensures s.tag[r] < s.realMax && Valid(End(s, r)) && End(s, r).busy == Without(s.busy, r)
  {
    assert TagOk(s, r);
    var e := End(s, r);
    WithoutNoDup(s.busy, r);
    forall u | 0 <= u < |e.bits|
      ensures BitOk(e, u)
    {
      assert BitOk(s, u);
    }
    forall x | x in e.tag
      ensures TagOk(e, x)
    {
      assert TagOk(s, x);
      assert x != r && s.tag[x] != s.tag[r];
    }
  }

  lemma {:induction false} RequeueValid(s: Tags, r: Id)
    requires Valid(s) && r in s.tag
    ensures s.tag[r] < s.realMax && Valid(Requeue(s, r))
  {
    EndValid(s, r);
    var e := End(s, r);
    var q := Requeue(s, r);
    assert NoDup(q.queue);
    forall u | 0 <= u < |q.bits|
      ensures BitOk(q, u)
    {
      assert BitOk(e, u);
    }
    forall x | x in q.tag
      ensures TagOk(q, x)
    {
      assert TagOk(e, x);
    }
  }

  /** A resize that stays within its tables keeps every tag, and a failed one changes nothing. */
  lemma {:induction false} ResizeValid(s: Tags, depth: nat, nrRequests: nat, memory: bool)
    requires Valid(s) && !Resize(s, depth, nrRequests, memory).Overrun?
    ensures var r := Resize(s, depth, nrRequests, memory);
            && Valid(r.s) && r.s.tag == s.tag && r.s.busy == s.busy && s.realMax <= r.s.realMax
            && (r.err == 0 ==> r.s.maxDepth == if depth <= s.realMax then depth else Clamped(depth, Some(nrRequests)))
            && (r.err != 0 ==> r.s == s)
  {
    var g := Resize(s, depth, nrRequests, memory).s;
    forall u | 0 <= u < |g.bits|
      ensures BitOk(g, u)
    {
      if u < |s.bits| {
        assert BitOk(s, u);
      }
    }
    forall x | x in g.tag
      ensures TagOk(g, x)
    {
      assert TagOk(s, x);
    }
  }

  /** The copy overruns the new tables exactly when the map must be replaced and twice nr_requests has fallen
      below the depth the map really has. */
  lemma {:induction false} ResizeOverrunsIff(s: Tags, depth: nat, nrRequests: nat, memory: bool)
    requires Valid(s)
    ensures Resize(s, depth, nrRequests, memory).Overrun? <==>
              depth > s.realMax && s.refcnt == 1 && memory && 2 * nrRequests < s.realMax
  {
    var d := Clamped(depth, Some(nrRequests));
    if s.realMax <= d {
      AlignMono(s.realMax, d);
    }
  }

  /** Eight tags, nr_requests lowered to two, ten tags asked for: four places for eight entries. */
  lemma {:induction false} ResizeCanOverrun(s: Tags)
    requires Valid(s) && s.realMax == 8 && s.refcnt == 1
    ensures Clamped(10, Some(2)) == 4 && Resize(s, 10, 2, true) == Overrun
  {
    ResizeOverrunsIff(s, 10, 2, true);
  }

  // ---- invalidating all tags ----

  /** blk_queue_invalidate_tags */
  function Invalidate(s: Tags): Tags
    requires Valid(s)
    decreases |s.busy|
  {
    if s.busy == [] then s
    else (RequeueValid(s, s.busy[0]); RequeueHead(s); Invalidate(Requeue(s, s.busy[0])))
  }

  lemma {:induction false} RequeueHead(s: Tags)
    requires Valid(s) && s.busy != []
    ensures s.busy[0] in s.tag && s.tag[s.busy[0]] < s.realMax
    ensures Requeue(s, s.busy[0]).busy == s.busy[1..]
    ensures Requeue(s, s.busy[0]).queue == [s.busy[0]] + s.queue
  {
    assert s.busy[0] in s.busy;
    EndValid(s, s.busy[0]);
    WithoutNoDup(s.busy, s.busy[0]);
  }

  function Reversed(l: seq<Id>): seq<Id> { if l == [] then [] else Reversed(l[1..]) + [l[0]] }

  lemma {:induction false} ReversedPush(l: seq<Id>, q: seq<Id>)
    requires l != []
    ensures Reversed(l[1..]) + ([l[0]] + q) == Reversed(l) + q
  {
  }

  /** With nothing busy every tag is free. */
  lemma {:induction false} AllFree(s: Tags)
    requires Valid(s) && s.busy == []
    ensures s.tag == map[]
    ensures forall t :: 0 <= t < |s.bits| ==> !s.bits[t]
  {
    assert forall r :: r !in s.tag;
    forall t | 0 <= t < |s.bits|
      ensures !s.bits[t]
    {
      assert BitOk(s, t);
    }
  }

  lemma {:induction false} InvalidateValid(s: Tags)
    requires Valid(s)
    ensures Valid(Invalidate(s)) && Invalidate(s).busy == []
    decreases |s.busy|
  {
    if s.busy != [] {
      RequeueValid(s, s.busy[0]);
      RequeueHead(s);
      InvalidateValid(Requeue(s, s.busy[0]));
    }
  }

  lemma {:induction false} InvalidateQueue(s: Tags)
    requires Valid(s)
    ensures Invalidate(s).queue == Reversed(s.busy) + s.queue
    decreases |s.busy|
  {
    if s.busy != [] {
      var r := s.busy[0];
      RequeueValid(s, r);
      RequeueHead(s);
      InvalidateQueue(Requeue(s, r));
      ReversedPush(s.busy, s.queue);
    }
  }

  /** Everything busy goes back before the queue, oldest first, and every tag is free. */
  lemma {:induction false} InvalidateFrees(s: Tags)
    requires Valid(s)
    ensures Valid(Invalidate(s)) && Invalidate(s).busy == [] && Invalidate(s).tag == map[]
    ensures forall t :: 0 <= t < |Invalidate(s).bits| ==> !Invalidate(s).bits[t]
    ensures Invalidate(s).queue == Reversed(s.busy) + s.queue
  {
    InvalidateValid(s);
    AllFree(Invalidate(s));
    InvalidateQueue(s);
  }

  function AsyncOf(l: seq<Id>, async: set<Id>): nat {
    if l == [] then 0 else (if l[0] in async then 1 else 0) + AsyncOf(l[1..], async)
  }

  /** The in-flight counts come down by what was busy. */
  lemma {:induction false} InvalidateCounts(s: Tags)
    requires Valid(s)
    ensures Invalidate(s).asyncInFlight == s.asyncInFlight - AsyncOf(s.busy, s.async)
    ensures Invalidate(s).syncInFlight == s.syncInFlight - (|s.busy| - AsyncOf(s.busy, s.async))
    decreases |s.busy|
  {
    if s.busy != [] {
      RequeueValid(s, s.busy[0]);
      RequeueHead(s);
      InvalidateCounts(Requeue(s, s.busy[0]));
    }
  }

  /** blk_queue_start_tag of the first k requests of the queue, one after the other; None if one fails. */
  function StartFirst(s: Tags, k: nat): Option<Tags>
    requires Valid(s) && k <= |s.queue|
    decreases k
  {
    if k == 0 then Some(s)
    else
      (StartSound(s, s.queue[0]);
       match Start(s, s.queue[0])
       case None => None
       case Some(j) => StartedHead(s); StartFirst(j, k - 1))
  }

  lemma {:induction false} StartedHead(s: Tags)
    requires Valid(s) && s.queue != [] && Start(s, s.queue[0]).Some?
    ensures Start(s, s.queue[0]).value.queue == s.queue[1..]
    ensures Start(s, s.queue[0]).value.busy == [s.queue[0]] + s.busy
  {
    WithoutNoDup(s.queue, s.queue[0]);
  }

  lemma {:induction false} ReversedTake(q: seq<Id>, k: nat, b: seq<Id>)
    requires 0 < k <= |q|
    ensures Reversed(q[1..][..k - 1]) + ([q[0]] + b) == Reversed(q[..k]) + b
    ensures q[1..][k - 1..] == q[k..]
  {
    assert q[..k][1..] == q[1..][..k - 1];
    ReversedPush(q[..k], b);
  }

  lemma {:induction false} RestoredOrder(q: seq<Id>, k: nat)
    requires k <= |q|
    ensures Reversed(Reversed(q[..k]) + []) + q[k..] == q
  {
    assert Reversed(q[..k]) + [] == Reversed(q[..k]);
    ReversedTwice(q[..k]);
    assert q == q[..k] + q[k..];
  }

  lemma {:induction false} StartFirstIs(s: Tags, k: nat)
    requires Valid(s) && k <= |s.queue| && StartFirst(s, k).Some?
    ensures Valid(StartFirst(s, k).value)
    ensures StartFirst(s, k).value.queue == s.queue[k..]
    ensures StartFirst(s, k).value.busy == Reversed(s.queue[..k]) + s.busy
    decreases k
  {
    if k != 0 {
      var r := s.queue[0];
      StartSound(s, r);
      StartedHead(s);
      var j := Start(s, r).value;
      StartFirstIs(j, k - 1);
      ReversedTake(s.queue, k, s.busy);
    }
  }

  lemma {:induction false} StartFirstCounts(s: Tags, k: nat)
    requires Valid(s) && k <= |s.queue| && StartFirst(s, k).Some?
    ensures StartFirst(s, k).value.async == s.async
    ensures StartFirst(s, k).value.asyncInFlight == s.asyncInFlight + AsyncOf(s.queue[..k], s.async)
    ensures StartFirst(s, k).value.syncInFlight == s.syncInFlight + k - AsyncOf(s.queue[..k], s.async)
    decreases k
  {
    if k != 0 {
      StartSound(s, s.queue[0]);
      StartedHead(s);
      var j := Start(s, s.queue[0]).value;
      StartFirstCounts(j, k - 1);
      assert s.queue[..k][1..] == j.queue[..k - 1];
    }
  }

  lemma {:induction false} ReversedAppend(a: seq<Id>, b: seq<Id>)
    ensures Reversed(a + b) == Reversed(b) + Reversed(a)
  {
    if a == [] {
      assert a + b == b;
    } else {
      ReversedAppend(a[1..], b);
      assert (a + b)[1..] == a[1..] + b;
    }
  }

  lemma {:induction false} ReversedTwice(a: seq<Id>)
    ensures Reversed(Reversed(a)) == a
  {
    if a != [] {
      ReversedTwice(a[1..]);
      ReversedAppend(Reversed(a[1..]), [a[0]]);
      assert Reversed([a[0]]) == [a[0]];
    }
  }

  lemma {:induction false} AsyncOfAppend(a: seq<Id>, b: seq<Id>, async: set<Id>)
    ensures AsyncOf(a + b, async) == AsyncOf(a, async) + AsyncOf(b, async)
  {
    if a == [] {
      assert a + b == b;
    } else {
      AsyncOfAppend(a[1..], b, async);
      assert (a + b)[1..] == a[1..] + b;
    }
  }

  lemma {:induction false} AsyncOfReversed(a: seq<Id>, async: set<Id>)
    ensures AsyncOf(Reversed(a), async) == AsyncOf(a, async) && |Reversed(a)| == |a|
  {
    if a != [] {
      AsyncOfReversed(a[1..], async);
      AsyncOfAppend(Reversed(a[1..]), [a[0]], async);
    }
  }

  /**
    * Starting the first k queued requests and then invalidating all tags frees those tags and restores
    * the queue order and both in-flight counts.
    */
  lemma {:induction false} InvalidateRestores(s: Tags, k: nat)
    requires Valid(s) && s.busy == [] && k <= |s.queue| && StartFirst(s, k).Some?
    ensures Valid(StartFirst(s, k).value)
    ensures Invalidate(StartFirst(s, k).value).queue == s.queue
    ensures Invalidate(StartFirst(s, k).value).tag == s.tag
    ensures Invalidate(StartFirst(s, k).value).asyncInFlight == s.asyncInFlight
    ensures Invalidate(StartFirst(s, k).value).syncInFlight == s.syncInFlight
  {
    StartFirstIs(s, k);
    var j := StartFirst(s, k).value;
    assert Invalidate(j).queue == s.queue && Invalidate(j).tag == s.tag by {
      InvalidateFrees(j);
      AllFree(s);
      RestoredOrder(s.queue, k);
    }
    assert j.busy == Reversed(s.queue[..k]);
    StartFirstCounts(s, k);
    InvalidateCounts(j);
    AsyncOfReversed(s.queue[..k], s.async);
  }
}
