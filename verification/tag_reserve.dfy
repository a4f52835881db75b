/** The tags that blk_queue_start_tag leaves to synchronous requests. */
module TagReserve {
  import opened Lists
  import opened TagModel

  /** Which tag a request may be given, and exactly when it is refused one. */
  lemma {:induction false} StartBounds(s: Tags, r: Id)
    requires Valid(s) && r in s.queue
    ensures Start(s, r).Some? ==>
              var t := Start(s, r).value.tag;
              && r in t && t[r] < s.maxDepth
              && (r in s.async && s.maxDepth == 2 ==> t[r] == 0)
              && (r in s.async && s.maxDepth >= 3 ==> t[r] < s.maxDepth - 2)
    ensures r !in s.async || s.maxDepth <= 1 ==>
              (Start(s, r).None? <==> forall k :: 0 <= k < s.maxDepth ==> s.bits[k])
    ensures r in s.async && s.maxDepth == 2 ==> (Start(s, r).None? <==> s.asyncInFlight > 1 || s.bits[0])
    ensures r in s.async && s.maxDepth >= 3 ==>
              (Start(s, r).None? <==>
               s.asyncInFlight > s.maxDepth - 2 || forall k :: 0 <= k < s.maxDepth - 2 ==> s.bits[k])
  {
    StartSound(s, r);
  }

  /** No asynchronous request holds one of the two highest tags, or of a pair the higher. */
  ghost predicate Reserved(s: Tags) {
    forall r :: r in s.tag && r in s.async ==> Low(s.maxDepth, s.tag[r])
  }

  predicate Low(depth: nat, t: nat) { if depth >= 3 then t < depth - 2 else depth >= 1 && t == 0 }

  datatype Step =
    | Arrive(r: Id, async: bool)
    | StartStep(r: Id)
    | EndStep(r: Id)
    | RequeueStep(r: Id)
    | InvalidateStep
    | ResizeStep(depth: nat, nrRequests: nat, memory: bool)

  /** Resizing is meant here that neither overruns its tables nor takes tags away. */
  ghost predicate Enabled(s: Tags, p: Step) {
    match p
    case Arrive(r, _) => r !in s.tag && r !in s.queue
    case StartStep(r) => r in s.queue
    case EndStep(r) => r in s.tag
    case RequeueStep(r) => r in s.tag
    case InvalidateStep => true
    case ResizeStep(depth, nr, memory) =>
      Fits(s, depth, nr, memory) && s.maxDepth <= Resize(s, depth, nr, memory).s.maxDepth
  }

  ghost predicate Fits(s: Tags, depth: nat, nr: nat, memory: bool) {
    && |s.index| == s.realMax && |s.bits| == Align(s.realMax)
    && !Resize(s, depth, nr, memory).Overrun?
  }

  function Arrived(s: Tags, r: Id, async: bool): Tags {
    s.(queue := s.queue + [r], async := if async then s.async + {r} else s.async - {r})
  }

  ghost function Apply(s: Tags, p: Step): Tags
    requires Valid(s) && Enabled(s, p)
  {
    match p
    case Arrive(r, async) => Arrived(s, r, async)
    case StartStep(r) => (match Start(s, r) case None => s case Some(j) => j)
    case EndStep(r) => EndValid(s, r); End(s, r)
    case RequeueStep(r) => EndValid(s, r); Requeue(s, r)
    case InvalidateStep => Invalidate(s)
    case ResizeStep(depth, nr, memory) => Resize(s, depth, nr, memory).s
  }

  lemma {:induction false} ArrivedOk(s: Tags, r: Id, async: bool)
    requires Valid(s) && Reserved(s) && r !in s.tag && r !in s.queue
    ensures Valid(Arrived(s, r, async)) && Reserved(Arrived(s, r, async))
  {
    var a := Arrived(s, r, async);
    forall t | 0 <= t < |a.bits|
      ensures BitOk(a, t)
    {
      assert BitOk(s, t);
    }
    forall x | x in a.tag
      ensures TagOk(a, x)
    {
      assert TagOk(s, x);
    }
  }

  lemma {:induction false} StartReserved(s: Tags, r: Id)
    requires Valid(s) && Reserved(s) && r in s.queue && Start(s, r).Some?
    ensures Valid(Start(s, r).value) && Reserved(Start(s, r).value)
  {
    StartSound(s, r);
    StartBounds(s, r);
    var j := Start(s, r).value;
    forall x | x in j.tag && x in j.async
      ensures Low(j.maxDepth, j.tag[x])
    {
      assert x == r || x in s.tag;
    }
  }

  lemma {:induction false} ResizeReserved(s: Tags, depth: nat, nr: nat, memory: bool)
    requires Valid(s) && Reserved(s) && Enabled(s, ResizeStep(depth, nr, memory))
    ensures Valid(Resize(s, depth, nr, memory).s) && Reserved(Resize(s, depth, nr, memory).s)
  {
    ResizeValid(s, depth, nr, memory);
    var z := Resize(s, depth, nr, memory).s;
    forall x | x in z.tag && x in z.async
      ensures Low(z.maxDepth, z.tag[x])
    {
      assert Low(s.maxDepth, s.tag[x]) && z.maxDepth >= s.maxDepth;
    }
  }

  /** Every step keeps the highest tags for synchronous requests. */
  lemma {:induction false} StepReserved(s: Tags, p: Step)
    requires Valid(s) && Enabled(s, p) && Reserved(s)
    ensures Valid(Apply(s, p)) && Reserved(Apply(s, p))
  {
    match p
    case Arrive(r, async) => ArrivedOk(s, r, async);
    case StartStep(r) =>
      if Start(s, r).Some? {
        StartReserved(s, r);
      }
    case EndStep(r) => EndValid(s, r);
    case RequeueStep(r) => RequeueValid(s, r);
    case InvalidateStep => InvalidateFrees(s);
    case ResizeStep(depth, nr, memory) => ResizeReserved(s, depth, nr, memory);
  }

  /** A run: `st` are its states, from the first to the last. */
  ghost predicate Run(st: seq<Tags>, steps: seq<Step>) {
    && |st| == |steps| + 1
    && forall i :: 0 <= i < |steps| ==> Next(st, steps, i)
  }

  ghost predicate Next(st: seq<Tags>, steps: seq<Step>, i: nat)
    requires i < |steps| && |st| == |steps| + 1
  {
    Valid(st[i]) && Enabled(st[i], steps[i]) && st[i + 1] == Apply(st[i], steps[i])
  }

  lemma {:induction false} RunReserved(st: seq<Tags>, steps: seq<Step>, i: nat)
    requires Run(st, steps) && i < |st| && Valid(st[0]) && st[0].tag == map[]
    ensures Valid(st[i]) && Reserved(st[i])
  {
    if i > 0 {
      RunReserved(st, steps, i - 1);
      assert Next(st, steps, i - 1);
      StepReserved(st[i - 1], steps[i - 1]);
    }
  }

  /** Tag `t` is held by a synchronous request. */
  ghost predicate HeldBySync(s: Tags, t: nat) {
    t < |s.index| && s.index[t].Some? && s.index[t].value !in s.async
  }

  /** However many asynchronous requests are in flight, a synchronous one is refused a tag only while
      synchronous ones hold the two highest. */
  lemma {:induction false} SyncNotStarved(st: seq<Tags>, steps: seq<Step>, i: nat, r: Id)
    requires Run(st, steps) && i < |st| && Valid(st[0]) && st[0].tag == map[] && Valid(st[i])
    requires r in st[i].queue && r !in st[i].async && Start(st[i], r).None?
    ensures st[i].maxDepth >= 2 ==> HeldBySync(st[i], st[i].maxDepth - 1)
    ensures st[i].maxDepth >= 3 ==> HeldBySync(st[i], st[i].maxDepth - 2)
  {
    RunReserved(st, steps, i);
    var s := st[i];
    StartBounds(s, r);
    if s.maxDepth >= 2 {
      TopHeld(s, s.maxDepth - 1);
    }
    if s.maxDepth >= 3 {
      TopHeld(s, s.maxDepth - 2);
    }
  }

  lemma {:induction false} TopHeld(s: Tags, t: nat)
    requires Valid(s) && Reserved(s) && t < s.maxDepth && s.bits[t] && !Low(s.maxDepth, t)
    ensures HeldBySync(s, t)
  {
    assert BitOk(s, t);
  }

  /** Taking tags away breaks this: an asynchronous request with tag 1 of four holds the last when two are left. */
  lemma {:induction false} ShrinkingBreaks(s: Tags, r: Id)
    requires Valid(s) && Reserved(s) && s.maxDepth == 4 && r in s.async && r in s.tag && s.tag[r] == 1
    ensures !Reserved(Resize(s, 2, 0, true).s)
  {
    var z := Resize(s, 2, 0, true).s;
    assert r in z.tag && r in z.async && !Low(z.maxDepth, z.tag[r]);
  }
}
