/** The deadline I/O scheduler (block/deadline-iosched.c) on values. */
module DeadlineModel {
  import opened Lists

  type Id = nat

  /** One direction: the sector-sorted tree in order, the FIFO, and next_rq. */
  datatype Lane = Lane(sort: seq<Id>, fifo: seq<Id>, next: Option<Id>)

  /** `pos` and `due` hold blk_rq_pos and rq_fifo_time of the requests; READ is false, WRITE true. */
  datatype DD = DD(
    read: Lane,
    write: Lane,
    pos: map<Id, nat>,
    due: map<Id, nat>,
    batching: nat,
    starved: nat,
    fifoBatch: nat,
    writesStarved: nat,
    readExpire: nat,
    writeExpire: nat,
    now: nat,
    out: seq<Id>)            // moved to the dispatch queue so far
  {
    function At(dir: bool): Lane { if dir then write else read }
    function Put(dir: bool, l: Lane): DD { if dir then this.(write := l) else this.(read := l) }
    function Expire(dir: bool): nat { if dir then writeExpire else readExpire }
  }

  /** elv_rb_add: after every request that does not start later. */
  function InsertSorted(l: seq<Id>, r: Id, pos: map<Id, nat>): (m: seq<Id>)
    requires r in pos && forall x :: x in l ==> x in pos
    ensures forall x :: x in m <==> x in l || x == r
  {
    if l == [] || pos[r] < pos[l[0]] then [r] + l else [l[0]] + InsertSorted(l[1..], r, pos)
  }

  /** rb_next */
  function Latter(l: seq<Id>, r: Id): (n: Option<Id>)
    ensures n.Some? ==> n.value in l
  {
    if |l| < 2 then None else if l[0] == r then Some(l[1]) else Latter(l[1..], r)
  }

  /** list_move of `req` behind `next`, and `next` leaving the list: `req` takes its place. */
  function TakePlace(l: seq<Id>, req: Id, next: Id): (m: seq<Id>)
    requires req != next
    ensures forall x :: x in m <==> (x in l && x != req && x != next) || (x == req && next in l)
  {
    if l == [] then []
    else if l[0] == req then TakePlace(l[1..], req, next)
    else if l[0] == next then [req] + Without(Without(l[1..], req), next)
    else [l[0]] + TakePlace(l[1..], req, next)
  }

  /** Non-decreasing in `key`. */
  ghost predicate Ordered(l: seq<Id>, key: map<Id, nat>) {
    l == [] ||
    ((forall x :: x in l ==> x in key && l[0] in key && key[l[0]] <= key[x]) && Ordered(l[1..], key))
  }

  /** One direction: both views hold the same requests, each in its own order. */
  ghost predicate LaneOk(l: Lane, pos: map<Id, nat>, due: map<Id, nat>, horizon: nat) {
    && NoDup(l.fifo) && NoDup(l.sort)
    && (forall x :: x in l.fifo <==> x in l.sort)
    && (forall x :: x in l.fifo ==> x in pos && x in due && due[x] <= horizon)
    && Ordered(l.sort, pos) && Ordered(l.fifo, due)
    && (l.next.Some? ==> l.next.value in l.sort)
  }

  ghost predicate DirOk(d: DD, dir: bool) { LaneOk(d.At(dir), d.pos, d.due, d.now + d.Expire(dir)) }

  /** What every operation keeps. */
  ghost predicate Ok(d: DD) {
    && DirOk(d, false) && DirOk(d, true)
    && (forall x :: x in d.read.fifo ==> x !in d.write.fifo)
    && (d.read.next.None? || d.write.next.None?)
    && d.starved <= d.writesStarved
  }

  predicate Queued(d: DD, r: Id) { r in d.read.fifo || r in d.write.fifo }

  /** deadline_add_request */
  function Add(d: DD, r: Id, dir: bool, sector: nat): DD
    requires forall x :: x in d.At(dir).sort ==> x in d.pos
  {
    var l := d.At(dir);
    var pos := d.pos[r := sector];
    d.Put(dir, l.(sort := InsertSorted(l.sort, r, pos), fifo := l.fifo + [r]))
     .(pos := pos, due := d.due[r := d.now + d.Expire(dir)])
  }

  function WithoutLane(l: Lane, r: Id): Lane {
    Lane(Without(l.sort, r), Without(l.fifo, r), if l.next == Some(r) then Latter(l.sort, r) else l.next)
  }

  /** deadline_remove_request */
  function Remove(d: DD, dir: bool, r: Id): DD { d.Put(dir, WithoutLane(d.At(dir), r)) }

  /** deadline_merged_request after a front merge: the request now begins at `sector`. */
  function FrontMerged(d: DD, dir: bool, r: Id, sector: nat): DD
    requires forall x :: x in d.At(dir).sort ==> x in d.pos
  {
    var l := d.At(dir);
    var pos := d.pos[r := sector];
    d.Put(dir, l.(sort := InsertSorted(Without(l.sort, r), r, pos))).(pos := pos)
  }

  /** deadline_merged_requests: `next` has been merged into `req`. */
  function MergedRequests(d: DD, dir: bool, req: Id, next: Id): DD
    requires req != next && req in d.due && next in d.due
  {
    if d.due[next] < d.due[req] then
      var l := d.At(dir);
      var m := d.(due := d.due[req := d.due[next]]);
      m.Put(dir, WithoutLane(l, next).(fifo := TakePlace(l.fifo, req, next)))
    else
      Remove(d, dir, next)
  }

  /** Both next_rq cleared, then the one of `dir` set behind `r`. */
  function Aim(d: DD, dir: bool, r: Id): DD {
    var n := Latter(d.At(dir).sort, r);
    d.(read := d.read.(next := if dir then None else n), write := d.write.(next := if dir then n else None))
  }

  /** deadline_move_request */
  function Move(d: DD, dir: bool, r: Id): DD { Remove(Aim(d, dir, r), dir, r).(out := d.out + [r]) }

  /** The request to go on with, if a batch is running. */
  function Running(d: DD): Option<Id> { if d.write.next.Some? then d.write.next else d.read.next }

  predicate InBatch(d: DD) { Running(d).Some? && d.batching < d.fifoBatch }

  /** The direction of a new batch, and the count of times reads have gone before writes. */
  function NewDir(d: DD): bool {
    if d.read.fifo != [] then d.write.fifo != [] && d.starved >= d.writesStarved else true
  }

  function NewStarved(d: DD): nat {
    if NewDir(d) then 0 else if d.write.fifo != [] then d.starved + 1 else d.starved
  }

  /** deadline_check_fifo */
  predicate Expired(d: DD, r: Id) { r in d.due && d.due[r] < d.now }

  function BatchHead(d: DD, dir: bool): Id
    requires d.At(dir).fifo != []
  {
    var l := d.At(dir);
    if Expired(d, l.fifo[0]) || l.next.None? then l.fifo[0] else l.next.value
  }

  /** deadline_dispatch_requests */
  function Dispatch(d: DD): DD {
    if InBatch(d) then
      Move(d.(batching := d.batching + 1), d.write.next.Some?, Running(d).value)
    else if d.read.fifo == [] && d.write.fifo == [] then d
    else
      var dir := NewDir(d);
      Move(d.(starved := NewStarved(d), batching := 1), dir, BatchHead(d, dir))
  }

  datatype Step =
    | AddStep(r: Id, dir: bool, sector: nat)
    | FrontMerge(dir: bool, r: Id, sector: nat)
    | MergeStep(dir: bool, req: Id, next: Id)
    | DispatchStep
    | Tick(jiffies: nat)

  ghost predicate Enabled(d: DD, s: Step) {
    match s
    case AddStep(r, _, _) => !Queued(d, r)
    case FrontMerge(dir, r, _) => r in d.At(dir).fifo
    case MergeStep(dir, req, next) => req != next && req in d.At(dir).fifo && next in d.At(dir).fifo
    case DispatchStep => true
    case Tick(_) => true
  }

  ghost function Apply(d: DD, s: Step): DD
    requires Ok(d) && Enabled(d, s)
  {
    match s
    case AddStep(r, dir, sector) => Add(d, r, dir, sector)
    case FrontMerge(dir, r, sector) => FrontMerged(d, dir, r, sector)
    case MergeStep(dir, req, next) => MergedRequests(d, dir, req, next)
    case DispatchStep => Dispatch(d)
    case Tick(n) => d.(now := d.now + n)
  }
}
