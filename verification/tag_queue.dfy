/** blk_queue_tag and its queue, updated in place. */
module TagQueue {
  import opened Lists
  import opened TagModel

  class TagMap {
    var realMax: nat
    var maxDepth: nat
    var refcnt: nat
    var bits: array<bool>
    var index: array<Option<Id>>
    var busy: seq<Id>
    var queue: seq<Id>
    var tag: map<Id, nat>
    var async: set<Id>
    var asyncInFlight: int
    var syncInFlight: int

    /** init_tag_map */
    constructor (depth: nat, nrRequests: Option<nat>)
      ensures fresh(bits) && fresh(index) && Valid(View())
      ensures var d := Clamped(depth, nrRequests);
              View() == Tags(d, d, 1, View().bits, View().index, [], [], map[], {}, 0, 0)
    {
      var d := depth;
      if nrRequests.Some? && d > nrRequests.value * 2 {
        d := nrRequests.value * 2;
      }
      realMax, maxDepth, refcnt := d, d, 1;
      bits := new bool[Align(d)](_ => false);
      index := new Option<Id>[d](_ => None);
      busy, queue, tag, async, asyncInFlight, syncInFlight := [], [], map[], {}, 0, 0;
      new;
      forall t | 0 <= t < bits.Length
        ensures BitOk(View(), t)
      {
      }
    }

    ghost function View(): Tags
      reads this, bits, index
    {
      Tags(realMax, maxDepth, refcnt, bits[..], index[..], busy, queue, tag, async, asyncInFlight, syncInFlight)
    }

    /** find_first_zero_bit */
    method FindFirstZero(n: nat) returns (t: nat)
      requires n <= bits.Length
      ensures t == FirstZero(bits[..], 0, n)
    {
      t := 0;
      while t < n && bits[t]
        invariant t <= n
        invariant FirstZero(bits[..], 0, n) == FirstZero(bits[..], t, n)
      {
        t := t + 1;
      }
    }

    method InFlight(r: Id, change: int)
      modifies this`asyncInFlight, this`syncInFlight
      ensures View() == Flown(old(View()), r, change)
    {
      if r in async {
        asyncInFlight := asyncInFlight + change;
      } else {
        syncInFlight := syncInFlight + change;
      }
    }

    /** The request takes tag t, leaves the queue and heads the busy list. */
    method Give(r: Id, t: nat)
      requires t < bits.Length && t < index.Length
      modifies this, bits, index
      ensures bits == old(bits) && index == old(index)
      ensures View() == Given(old(View()), r, t)
    {
      bits[t] := true;
      tag := tag[r := t];
      index[t] := Some(r);
      queue := Without(queue, r);
      busy := [r] + busy;
      assert bits[..] == old(bits[..])[t := true] && index[..] == old(index[..])[t := Some(r)];
      InFlight(r, 1);
    }

    /** blk_queue_start_tag; the result is 1 when the request gets no tag. */
    method StartTag(r: Id) returns (res: int)
      requires Valid(View()) && r in queue
      modifies this, bits, index
      ensures bits == old(bits) && index == old(index) && Valid(View())
      ensures res == 0 || res == 1
      ensures res == 0 ==> Start(old(View()), r) == Some(View())
      ensures res == 1 ==> Start(old(View()), r) == None && View() == old(View())
    {
      StartSound(View(), r);
      var depth := maxDepth;
      if r in async && depth > 1 {
        depth := depth - 2;
        if depth == 0 {
          depth := 1;
        }
        if asyncInFlight > depth {
          return 1;
        }
      }
      assert depth == Limit(View(), r);
      var t := FindFirstZero(depth);
      if t >= depth {
        return 1;
      }
      Give(r, t);
      res := 0;
    }

    /** blk_queue_end_tag; a live request's tag is never beyond the map, and its bit is set. */
    method EndTag(r: Id)
      requires Valid(View()) && r in tag
      modifies this, bits, index
      ensures bits == old(bits) && index == old(index)
      ensures old(tag[r]) < old(realMax) && View() == End(old(View()), r) && Valid(View())
    {
      EndValid(View(), r);
      assert TagOk(View(), r) && BitOk(View(), tag[r]);
      var t := tag[r];
      assert t < realMax && index[t] == Some(r) && bits[t];
      busy := Without(busy, r);
      tag := tag - {r};
      index[t] := None;
      bits[t] := false;
      assert bits[..] == old(bits[..])[t := false] && index[..] == old(index[..])[t := None];
    }

    /** blk_requeue_request of a tagged request: end its tag, then back to the front of the queue. */
    method RequeueRequest(r: Id)
      requires Valid(View()) && r in tag
      modifies this, bits, index
      ensures bits == old(bits) && index == old(index) && Valid(View())
      ensures old(tag[r]) < old(realMax) && View() == Requeue(old(View()), r)
    {
      RequeueValid(View(), r);
      EndTag(r);
      InFlight(r, -1);
      queue := [r] + queue;
    }

    /** blk_queue_invalidate_tags */
    method InvalidateTags()
      requires Valid(View())
      modifies this, bits, index
      ensures bits == old(bits) && index == old(index) && Valid(View())
      ensures View() == Invalidate(old(View()))
      ensures busy == [] && tag == map[] && queue == Reversed(old(busy)) + old(queue)
      ensures forall t :: 0 <= t < bits.Length ==> !bits[t]
    {
      InvalidateFrees(View());
      ghost var start := View();
      while busy != []
        invariant Valid(View()) && Invalidate(View()) == Invalidate(start)
        invariant bits == old(bits) && index == old(index)
        decreases |busy|
      {
        RequeueHead(View());
        RequeueRequest(busy[0]);
      }
      assert View().bits == bits[..];
      assert forall t :: 0 <= t < |View().bits| ==> !View().bits[t];
    }

    /** blk_queue_resize_tags; `overrun` says that the copy would go beyond the new tables. */
    method ResizeTags(depth: nat, nrRequests: nat, memory: bool) returns (err: int, overrun: bool)
      requires Valid(View())
      modifies this
      ensures overrun <==> Resize(old(View()), depth, nrRequests, memory).Overrun?
      ensures !overrun ==> Resized(View(), err) == Resize(old(View()), depth, nrRequests, memory) && Valid(View())
      ensures fresh(bits) || bits == old(bits)
      ensures fresh(index) || index == old(index)
    {
      ResizeOverrunsIff(View(), depth, nrRequests, memory);
      if depth <= realMax {
        ResizeValid(View(), depth, nrRequests, memory);
        maxDepth := depth;
        return 0, false;
      }
      if refcnt != 1 {
        return -EBUSY, false;
      }
      if !memory {
        return -ENOMEM, false;
      }
      var d := depth;
      if d > nrRequests * 2 {
        d := nrRequests * 2;
      }
      if d < realMax {
        return 0, true;
      }
      ResizeValid(View(), depth, nrRequests, memory);
      Grow(d);
      err, overrun := 0, false;
    }

    /** A larger map with the old tags copied back. */
    method Grow(depth: nat)
      requires index.Length == realMax <= depth && bits.Length == Align(realMax)
      modifies this`realMax, this`maxDepth, this`bits, this`index
      ensures fresh(bits) && fresh(index) && View() == Grown(old(View()), depth)
    {
      AlignMono(realMax, depth);
      ghost var g := Grown(View(), depth);
      var oldIndex, oldBits, n := index, bits, realMax;
      var newIndex := new Option<Id>[depth](_ => None);
      var newBits := new bool[Align(depth)](_ => false);
      for i := 0 to n
        modifies newIndex
        invariant forall t :: 0 <= t < depth ==> newIndex[t] == if t < i then oldIndex[t] else None
      {
        newIndex[i] := oldIndex[i];
      }
      for i := 0 to oldBits.Length
        modifies newBits
        invariant forall t :: 0 <= t < newBits.Length ==> newBits[t] == (t < i && oldBits[t])
      {
        newBits[i] := oldBits[i];
      }
      realMax, maxDepth, index, bits := depth, depth, newIndex, newBits;
      assert index[..] == g.index;
      assert bits[..] == g.bits;
    }
  }
}
