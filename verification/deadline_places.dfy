/** Where a request stands in its FIFO, and what each operation does to its place. */
module DeadlinePlaces {
  import opened Lists
  import opened DeadlineModel
  import opened DeadlineInvariant

  /** How many requests of its FIFO stand before `r`. */
  ghost function Ahead(l: seq<Id>, r: Id): nat {
    if l == [] || l[0] == r then 0 else 1 + Ahead(l[1..], r)
  }

  /** How many requests are due at `t` or earlier. */
  ghost function Rank(l: seq<Id>, due: map<Id, nat>, t: nat): nat {
    if l == [] then 0 else (if l[0] in due && due[l[0]] <= t then 1 else 0) + Rank(l[1..], due, t)
  }

  /** The place of `r` in its FIFO, counting the other requests due no later, or only those that stand before it. */
  ghost function Place(d: DD, dir: bool, r: Id, ties: bool): nat
    requires r in d.At(dir).fifo && r in d.due
  {
    if ties then
      RankIn(d.At(dir).fifo, r, d.due, d.due[r]);
      Rank(d.At(dir).fifo, d.due, d.due[r]) - 1
    else
      Ahead(d.At(dir).fifo, r)
  }

  // ---- counting by deadline ----

  lemma {:induction false} RankIn(l: seq<Id>, r: Id, due: map<Id, nat>, t: nat)
    requires r in l && r in due && due[r] <= t
    ensures Rank(l, due, t) >= 1
  {
    if l[0] != r {
      RankIn(l[1..], r, due, t);
    }
  }

  lemma {:induction false} RankMono(l: seq<Id>, due: map<Id, nat>, t: nat, t': nat)
    requires t <= t'
    ensures Rank(l, due, t) <= Rank(l, due, t')
  {
    if l != [] {
      RankMono(l[1..], due, t, t');
    }
  }

  lemma {:induction false} RankWithout(l: seq<Id>, x: Id, due: map<Id, nat>, t: nat)
    ensures Rank(Without(l, x), due, t) <= Rank(l, due, t)
    ensures x in l && x in due && due[x] <= t ==> Rank(Without(l, x), due, t) < Rank(l, due, t)
  {
    if l != [] {
      RankWithout(l[1..], x, due, t);
      if l[0] != x {
        assert ([l[0]] + Without(l[1..], x))[1..] == Without(l[1..], x);
      }
    }
  }

  lemma {:induction false} RankAppend(l: seq<Id>, x: Id, due: map<Id, nat>, t: nat)
    requires x in due && due[x] > t
    ensures Rank(l + [x], due, t) == Rank(l, due, t)
  {
    if l == [] {
      assert ([x])[1..] == [];
    } else {
      RankAppend(l[1..], x, due, t);
      assert (l + [x])[1..] == l[1..] + [x];
    }
  }

  lemma {:induction false} RankSame(l: seq<Id>, due: map<Id, nat>, due': map<Id, nat>, t: nat)
    requires forall x :: x in l ==> x in due && x in due' && due'[x] == due[x]
    ensures Rank(l, due', t) == Rank(l, due, t)
  {
    if l != [] {
      RankSame(l[1..], due, due', t);
    }
  }

  /** Of two merged requests the later deadline leaves the FIFO. */
  lemma {:induction false} RankTakePlace(l: seq<Id>, req: Id, next: Id, due: map<Id, nat>, t: nat)
    requires req != next && next in due && forall x :: x in l ==> x in due
    ensures Rank(TakePlace(l, req, next), due[req := due[next]], t) <= Rank(l, due, t)
  {
    if l != [] {
      var due' := due[req := due[next]];
      var rest := l[1..];
      if l[0] == next {
        var m := Without(Without(rest, req), next);
        RankWithout(rest, req, due, t);
        RankWithout(Without(rest, req), next, due, t);
        RankSame(m, due, due', t);
        assert ([req] + m)[1..] == m;
      } else {
        RankTakePlace(rest, req, next, due, t);
        if l[0] != req {
          var m := TakePlace(rest, req, next);
          assert ([l[0]] + m)[1..] == m;
        }
      }
    }
  }

  // ---- counting by position ----

  lemma {:induction false} AheadWithout(l: seq<Id>, x: Id, r: Id)
    requires x != r && r in l
    ensures Ahead(Without(l, x), r) <= Ahead(l, r)
    ensures l[0] == x ==> Ahead(Without(l, x), r) < Ahead(l, r)
  {
    if l[0] != r {
      AheadWithout(l[1..], x, r);
      if l[0] != x {
        assert ([l[0]] + Without(l[1..], x))[1..] == Without(l[1..], x);
      }
    }
  }

  lemma {:induction false} AheadAppend(l: seq<Id>, x: Id, r: Id)
    requires r in l
    ensures Ahead(l + [x], r) == Ahead(l, r)
  {
    if l[0] != r {
      AheadAppend(l[1..], x, r);
      assert (l + [x])[1..] == l[1..] + [x];
    }
  }

  lemma {:induction false} AheadTakePlace(l: seq<Id>, req: Id, next: Id, r: Id)
    requires req != next && r != req && r != next && r in l
    ensures Ahead(TakePlace(l, req, next), r) <= Ahead(l, r)
  {
    if l[0] != r {
      var rest := l[1..];
      if l[0] == next {
        AheadWithout(rest, req, r);
        AheadWithout(Without(rest, req), next, r);
        var m := Without(Without(rest, req), next);
        assert ([req] + m)[1..] == m;
      } else {
        AheadTakePlace(rest, req, next, r);
        var m := TakePlace(rest, req, next);
        assert ([l[0]] + m)[1..] == m;
      }
    }
  }

  /** `req` comes to stand where `next` stood, or one further on. */
  lemma {:induction false} AheadOfTaker(l: seq<Id>, req: Id, next: Id)
    requires req != next && next in l
    ensures Ahead(TakePlace(l, req, next), req) <= Ahead(l, next)
  {
    if l[0] != next {
      AheadOfTaker(l[1..], req, next);
      if l[0] != req {
        var m := TakePlace(l[1..], req, next);
        assert ([l[0]] + m)[1..] == m;
      }
    }
  }

  lemma {:induction false} AheadByDeadline(l: seq<Id>, x: Id, y: Id, due: map<Id, nat>)
    requires x in l && y in l && Ordered(l, due) && due[x] < due[y]
    ensures Ahead(l, x) < Ahead(l, y)
  {
    if l[0] != x {
      assert l[0] != y;
      AheadByDeadline(l[1..], x, y, due);
    }
  }

  /** What is left of the places when `next` goes. */
  lemma {:induction false} AheadLeft(l: seq<Id>, req: Id, next: Id)
    requires NoDup(l) && req in l && next in l && req != next
    ensures Ahead(Without(l, next), req) == if Ahead(l, next) < Ahead(l, req) then Ahead(l, req) - 1 else Ahead(l, req)
  {
    assert NoDup(l[1..]);
    if l[0] == next {
      WithoutKeeps(l, next, map[]);
    } else if l[0] != req {
      AheadLeft(l[1..], req, next);
      assert ([l[0]] + Without(l[1..], next))[1..] == Without(l[1..], next);
    }
  }

  // ---- merges ----

  /** The request that carries the sectors of `r` after a step. */
  function Carrier(s: Step, r: Id): Id { if s.MergeStep? && s.next == r then s.req else r }

  /** `next`, merged into `req`, loses no place: the deadlines differ, or `req` stands at most one behind it. */
  ghost predicate NoPlaceLost(d: DD, dir: bool, req: Id, next: Id)
    requires req in d.due && next in d.due
  {
    d.due[next] != d.due[req] || Ahead(d.At(dir).fifo, req) <= Ahead(d.At(dir).fifo, next) + 1
  }

  lemma {:induction false} MergedPlaceIff(d: DD, dir: bool, req: Id, next: Id)
    requires Ok(d) && Enabled(d, MergeStep(dir, req, next))
    ensures Ahead(MergedRequests(d, dir, req, next).At(dir).fifo, req) <= Ahead(d.At(dir).fifo, next)
            <==> NoPlaceLost(d, dir, req, next)
  {
    var l := d.At(dir).fifo;
    assert DirOk(d, dir);
    if d.due[next] < d.due[req] {
      AheadOfTaker(l, req, next);
    } else {
      AheadLeft(l, req, next);
      if d.due[req] < d.due[next] {
        AheadByDeadline(l, req, next, d.due);
      }
    }
  }

  /** By position: no merge moves a request back, except the one MergedPlaceIff speaks of. */
  lemma {:induction false} MergeAhead(d: DD, dir: bool, req: Id, next: Id, r: Id)
    requires Ok(d) && Enabled(d, MergeStep(dir, req, next)) && r in d.At(dir).fifo
    requires r == next ==> NoPlaceLost(d, dir, req, next)
    ensures var c := Carrier(MergeStep(dir, req, next), r);
            Ahead(MergedRequests(d, dir, req, next).At(dir).fifo, c) <= Ahead(d.At(dir).fifo, r)
  {
    var l := d.At(dir).fifo;
    assert DirOk(d, dir);
    if r == next {
      MergedPlaceIff(d, dir, req, next);
    } else if d.due[next] >= d.due[req] {
      AheadWithout(l, next, r);
    } else if r == req {
      AheadOfTaker(l, req, next);
      AheadByDeadline(l, next, req, d.due);
    } else {
      AheadTakePlace(l, req, next, r);
    }
  }

  /** By deadline: no merge moves any request back. */
  lemma {:induction false} MergeRank(d: DD, dir: bool, req: Id, next: Id, t: nat)
    requires Ok(d) && Enabled(d, MergeStep(dir, req, next))
    ensures var j := MergedRequests(d, dir, req, next);
            Rank(j.At(dir).fifo, j.due, t) <= Rank(d.At(dir).fifo, d.due, t)
  {
    var l := d.At(dir).fifo;
    assert DirOk(d, dir);
    if d.due[next] >= d.due[req] {
      RankWithout(l, next, d.due, t);
    } else {
      RankTakePlace(l, req, next, d.due, t);
    }
  }

  /** The carrier is queued in the same direction and due no later. */
  lemma {:induction false} CarrierDue(d: DD, dir: bool, req: Id, next: Id, r: Id)
    requires Ok(d) && Enabled(d, MergeStep(dir, req, next)) && r in d.At(dir).fifo
    ensures var j := MergedRequests(d, dir, req, next);
            var c := Carrier(MergeStep(dir, req, next), r);
            r in d.due && c in j.At(dir).fifo && c in j.due && j.due[c] <= d.due[r]
  {
    assert DirOk(d, dir);
  }

  lemma {:induction false} MergePlace(d: DD, dir: bool, req: Id, next: Id, r: Id, ties: bool)
    requires Ok(d) && Enabled(d, MergeStep(dir, req, next)) && r in d.At(dir).fifo && r in d.due
    requires ties || r != next || NoPlaceLost(d, dir, req, next)
    ensures var j := MergedRequests(d, dir, req, next);
            var c := Carrier(MergeStep(dir, req, next), r);
            && c in j.At(dir).fifo && c in j.due && j.due[c] <= d.due[r]
            && Place(j, dir, c, ties) <= Place(d, dir, r, ties)
  {
    CarrierDue(d, dir, req, next, r);
    if ties {
      var j := MergedRequests(d, dir, req, next);
      var c := Carrier(MergeStep(dir, req, next), r);
      MergeRank(d, dir, req, next, d.due[r]);
      RankMono(j.At(dir).fifo, j.due, j.due[c], d.due[r]);
    } else {
      MergeAhead(d, dir, req, next, r);
    }
  }

  // ---- other steps ----

  /** A merge in the other direction. */
  lemma {:induction false} MergeAside(d: DD, dir: bool, req: Id, next: Id, r: Id, ties: bool)
    requires Ok(d) && Enabled(d, MergeStep(!dir, req, next)) && r in d.At(dir).fifo && r in d.due
    ensures var j := MergedRequests(d, !dir, req, next);
            && Carrier(MergeStep(!dir, req, next), r) == r && r in j.At(dir).fifo && r in j.due
            && j.due[r] == d.due[r] && Place(j, dir, r, ties) == Place(d, dir, r, ties)
  {
    var j := MergedRequests(d, !dir, req, next);
    assert DirOk(d, dir) && j.At(dir) == d.At(dir);
    RankSame(d.At(dir).fifo, d.due, j.due, d.due[r]);
  }

  lemma {:induction false} AddPlace(d: DD, r': Id, dir': bool, sector: nat, dir: bool, r: Id, ties: bool)
    requires Ok(d) && !Queued(d, r') && r in d.At(dir).fifo && Expired(d, r)
    ensures var j := Add(d, r', dir', sector);
            && r in j.At(dir).fifo && r in j.due && j.due[r] == d.due[r]
            && Place(j, dir, r, ties) == Place(d, dir, r, ties)
  {
    var l := d.At(dir).fifo;
    var j := Add(d, r', dir', sector);
    assert DirOk(d, dir);
    RankSame(l, d.due, j.due, d.due[r]);
    if dir' == dir {
      AheadAppend(l, r', r);
      RankAppend(l, r', j.due, d.due[r]);
    }
  }

  /** Moving another request out does not put `r` back, and moving the head of its FIFO out puts it forward. */
  lemma {:induction false} MovePlace(d: DD, dir': bool, x: Id, dir: bool, r: Id, ties: bool)
    requires Ok(d) && x in d.At(dir').fifo && x != r && r in d.At(dir).fifo && r in d.due
    ensures var j := Move(d, dir', x);
            && r in j.At(dir).fifo && Place(j, dir, r, ties) <= Place(d, dir, r, ties)
            && (dir' == dir && x == d.At(dir).fifo[0] ==> Place(j, dir, r, ties) < Place(d, dir, r, ties))
  {
    var l := d.At(dir).fifo;
    assert DirOk(d, dir);
    if dir' == dir {
      AheadWithout(l, x, r);
      RankWithout(l, x, d.due, d.due[r]);
    }
  }
}
