/** The list of kernel/bio.c: all buffers on one doubly linked cycle through the head, most recently
    released first.  Every buffer carries the time it was last moved to the front, which the program
    does not have: its turn in binit, later its last brelse to a count of zero. */
module Lru {
  import opened Common

  const NBUF: nat := 30

  /** The list head; the buffers are 0..NBUF. */
  const HEAD: nat := 30

  /** `on` holds the buffers on the list, `stamp` the time each was moved to the front, before `now`. */
  datatype List = List(prev: seq<nat>, next: seq<nat>, on: set<nat>, stamp: seq<nat>, now: nat)

  function At(s: seq<nat>, i: nat): nat { if i < |s| then s[i] else 0 }

  /** The head stands before the newest and after the oldest. */
  function Front(l: List, a: nat): int { if a == HEAD then l.now else At(l.stamp, a) }

  function Back(l: List, b: nat): int { if b == HEAD then -1 else At(l.stamp, b) }

  /** `b` is the newest among what is older than `a`. */
  ghost predicate Follows(l: List, a: nat, b: nat)
  {
    Back(l, b) < Front(l, a) && forall c | c in l.on :: !(Back(l, b) < At(l.stamp, c) < Front(l, a))
  }

  ghost predicate Node(l: List, a: nat) { a == HEAD || a in l.on }

  ghost predicate Shaped(l: List)
  {
    && |l.prev| == |l.next| == NBUF + 1 && |l.stamp| == NBUF
    && (forall a | a in l.on :: a < NBUF && At(l.stamp, a) < l.now)
    && forall a, b | a in l.on && b in l.on && a != b :: At(l.stamp, a) != At(l.stamp, b)
  }

  /** next and prev undo each other at `a`. */
  ghost predicate Joined(l: List, a: nat)
  {
    && Node(l, At(l.next, a)) && At(l.prev, At(l.next, a)) == a
    && Node(l, At(l.prev, a)) && At(l.next, At(l.prev, a)) == a
  }

  ghost predicate Link(l: List, a: nat) { Joined(l, a) && Follows(l, a, At(l.next, a)) }

  /** The cycle runs through the head and the buffers from the newest to the oldest. */
  ghost predicate Linked(l: List)
  {
    Shaped(l) && forall a {:trigger Link(l, a)} | Node(l, a) :: Link(l, a)
  }

  function Put(s: seq<nat>, i: nat, x: nat): seq<nat> { if i < |s| then s[i := x] else s }

  function Unlinked(l: List, b: nat): List
  {
    var a, c := At(l.prev, b), At(l.next, b);
    l.(prev := Put(l.prev, c, a), next := Put(l.next, a, c), on := l.on - {b})
  }

  lemma UnlinkJoined(l: List, b: nat, x: nat)
    requires Shaped(l) && b in l.on && x != b && Node(l, x)
    requires Joined(l, x) && Joined(l, b) && Joined(l, At(l.prev, b)) && Joined(l, At(l.next, b))
    ensures Joined(Unlinked(l, b), x)
  {
  }

  lemma UnlinkFollows(l: List, b: nat, x: nat)
    requires Shaped(l) && b in l.on && x != b && Node(l, x) && Joined(l, b) && Joined(l, x)
    requires Follows(l, x, At(l.next, x)) && Follows(l, b, At(l.next, b))
    ensures Follows(Unlinked(l, b), x, At(Unlinked(l, b).next, x))
  {
  }

  lemma UnlinkKeeps(l: List, b: nat)
    requires Linked(l) && b in l.on
    ensures Linked(Unlinked(l, b))
  {
    var l', a, c := Unlinked(l, b), At(l.prev, b), At(l.next, b);
    assert Link(l, b) && Link(l, a) && Link(l, c);
    hide Follows;
    forall x | Node(l', x) ensures Link(l', x) {
      assert Link(l, x);
      UnlinkJoined(l, b, x);
      UnlinkFollows(l, b, x);
    }
  }

  function Pushed(l: List, b: nat): List
  {
    var f := At(l.next, HEAD);
    l.(prev := Put(Put(l.prev, b, HEAD), f, b), next := Put(Put(l.next, b, f), HEAD, b),
       on := l.on + {b}, stamp := Put(l.stamp, b, l.now), now := l.now + 1)
  }

  lemma PushJoined(l: List, b: nat, x: nat)
    requires Shaped(l) && b < NBUF && b !in l.on && (x == b || (Node(l, x) && Joined(l, x)))
    requires Joined(l, HEAD) && Joined(l, At(l.next, HEAD))
    ensures Joined(Pushed(l, b), x)
  {
  }

  lemma PushFollows(l: List, b: nat, x: nat)
    requires Shaped(l) && b < NBUF && b !in l.on
    requires x == b || (Node(l, x) && Follows(l, x, At(l.next, x)) && Node(l, At(l.next, x)))
    requires Follows(l, HEAD, At(l.next, HEAD)) && Node(l, At(l.next, HEAD))
    ensures Follows(Pushed(l, b), x, At(Pushed(l, b).next, x))
  {
  }

  lemma PushKeeps(l: List, b: nat)
    requires Linked(l) && b < NBUF && b !in l.on
    ensures Linked(Pushed(l, b))
  {
    var l', f := Pushed(l, b), At(l.next, HEAD);
    assert Link(l, HEAD) && Link(l, f);
    hide Follows;
    forall x | Node(l', x) ensures Link(l', x) {
      if x != b {
        assert Link(l, x);
      }
      PushJoined(l, b, x);
      PushFollows(l, b, x);
    }
  }

  /** The buffers that follow `a` up to the head. */
  ghost function Chain(l: List, a: nat): seq<nat>
    requires Linked(l) && Node(l, a)
    decreases Front(l, a)
  {
    assert Link(l, a);
    var b := At(l.next, a);
    if b == HEAD then [] else [b] + Chain(l, b)
  }

  lemma {:induction false} ChainVisits(l: List, a: nat)
    requires Linked(l) && Node(l, a)
    ensures var c := Chain(l, a);
            && (forall i | 0 <= i < |c| :: c[i] in l.on && At(l.stamp, c[i]) < Front(l, a))
            && (forall i, j | 0 <= i < j < |c| :: At(l.stamp, c[i]) > At(l.stamp, c[j]))
            && forall x | x in l.on && At(l.stamp, x) < Front(l, a) :: x in c
    decreases Front(l, a)
  {
    assert Link(l, a);
    var b := At(l.next, a);
    if b != HEAD {
      ChainVisits(l, b);
    }
  }

  /** One cycle: from the head, next visits every buffer once, newest first, and comes back. */
  lemma OneCycle(l: List)
    requires Linked(l)
    ensures var c := Chain(l, HEAD);
            && (forall i, j | 0 <= i < j < |c| :: At(l.stamp, c[i]) > At(l.stamp, c[j]))
            && forall x :: x in l.on <==> x in c
  {
    ChainVisits(l, HEAD);
  }

  class Cache {
    var prev: seq<nat>
    var next: seq<nat>
    var dev: seq<nat>
    var blockno: seq<nat>
    var valid: seq<bool>
    var refcnt: seq<nat>
    ghost var on: set<nat>
    ghost var stamp: seq<nat>
    ghost var now: nat

    ghost function View(): List
      reads this
    {
      List(prev, next, on, stamp, now)
    }

    ghost predicate Fields()
      reads this
    {
      |dev| == |blockno| == |valid| == |refcnt| == NBUF
    }

    /** No two buffers hold the same block of a device. */
    ghost predicate OneEach()
      reads this
      requires Fields()
    {
      forall a, b | 0 <= a < NBUF && 0 <= b < NBUF && dev[a] == dev[b] != 0 && blockno[a] == blockno[b] :: a == b
    }

    ghost predicate Valid()
      reads this
    {
      Linked(View()) && Fields() && OneEach() && forall a :: a in on <==> 0 <= a < NBUF
    }

    /** binit, from zeroed memory. */
    constructor ()
      ensures Valid() && refcnt == seq(NBUF, _ => 0) && dev == seq(NBUF, _ => 0) && valid == seq(NBUF, _ => false)
      ensures stamp == seq(NBUF, i => i)
    {
      prev, next := seq(NBUF + 1, _ => HEAD), seq(NBUF + 1, _ => HEAD);
      dev, blockno, valid, refcnt := seq(NBUF, _ => 0), seq(NBUF, _ => 0), seq(NBUF, _ => false), seq(NBUF, _ => 0);
      on, stamp, now := {}, seq(NBUF, i => i), 0;
      new;
      assert Linked(View()) by { assert Link(View(), HEAD); }
      hide Linked;
      var b := 0;
      while b < NBUF
        invariant b <= NBUF && Linked(View()) && Fields() && OneEach() && now == b && stamp == seq(NBUF, i => i)
        invariant forall a :: a in on <==> 0 <= a < b
        invariant refcnt == seq(NBUF, _ => 0) && dev == seq(NBUF, _ => 0) && valid == seq(NBUF, _ => false)
      {
        PushFront(b);
        b := b + 1;
      }
    }

    /** Takes `b` off the list. */
    method Unlink(b: nat)
      requires Linked(View()) && b in on
      modifies this`prev, this`next, this`on
      ensures Linked(View()) && on == old(on) - {b}
    {
      ghost var l := View();
      Neighbours(l, b);
      UnlinkKeeps(l, b);
      hide Linked;
      prev := prev[next[b] := prev[b]];
      next := next[prev[b] := next[b]];
      on := on - {b};
      assert View() == Unlinked(l, b);
    }

    /** Puts `b` behind the head. */
    method PushFront(b: nat)
      requires Linked(View()) && b < NBUF && b !in on
      modifies this`prev, this`next, this`on, this`stamp, this`now
      ensures Linked(View()) && on == old(on) + {b} && now == old(now) + 1
      ensures |old(stamp)| == NBUF && stamp == old(stamp)[b := old(now)]
    {
      ghost var l := View();
      assert Link(l, HEAD);
      PushKeeps(l, b);
      hide Linked, Link;
      next := next[b := next[HEAD]];
      prev := prev[b := HEAD];
      prev := prev[next[HEAD] := b];
      next := next[HEAD := b];
      on, stamp, now := on + {b}, stamp[b := now], now + 1;
      assert View() == Pushed(l, b);
    }

    /** The buffer that holds the block, HEAD if there is none: the first loop of bget. */
    method Lookup(d: nat, n: nat) returns (b: nat)
      requires Valid()
      ensures b != HEAD ==> b in on && dev[b] == d && blockno[b] == n
      ensures b == HEAD ==> forall a | 0 <= a < NBUF :: !(dev[a] == d && blockno[a] == n)
    {
      ghost var l := View();
      assert Link(l, HEAD);
      b := next[HEAD];
      while b != HEAD
        invariant Node(l, b)
        invariant forall a | a in on && At(stamp, a) > Back(l, b) :: !(dev[a] == d && blockno[a] == n)
        decreases Back(l, b) + 1
      {
        if dev[b] == d && blockno[b] == n {
          return;
        }
        assert Link(l, b);
        b := next[b];
      }
    }

    /** The unused buffer that was released first, HEAD if there is none: the second loop of bget. */
    method Oldest() returns (b: nat)
      requires Valid()
      ensures b != HEAD ==> b in on && refcnt[b] == 0
                            && forall a | 0 <= a < NBUF && refcnt[a] == 0 :: stamp[b] <= stamp[a]
      ensures b == HEAD ==> forall a | 0 <= a < NBUF :: refcnt[a] > 0
    {
      ghost var l := View();
      assert Link(l, HEAD);
      b := prev[HEAD];
      assert Link(l, b);
      while b != HEAD
        invariant Node(l, b)
        invariant forall a | a in on && At(stamp, a) < Front(l, b) :: refcnt[a] > 0
        decreases now - Front(l, b)
      {
        assert Link(l, b);
        if refcnt[b] == 0 {
          return;
        }
        b := prev[b];
        assert Link(l, b);
      }
    }

    /** bget up to the sleep lock: the buffer of the block, with one more reference; None is the panic
        when every buffer is in use. */
    method Bget(d: nat, n: nat) returns (r: Option<nat>)
      requires Valid()
      modifies this`dev, this`blockno, this`valid, this`refcnt
      ensures Fields() && (d != 0 ==> Valid())
      ensures r.Some? ==> r.value < NBUF && dev[r.value] == d && blockno[r.value] == n
      ensures r.Some? ==> refcnt == old(refcnt)[r.value := old(refcnt)[r.value] + 1]
      ensures (exists a :: 0 <= a < NBUF && old(dev)[a] == d && old(blockno)[a] == n)
              ==> r.Some? && dev == old(dev) && blockno == old(blockno) && valid == old(valid)
      ensures (forall a | 0 <= a < NBUF :: !(old(dev)[a] == d && old(blockno)[a] == n)) ==>
                if r.Some? then
                  var b := r.value;
                  && old(refcnt)[b] == 0 && (forall a | 0 <= a < NBUF && old(refcnt)[a] == 0 :: stamp[b] <= stamp[a])
                  && dev == old(dev)[b := d] && blockno == old(blockno)[b := n] && valid == old(valid)[b := false]
                else
                  forall a | 0 <= a < NBUF :: old(refcnt)[a] > 0
    {
      hide Linked;
      var b := Lookup(d, n);
      if b != HEAD {
        refcnt := refcnt[b := refcnt[b] + 1];
        return Some(b);
      }
      b := Oldest();
      if b == HEAD {
        return None;
      }
      dev, blockno, valid, refcnt := dev[b := d], blockno[b := n], valid[b := false], refcnt[b := 1];
      r := Some(b);
    }

    /** brelse after the sleep lock is released: a buffer no longer used becomes the newest. */
    method Brelse(b: nat)
      requires Valid() && b < NBUF && refcnt[b] > 0
      modifies this`prev, this`next, this`refcnt, this`on, this`stamp, this`now
      ensures Valid() && refcnt == old(refcnt)[b := old(refcnt)[b] - 1]
      ensures if refcnt[b] == 0 then stamp == old(stamp)[b := old(now)] && now == old(now) + 1
              else stamp == old(stamp) && now == old(now) && prev == old(prev) && next == old(next)
    {
      hide Linked;
      refcnt := refcnt[b := refcnt[b] - 1];
      if refcnt[b] == 0 {
        Unlink(b);
        PushFront(b);
      }
    }

    /** bpin. */
    method Bpin(b: nat)
      requires Valid() && b < NBUF
      modifies this`refcnt
      ensures Valid() && refcnt == old(refcnt)[b := old(refcnt)[b] + 1]
    {
      refcnt := refcnt[b := refcnt[b] + 1];
    }

    /** bunpin; the list is left alone even when the count drops to zero. */
    method Bunpin(b: nat)
      requires Valid() && b < NBUF && refcnt[b] > 0
      modifies this`refcnt
      ensures Valid() && refcnt == old(refcnt)[b := old(refcnt)[b] - 1]
    {
      refcnt := refcnt[b := refcnt[b] - 1];
    }
  }

  lemma Neighbours(l: List, b: nat)
    requires Linked(l) && b in l.on
    ensures |l.prev| == |l.next| == NBUF + 1 && b < NBUF
    ensures l.next[b] <= HEAD && l.prev[b] <= HEAD
  {
    assert Link(l, b);
  }
}
