/** kernel/virtio_disk.c: requests in flight between the driver and the device, over the split
    virtqueue of section 2.6 of VIRTIO 1.1.  Everything the driver does under vdisk_lock between two
    sleeps is one method; the device takes requests in ring order and completes them in any order. */
module Virtio {
  import opened Common

  const NUM: nat := 8
  const UINT16: nat := 0x1_0000
  const F_NEXT: nat := 1
  const F_WRITE: nat := 2

  /** flag & VRING_DESC_F_NEXT. */
  predicate HasNext(flags: nat) { flags % 2 == 1 }

  /** What a descriptor's address points to: a command header, the data of a buffer, or a status byte. */
  datatype Target = Null | Ops(i: nat) | Bytes(buf: nat) | Status(i: nat)

  datatype Desc = Desc(addr: Target, len: nat, flags: nat, next: nat)

  function NoDesc(): Desc { Desc(Null, 0, 0, 0) }

  /** struct virtio_blk_req: VIRTIO_BLK_T_OUT or VIRTIO_BLK_T_IN, and the sector. */
  datatype Op = Op(write: bool, sector: nat)

  /** What is kept for the chain with this head: disk.info (the buffer, None for the null pointer, and
      the device's status byte) and disk.ops (the command header). */
  datatype Info = Info(b: Option<nat>, status: nat, op: Op)

  /** What a descriptor is used for: nothing, an allocation in progress, or the chain with this head. */
  datatype Role = Free | Mine | Part(head: nat)

  /** Where a request is: in the avail ring, taken by the device, in the used ring, or seen by the
      interrupt handler. */
  datatype Phase = Offered | Taken | Done | Seen

  datatype Req = Req(mid: nat, tail: nat, buf: nat, op: Op, phase: Phase)

  // ---------------------------------------------------------------------------
  // Rings indexed by wrapping 16-bit counters
  // ---------------------------------------------------------------------------

  /** The last |q| of `n` entries ever written to the ring are `q`. */
  ghost predicate Holds(ring: seq<nat>, n: nat, q: seq<nat>)
  {
    |ring| == NUM && |q| <= n && |q| <= NUM && forall i | 0 <= i < |q| :: ring[(n - |q| + i) % NUM] == q[i]
  }

  lemma RingPut(ring: seq<nat>, n: nat, q: seq<nat>, x: nat)
    requires Holds(ring, n, q) && |q| < NUM
    ensures |ring| == NUM && Holds(ring[n % UINT16 % NUM := x], n + 1, q + [x])
  {
    var ring', q' := ring[n % UINT16 % NUM := x], q + [x];
    forall i | 0 <= i < |q'| ensures ring'[(n + 1 - |q'| + i) % NUM] == q'[i] {
      if i < |q| {
        RingApart(n - |q| + i, n);
      }
    }
  }

  lemma RingApart(k: nat, n: nat)
    requires k < n < k + NUM
    ensures k % NUM != n % NUM && n % UINT16 % NUM == n % NUM
  {
  }

  lemma RingFirst(ring: seq<nat>, n: nat, q: seq<nat>)
    requires Holds(ring, n, q) && q != []
    ensures ring[(n - |q|) % UINT16 % NUM] == q[0] && Holds(ring, n, q[1..])
  {
    assert ring[(n - |q| + 0) % NUM] == q[0];
    forall i | 0 <= i < |q| - 1 ensures ring[(n - (|q| - 1) + i) % NUM] == q[1..][i] {
      assert ring[(n - |q| + (i + 1)) % NUM] == q[i + 1];
    }
  }

  /** The counters tell an empty ring from a full one. */
  lemma CounterExact(n: nat, m: nat)
    requires m <= n <= m + NUM
    ensures m % UINT16 == n % UINT16 <==> m == n
  {
  }

  /** Distinct descriptor numbers: there are at most NUM. */
  ghost predicate Distinct(q: seq<nat>)
  {
    (forall i | 0 <= i < |q| :: q[i] < NUM) && forall i, j | 0 <= i < j < |q| :: q[i] != q[j]
  }

  lemma AtMostNum(q: seq<nat>, x: nat)
    requires Distinct(q) && x < NUM && x !in q
    ensures |q| < NUM
  {
    var s := set i | 0 <= i < |q| :: q[i];
    Image(q);
    assert x !in s && |s + {x}| == |q| + 1;
    hide Distinct;
    AllBelow(s + {x});
  }

  lemma AllBelow(s: set<nat>)
    requires forall x | x in s :: x < NUM
    ensures |s| <= NUM
  {
    var all: set<nat> := {0, 1, 2, 3, 4, 5, 6, 7};
    assert s <= all;
    Smaller(s, all);
  }

  lemma {:induction false} Image(q: seq<nat>)
    requires Distinct(q)
    ensures |(set i | 0 <= i < |q| :: q[i])| == |q|
  {
    if q != [] {
      var r := q[..|q| - 1];
      Image(r);
      var s, t := set i | 0 <= i < |q| :: q[i], set i | 0 <= i < |r| :: r[i];
      assert s == t + {q[|q| - 1]};
    }
  }

  lemma {:induction false} Smaller(a: set<nat>, b: set<nat>)
    requires a <= b
    ensures |a| <= |b|
  {
    if a != {} {
      var x :| x in a;
      Smaller(a - {x}, b - {x});
    }
  }

  // ---------------------------------------------------------------------------
  // Descriptors and chains
  // ---------------------------------------------------------------------------

  predicate In(r: Req, h: nat, i: nat) { i == h || i == r.mid || i == r.tail }

  // The three descriptors of a request, as section 5.2 of VIRTIO 1.1 asks for them.

  function HeadDesc(h: nat, r: Req): Desc { Desc(Ops(h), 16, F_NEXT, r.mid) }

  /** The device reads the buffer for a write to the disk, and writes it for a read. */
  function DataDesc(r: Req): Desc { Desc(Bytes(r.buf), 1024, (if r.op.write then 0 else F_WRITE) + F_NEXT, r.tail) }

  function StatusDesc(h: nat): Desc { Desc(Status(h), 1, F_WRITE, 0) }

  /** The three descriptors of the chain with head `h` are linked, belong to it, and say what the
      request is. */
  ghost predicate ChainOk(desc: seq<Desc>, role: seq<Role>, h: nat, r: Req)
    requires |desc| == |role| == NUM
  {
    && h < NUM && r.mid < NUM && r.tail < NUM && h != r.mid && h != r.tail && r.mid != r.tail
    && role[h] == role[r.mid] == role[r.tail] == Part(h)
    && desc[h] == HeadDesc(h, r) && desc[r.mid] == DataDesc(r) && desc[r.tail] == StatusDesc(h)
  }

  /** flag & VRING_DESC_F_WRITE: the device writes what the descriptor points to. */
  predicate DeviceWrites(flags: nat) { flags / 2 % 2 == 1 }

  /** What the device makes of a chain: the command, the buffer with its length, and which status byte
      it will write. */
  datatype Command = Command(op: Op, buf: nat, len: nat, status: nat)

  /** The device follows the chain from `h`: a command header to read, a buffer to read or write as the
      command says, a status byte to write, and no more. */
  function Decoded(desc: seq<Desc>, info: seq<Info>, h: nat): Option<Command>
  {
    if h < |desc| && HasNext(desc[h].flags) && desc[h].next < |desc| then
      var d0, d1 := desc[h], desc[desc[h].next];
      if HasNext(d1.flags) && d1.next < |desc| then
        var d2 := desc[d1.next];
        if && d0.addr.Ops? && d0.addr.i < |info| && d0.len == 16 && !DeviceWrites(d0.flags)
           && d1.addr.Bytes? && (DeviceWrites(d1.flags) <==> !info[d0.addr.i].op.write)
           && d2.addr.Status? && d2.len == 1 && DeviceWrites(d2.flags) && !HasNext(d2.flags)
        then Some(Command(info[d0.addr.i].op, d1.addr.buf, d1.len, d2.addr.i))
        else None
      else None
    else None
  }

  /** The device sees exactly the request: its direction and sector, its buffer of 1024 bytes, and the
      status byte that the interrupt handler looks at. */
  lemma DeviceSeesRequest(free: seq<bool>, desc: seq<Desc>, role: seq<Role>, reqs: map<nat, Req>, info: seq<Info>,
                          busy: set<nat>, h: nat)
    requires Descs(free, desc, role, reqs) && Bufs(reqs, info, busy) && h in reqs
    ensures Decoded(desc, info, h) == Some(Command(reqs[h].op, reqs[h].buf, 1024, h))
  {
    assert ChainOk(desc, role, h, reqs[h]);
  }

  /** The descriptors that are free. */
  ghost function FreeSet(free: seq<bool>): set<nat> { set i: nat | i < |free| && free[i] }

  lemma FewFree(free0: seq<bool>, free: seq<bool>, role0: seq<Role>, role: seq<Role>, idx: seq<nat>)
    requires Grabbed(free0, free, role0, role, idx) && Distinct(idx) && forall i | 0 <= i < NUM :: !free[i]
    ensures |FreeSet(free0)| == |idx|
  {
    Image(idx);
    assert FreeSet(free0) == set i | 0 <= i < |idx| :: idx[i];
  }

  /** Free descriptors, live chains and an allocation in progress partition the descriptors. */
  ghost predicate Descs(free: seq<bool>, desc: seq<Desc>, role: seq<Role>, reqs: map<nat, Req>)
  {
    && |free| == |desc| == |role| == NUM
    && (forall i | 0 <= i < NUM :: free[i] <==> role[i] == Free)
    && (forall i | 0 <= i < NUM && role[i].Part? :: role[i].head in reqs && In(reqs[role[i].head], role[i].head, i))
    && (forall h | h in reqs :: ChainOk(desc, role, h, reqs[h]))
  }

  /** The requests in a ring are those of the phase, each once. */
  ghost predicate Queued(reqs: map<nat, Req>, q: seq<nat>, phase: Phase)
  {
    && Distinct(q)
    && (forall i | 0 <= i < |q| :: q[i] in reqs && reqs[q[i]].phase == phase)
    && forall h | h in reqs && reqs[h].phase == phase :: h in q
  }

  /** A request's buffer is its own, and marked busy until the interrupt handler has seen it. */
  ghost predicate Bufs(reqs: map<nat, Req>, info: seq<Info>, busy: set<nat>)
  {
    && |info| == NUM
    && (forall h, k | h in reqs && k in reqs && h != k :: reqs[h].buf != reqs[k].buf)
    && (forall h | h in reqs :: h < NUM && info[h].b == Some(reqs[h].buf) && info[h].op == reqs[h].op)
    && (forall h | h in reqs :: reqs[h].buf in busy <==> reqs[h].phase != Seen)
    && (forall h | h in reqs && (reqs[h].phase == Done || reqs[h].phase == Seen) :: info[h].status == 0)
  }

  /** The device holds the requests it has taken. */
  ghost predicate Working(reqs: map<nat, Req>, held: set<nat>)
  {
    && (forall h | h in held :: h in reqs && reqs[h].phase == Taken)
    && forall h | h in reqs && reqs[h].phase == Taken :: h in held
  }

  /** What the device may do on its own. */
  datatype Move = TakeNext | Complete(h: nat)

  /** The requests on their way: offered and not yet taken, taken, and complete but not yet seen. */
  datatype Work = Work(offered: seq<nat>, held: set<nat>, done: seq<nat>)

  /** A move of the device, if it can make it: it takes requests in order and completes them in any. */
  function Moved(w: Work, m: Move): Work
  {
    match m
    case TakeNext => if w.offered == [] then w else w.(offered := w.offered[1..], held := w.held + {w.offered[0]})
    case Complete(h) => if h in w.held then w.(held := w.held - {h}, done := w.done + [h]) else w
  }

  function AllMoves(w: Work, ms: seq<Move>): Work
  {
    if ms == [] then w else Moved(AllMoves(w, ms[..|ms| - 1]), ms[|ms| - 1])
  }

  /** A turn of the interrupt handler, with the device at work before and after its test: the oldest
      complete request is seen, if the test finds one. */
  function TurnOf(w: Work, m1: seq<Move>, m2: seq<Move>): Work
  {
    var w1 := AllMoves(w, m1);
    if w1.done == [] then w1
    else
      var w2 := AllMoves(w1, m2);
      if w2.done == [] then w2 else w2.(done := w2.done[1..])
  }

  /** What the device does before test `k` of the handler's loop, or after it. */
  function Late(late: seq<(seq<Move>, seq<Move>)>, k: nat): (seq<Move>, seq<Move>)
  {
    if k < |late| then late[k] else ([], [])
  }

  function AllTurns(w: Work, late: seq<(seq<Move>, seq<Move>)>, k: nat): Work
  {
    if k == 0 then w else TurnOf(AllTurns(w, late, k - 1), Late(late, k - 1).0, Late(late, k - 1).1)
  }

  class Disk {
    var free: seq<bool>
    var desc: seq<Desc>
    var info: seq<Info>
    var avail: seq<nat>            // avail->ring
    var availIdx: nat              // avail->idx
    var takenIdx: nat              // how far the device has read the avail ring
    var used: seq<nat>             // used->ring, written by the device
    var usedIdx: nat               // used->idx
    var seenIdx: nat               // disk.used_idx
    var busy: set<nat>             // the buffers b with b->disk set
    var held: set<nat>             // the chains the device has taken and not completed
    ghost var role: seq<Role>
    ghost var reqs: map<nat, Req>
    ghost var offered: seq<nat>    // the requests in the avail ring
    ghost var done: seq<nat>       // the requests in the used ring
    ghost var nOffered: nat        // how many were ever put in each
    ghost var nDone: nat

    ghost predicate Valid()
      reads this
    {
      && Descs(free, desc, role, reqs)
      && Bufs(reqs, info, busy)
      && Queued(reqs, offered, Offered) && Holds(avail, nOffered, offered) && availIdx == nOffered % UINT16
      && takenIdx == (nOffered - |offered|) % UINT16
      && Queued(reqs, done, Done) && Holds(used, nDone, done) && usedIdx == nDone % UINT16
      && seenIdx == (nDone - |done|) % UINT16
      && Working(reqs, held)
    }

    ghost function OnTheWay(): Work
      reads this
    {
      Work(offered, held, done)
    }

    /** The end of virtio_disk_init: zeroed rings, all descriptors free. */
    constructor ()
      ensures Valid() && reqs == map[] && busy == {}
    {
      free, desc := seq(NUM, _ => true), seq(NUM, _ => NoDesc());
      info, avail, used := seq(NUM, _ => Info(None, 0, Op(false, 0))), seq(NUM, _ => 0), seq(NUM, _ => 0);
      availIdx, takenIdx, usedIdx, seenIdx, busy, held := 0, 0, 0, 0, {}, {};
      role, reqs, offered, done, nOffered, nDone := seq(NUM, _ => Free), map[], [], [], 0, 0;
    }

    /** alloc_desc: the first free descriptor. */
    method AllocDesc() returns (r: Option<nat>)
      requires Descs(free, desc, role, reqs)
      modifies this`free, this`role
      ensures Descs(free, desc, role, reqs)
      ensures r.None? ==> free == old(free) && role == old(role) && forall i | 0 <= i < NUM :: !free[i]
      ensures r.Some? ==> r.value < NUM && old(free)[r.value]
                          && free == old(free)[r.value := false] && role == old(role)[r.value := Mine]
    {
      var i := 0;
      while i < NUM
        invariant i <= NUM && forall j | 0 <= j < i :: !free[j]
      {
        if free[i] {
          free, role := free[i := false], role[i := Mine];
          return Some(i);
        }
        i := i + 1;
      }
      r := None;
    }

    /** free_desc of a descriptor that is in no chain: neither of its panics is reached. */
    method FreeDesc(i: nat)
      requires Descs(free, desc, role, reqs) && i < NUM && role[i] == Mine
      modifies this`free, this`desc, this`role
      ensures Descs(free, desc, role, reqs)
      ensures free == old(free)[i := true] && role == old(role)[i := Free] && desc == old(desc)[i := NoDesc()]
    {
      assert !free[i];
      desc, free, role := desc[i := NoDesc()], free[i := true], role[i := Free];
    }

    /** The failure path of alloc3_desc: the descriptors got so far are given back. */
    method GiveBack(idx: seq<nat>, ghost free0: seq<bool>, ghost role0: seq<Role>)
      requires Descs(free, desc, role, reqs) && Distinct(idx) && Grabbed(free0, free, role0, role, idx)
      modifies this`free, this`desc, this`role
      ensures Descs(free, desc, role, reqs) && free == free0 && role == role0
      ensures forall i | 0 <= i < NUM && !free[i] :: desc[i] == old(desc)[i]
    {
      var j := 0;
      while j < |idx|
        invariant j <= |idx| && Descs(free, desc, role, reqs)
        invariant Grabbed(free0, free, role0, role, idx[j..])
        invariant forall k | 0 <= k < NUM && k !in idx :: desc[k] == old(desc)[k]
      {
        FreeDesc(idx[j]);
        j := j + 1;
      }
    }

    /** alloc3_desc: three descriptors, or everything as it was. */
    method Alloc3Desc() returns (ok: bool, idx: seq<nat>)
      requires Descs(free, desc, role, reqs)
      modifies this`free, this`desc, this`role
      ensures Descs(free, desc, role, reqs)
      ensures ok ==> Three(idx) && desc == old(desc) && Grabbed(old(free), free, old(role), role, idx)
      ensures !ok ==> free == old(free) && role == old(role) && |FreeSet(free)| < 3
                      && (forall i | 0 <= i < NUM && !free[i] :: desc[i] == old(desc)[i])
    {
      idx := [];
      var i := 0;
      while i < 3
        invariant i <= 3 && |idx| == i && Distinct(idx) && desc == old(desc) && Descs(free, desc, role, reqs)
        invariant Grabbed(old(free), free, old(role), role, idx)
      {
        var d := AllocDesc();
        if d.None? {
          FewFree(old(free), free, old(role), role, idx);
          GiveBack(idx, old(free), old(role));
          return false, [];
        }
        idx := idx + [d.value];
        i := i + 1;
      }
      ok := true;
    }

    /** virtio_disk_rw up to the wait for the interrupt; None is the sleep for descriptors. */
    method Submit(b: nat, blockno: nat, write: bool) returns (r: Option<nat>)
      requires Valid() && forall h | h in reqs :: reqs[h].buf != b
      modifies this`free, this`desc, this`info, this`avail, this`availIdx, this`busy
      modifies this`role, this`reqs, this`offered, this`nOffered
      ensures Valid()
      ensures r.None? ==> reqs == old(reqs) && free == old(free) && busy == old(busy) && |FreeSet(free)| < 3
      ensures r.Some? ==> r.value !in old(reqs) && offered == old(offered) + [r.value] && done == old(done)
      ensures r.Some? ==> r.value in reqs && reqs == old(reqs)[r.value := reqs[r.value]]
                          && reqs[r.value].buf == b && reqs[r.value].phase == Offered
                          && reqs[r.value].op == Op(write, blockno * 2)
      ensures r.Some? ==> busy == old(busy) + {b}
    {
      hide Queued, Holds, Descs, Bufs, Grabbed, Working;
      ghost var desc0, free0, role0 := desc, free, role;
      var ok, idx := Alloc3Desc();
      if !ok {
        return None;
      }
      HeadFresh(free0, desc0, role0, free, role, reqs, idx);
      Start(idx[0], idx[1], idx[2], b, Op(write, blockno * 2));
      r := Some(idx[0]);
    }

    /** The part of virtio_disk_rw that hands the three descriptors to the device. */
    method Start(h: nat, mid: nat, tail: nat, b: nat, op: Op)
      requires Valid() && Three([h, mid, tail]) && |role| == NUM && h !in reqs
      requires role[h] == Mine && role[mid] == Mine && role[tail] == Mine
      requires forall k | k in reqs :: reqs[k].buf != b
      modifies this`desc, this`info, this`avail, this`availIdx, this`busy
      modifies this`role, this`reqs, this`offered, this`nOffered
      ensures Valid() && offered == old(offered) + [h] && busy == old(busy) + {b}
      ensures reqs == old(reqs)[h := Req(mid, tail, b, op, Offered)]
    {
      hide Queued, Holds, Descs, Bufs, Working;
      OfferFits(reqs, offered, h);
      NewQueued(reqs, offered, done, h, Req(mid, tail, b, op, Offered));
      WorkNew(reqs, held, h, Req(mid, tail, b, op, Offered));
      Format(h, mid, tail, b, op);
      Offer(h);
    }

    /** The part of virtio_disk_rw that puts the chain in the avail ring. */
    method Offer(h: nat)
      requires availIdx == nOffered % UINT16 && Holds(avail, nOffered, offered) && |offered| < NUM
      modifies this`avail, this`availIdx, this`offered, this`nOffered
      ensures availIdx == nOffered % UINT16 && Holds(avail, nOffered, offered)
      ensures offered == old(offered) + [h] && nOffered == old(nOffered) + 1
    {
      hide Holds;
      RingPut(avail, nOffered, offered, h);
      avail := avail[availIdx % NUM := h];
      availIdx := (availIdx + 1) % UINT16;
      offered, nOffered := offered + [h], nOffered + 1;
    }

    /** The part of virtio_disk_rw that fills in the three descriptors. */
    method Format(h: nat, mid: nat, tail: nat, b: nat, op: Op)
      requires Descs(free, desc, role, reqs) && Bufs(reqs, info, busy) && h !in reqs
      requires Three([h, mid, tail]) && |role| == NUM
      requires role[h] == Mine && role[mid] == Mine && role[tail] == Mine
      requires forall k | k in reqs :: reqs[k].buf != b
      modifies this`desc, this`info, this`busy, this`role, this`reqs
      ensures reqs == old(reqs)[h := Req(mid, tail, b, op, Offered)] && busy == old(busy) + {b}
      ensures Descs(free, desc, role, reqs) && Bufs(reqs, info, busy)
    {
      assert |desc| == NUM && |info| == NUM;
      hide Descs, Bufs;
      ghost var req := Req(mid, tail, b, op, Offered);
      NewDescs(free, desc, role, reqs, h, req);
      NewBufs(reqs, info, busy, h, req);
      info := info[h := info[h].(op := op)];
      desc := desc[h := Desc(Ops(h), 16, F_NEXT, mid)];
      desc := desc[mid := Desc(Bytes(b), 1024, (if op.write then 0 else F_WRITE) + F_NEXT, tail)];
      info := info[h := info[h].(status := 0xff)];
      desc := desc[tail := Desc(Status(h), 1, F_WRITE, 0)];
      busy := busy + {b};
      info := info[h := info[h].(b := Some(b))];
      assert info == old(info)[h := Info(Some(b), 0xff, op)];
      role := role[h := Part(h)][mid := Part(h)][tail := Part(h)];
      reqs := reqs[h := req];
    }

    /** The device takes the next request from the avail ring. */
    method DeviceTake() returns (h: nat)
      requires Valid() && offered != []
      modifies this`takenIdx, this`held, this`reqs, this`offered
      ensures Valid() && h == old(offered)[0] && offered == old(offered)[1..] && held == old(held) + {h}
      ensures h in old(reqs) && old(reqs)[h].phase == Offered && reqs == old(reqs)[h := old(reqs)[h].(phase := Taken)]
    {
      hide Descs, Bufs, Holds, Queued, Working;
      RingFirst(avail, nOffered, offered);
      RingSize(avail, nOffered, offered);
      QueuedAt(reqs, offered, Offered, 0);
      CounterStep(nOffered, |offered|);
      h := avail[takenIdx % NUM];
      takenIdx := (takenIdx + 1) % UINT16;
      PhaseDescs(free, desc, role, reqs, h, Taken);
      PhaseBufs(reqs, info, busy, h, Taken, busy);
      PhaseTake(reqs, offered, done);
      WorkPhase(reqs, held, h, Taken);
      reqs := reqs[h := reqs[h].(phase := Taken)];
      offered := offered[1..];
      held := held + {h};
    }

    /** The device completes any request it has taken: it writes the status byte the chain leads to and
        an entry of the used ring. */
    method DeviceComplete(h: nat)
      requires Valid() && h in reqs && reqs[h].phase == Taken
      modifies this`info, this`used, this`usedIdx, this`held, this`reqs, this`done, this`nDone
      ensures Valid() && done == old(done) + [h] && reqs == old(reqs)[h := old(reqs)[h].(phase := Done)]
      ensures held == old(held) - {h}
    {
      hide Descs, Bufs, Holds, Queued, Working;
      InfoSize(reqs, info, busy, h);
      DoneFits(reqs, done, h);
      RingPut(used, nDone, done, h);
      PhaseDescs(free, desc, role, reqs, h, Done);
      DoneBufs(reqs, info, busy, h);
      PhaseDone(reqs, offered, done, h);
      WorkPhase(reqs, held, h, Done);
      CounterStep(nDone, |done|);
      DeviceSeesRequest(free, desc, role, reqs, info, busy, h);
      var st := Decoded(desc, info, h).value.status;
      info := info[st := info[st].(status := 0)];
      used := used[usedIdx % NUM := h];
      usedIdx := (usedIdx + 1) % UINT16;
      reqs := reqs[h := reqs[h].(phase := Done)];
      done, nDone := done + [h], nDone + 1;
      held := held - {h};
    }

    /** The device at work: the moves of `ms` that it can make. */
    method Device(ms: seq<Move>)
      requires Valid()
      modifies this`takenIdx, this`held, this`reqs, this`offered
      modifies this`info, this`used, this`usedIdx, this`done, this`nDone
      ensures Valid() && Advanced(old(reqs), reqs) && SameSeen(old(reqs), reqs) && |old(done)| <= |done|
      ensures OnTheWay() == AllMoves(old(OnTheWay()), ms)
    {
      hide Valid, Advanced, SameSeen, Moved;
      AdvancedRefl(reqs);
      for i := 0 to |ms|
        invariant Valid() && Advanced(old(reqs), reqs) && SameSeen(old(reqs), reqs) && |old(done)| <= |done|
        invariant OnTheWay() == AllMoves(old(OnTheWay()), ms[..i])
      {
        assert ms[..i + 1][..i] == ms[..i];
        DeviceMove(ms[i], old(reqs));
      }
      assert ms[..|ms|] == ms;
    }

    /** One move, if the device can make it; the requests have only gone forward since `r0`. */
    method DeviceMove(m: Move, ghost r0: map<nat, Req>)
      requires Valid() && Advanced(r0, reqs) && SameSeen(r0, reqs)
      modifies this`takenIdx, this`held, this`reqs, this`offered
      modifies this`info, this`used, this`usedIdx, this`done, this`nDone
      ensures Valid() && Advanced(r0, reqs) && SameSeen(r0, reqs) && |old(done)| <= |done|
      ensures OnTheWay() == Moved(old(OnTheWay()), m)
    {
      hide Descs, Bufs, Holds, Queued, Working, Advanced, SameSeen;
      ghost var r := reqs;
      if m.TakeNext? {
        RingSize(avail, nOffered, offered);
        CounterExact(nOffered, nOffered - |offered|);
        if takenIdx != availIdx {
          var h := DeviceTake();
          AdvancedStep(r0, r, h, Taken);
        }
      } else if m.h in held {
        HeldAt(reqs, held, m.h);
        DeviceComplete(m.h);
        AdvancedStep(r0, r, m.h, Done);
      }
    }

    /** One turn of virtio_disk_intr: the status is 0, and the request's buffer is no longer busy. */
    method SeeOne()
      requires Valid() && done != []
      modifies this`busy, this`seenIdx, this`reqs, this`done
      ensures Valid() && done == old(done)[1..]
      ensures var h := old(done)[0];
              && h in old(reqs) && old(reqs)[h].phase == Done && reqs == old(reqs)[h := old(reqs)[h].(phase := Seen)]
              && old(reqs)[h].buf in old(busy) && busy == old(busy) - {old(reqs)[h].buf}
    {
      hide Descs, Bufs, Holds, Queued, Working;
      RingFirst(used, nDone, done);
      RingSize(used, nDone, done);
      QueuedAt(reqs, done, Done, 0);
      var id := used[seenIdx % NUM];
      InfoSize(reqs, info, busy, id);
      assert info[id].status == 0;
      var b := info[id].b.value;
      PhaseDescs(free, desc, role, reqs, id, Seen);
      PhaseBufs(reqs, info, busy, id, Seen, busy - {b});
      PhaseSeen(reqs, offered, done);
      WorkSeen(reqs, held, id);
      CounterStep(nDone, |done|);
      busy := busy - {b};
      seenIdx := (seenIdx + 1) % UINT16;
      reqs := reqs[id := reqs[id].(phase := Seen)];
      done := done[1..];
    }

    /** One test of the loop of virtio_disk_intr and the turn it allows, the device making the moves
        `m1` before the test and `m2` after it; `seen` are the requests seen since `r0`. */
    method Turn(m1: seq<Move>, m2: seq<Move>, ghost r0: map<nat, Req>, ghost b0: set<nat>, ghost seen: set<nat>)
      returns (more: bool, ghost seen': set<nat>)
      requires Valid() && SeenSince(r0, b0, reqs, busy, seen)
      modifies this`busy, this`seenIdx, this`takenIdx, this`held, this`reqs, this`offered
      modifies this`info, this`used, this`usedIdx, this`done, this`nDone
      ensures Valid() && SeenSince(r0, b0, reqs, busy, seen')
      ensures if more then seen < seen' else seen' == seen && done == []
      ensures OnTheWay() == TurnOf(old(OnTheWay()), m1, m2)
    {
      hide Descs, Bufs, Holds, Queued, Working, SameSeen, SeenSince;
      ghost var r := reqs;
      Device(m1);
      SeenKept(r0, b0, r, reqs, busy, seen);
      assert |done| <= NUM && |done| <= nDone by { RingSize(used, nDone, done); }
      CounterExact(nDone, nDone - |done|);
      if seenIdx == usedIdx {
        return false, seen;
      }
      r := reqs;
      Device(m2);
      SeenKept(r0, b0, r, reqs, busy, seen);
      ghost var h := done[0];
      QueuedAt(reqs, done, Done, 0);
      SeenMore(r0, b0, reqs, busy, seen, h);
      SeeOne();
      more, seen' := true, seen + {h};
    }

    /** virtio_disk_intr.  The device goes on working meanwhile: `late` is what it does around each
        test of the loop.  The requests in `seen`, among them all that were complete at the start, are
        seen once each, and only their own buffers are no longer busy. */
    method Intr(late: seq<(seq<Move>, seq<Move>)>) returns (ghost seen: set<nat>, ghost turns: nat)
      requires Valid()
      modifies this`busy, this`seenIdx, this`takenIdx, this`held, this`reqs, this`offered
      modifies this`info, this`used, this`usedIdx, this`done, this`nDone
      ensures Valid() && done == [] && SeenSince(old(reqs), old(busy), reqs, busy, seen)
      ensures forall h | h in old(reqs) && old(reqs)[h].phase == Done :: h in seen
      ensures OnTheWay() == AllTurns(old(OnTheWay()), late, turns)
    {
      hide Valid;
      seen, turns := {}, 0;
      NoneSeen(reqs, busy);
      var more, turn := true, 0;
      while more
        invariant Valid() && SeenSince(old(reqs), old(busy), reqs, busy, seen) && (!more ==> done == [])
        invariant turns == turn && OnTheWay() == AllTurns(old(OnTheWay()), late, turn)
        decreases old(reqs).Keys - seen, more
      {
        var m := Late(late, turn);
        hide SeenSince, TurnOf;
        ghost var seen0 := seen;
        more, seen := Turn(m.0, m.1, old(reqs), old(busy), seen);
        SeenOf(old(reqs), old(busy), reqs, busy, seen);
        assert more ==> old(reqs).Keys - seen < old(reqs).Keys - seen0;
        turn, turns := turn + 1, turns + 1;
      }
      NoDone();
      AllSeen(old(reqs), old(busy), reqs, busy, seen);
    }

    lemma NoDone()
      requires Valid() && done == []
      ensures forall h | h in reqs :: reqs[h].phase != Done
    {
      hide Descs, Bufs, Holds, Working;
    }

    /** free_chain of a chain that is no longer in use: it frees exactly its three descriptors. */
    method FreeChain(h: nat, ghost r: Req)
      requires Descs(free, desc, role, reqs) && Three([h, r.mid, r.tail]) && |desc| == |role| == |free| == NUM
      requires role[h] == Mine && role[r.mid] == Mine && role[r.tail] == Mine
      requires HasNext(desc[h].flags) && desc[h].next == r.mid
      requires HasNext(desc[r.mid].flags) && desc[r.mid].next == r.tail && !HasNext(desc[r.tail].flags)
      modifies this`free, this`desc, this`role
      ensures Descs(free, desc, role, reqs)
      ensures free == old(free)[h := true][r.mid := true][r.tail := true]
      ensures role == old(role)[h := Free][r.mid := Free][r.tail := Free]
    {
      hide Descs;
      var i := h;
      ghost var k, idx := 0, [h, r.mid, r.tail];
      while true
        invariant k < 3 && i == idx[k] && Descs(free, desc, role, reqs) && |desc| == |role| == |free| == NUM
        invariant free == (if k == 0 then old(free) else if k == 1 then old(free)[h := true]
                           else old(free)[h := true][r.mid := true])
        invariant role == (if k == 0 then old(role) else if k == 1 then old(role)[h := Free]
                           else old(role)[h := Free][r.mid := Free])
        invariant forall j | k <= j < 3 :: desc[idx[j]] == old(desc)[idx[j]]
        decreases 3 - k
      {
        var flag, nxt := desc[i].flags, desc[i].next;
        FreeDesc(i);
        if HasNext(flag) {
          i := nxt;
        } else {
          break;
        }
        k := k + 1;
      }
    }

    /** The end of virtio_disk_rw, once the interrupt handler has seen the request. */
    method Finish(h: nat)
      requires Valid() && h in reqs && reqs[h].buf !in busy
      modifies this`info, this`free, this`desc, this`role, this`reqs
      ensures Valid() && reqs == old(reqs) - {h}
      ensures var r := old(reqs)[h];
              && |old(free)| == NUM && h < NUM && r.mid < NUM && r.tail < NUM
              && !old(free)[h] && !old(free)[r.mid] && !old(free)[r.tail]
              && free == old(free)[h := true][r.mid := true][r.tail := true]
    {
      hide Descs, Bufs, Holds, Queued, Working;
      InfoSize(reqs, info, busy, h);
      SeenNow(reqs, info, busy, h);
      WorkGone(reqs, held, h);
      ghost var r := reqs[h];
      ChainAt(free, desc, role, reqs, h);
      ReleaseDescs(free, desc, role, reqs, h);
      ReleaseRest(reqs, info, busy, offered, done, h);
      info := info[h := info[h].(b := None)];
      role := role[h := Mine][r.mid := Mine][r.tail := Mine];
      reqs := reqs - {h};
      FreeChain(h, r);
    }
  }

  /** Of the free descriptors, exactly those in `idx` have been taken. */
  ghost predicate Grabbed(free0: seq<bool>, free: seq<bool>, role0: seq<Role>, role: seq<Role>, idx: seq<nat>)
  {
    && |free0| == |free| == |role0| == |role| == NUM
    && forall i | 0 <= i < NUM ::
         if i in idx then free0[i] && role0[i] == Free && role[i] == Mine && !free[i]
         else role[i] == role0[i] && free[i] == free0[i]
  }

  predicate Three(idx: seq<nat>)
  {
    && |idx| == 3 && idx[0] < NUM && idx[1] < NUM && idx[2] < NUM
    && idx[0] != idx[1] && idx[0] != idx[2] && idx[1] != idx[2]
  }

  lemma HeadFresh(free0: seq<bool>, desc: seq<Desc>, role0: seq<Role>, free: seq<bool>, role: seq<Role>,
                  reqs: map<nat, Req>, idx: seq<nat>)
    requires Descs(free0, desc, role0, reqs) && Three(idx) && Grabbed(free0, free, role0, role, idx)
    ensures idx[0] !in reqs && |role| == NUM && role[idx[0]] == role[idx[1]] == role[idx[2]] == Mine
  {
    assert idx[0] in idx && idx[1] in idx && idx[2] in idx;
  }

  lemma NewBufs(reqs: map<nat, Req>, info: seq<Info>, busy: set<nat>, h: nat, r: Req)
    requires Bufs(reqs, info, busy) && h !in reqs && h < NUM && r.phase == Offered
    requires forall k | k in reqs :: reqs[k].buf != r.buf
    ensures Bufs(reqs[h := r], info[h := Info(Some(r.buf), 0xff, r.op)], busy + {r.buf})
  {
  }

  lemma OfferFits(reqs: map<nat, Req>, q: seq<nat>, h: nat)
    requires Queued(reqs, q, Offered) && h !in reqs && h < NUM
    ensures |q| < NUM && h !in q
  {
    AtMostNum(q, h);
  }

  /** The roles after the three descriptors of `r` have changed hands. */
  ghost predicate Changed(role: seq<Role>, role': seq<Role>, h: nat, r: Req, x: Role)
  {
    |role| == |role'| == NUM && forall i | 0 <= i < NUM :: role'[i] == if In(r, h, i) then x else role[i]
  }

  lemma OtherChain(desc0: seq<Desc>, desc: seq<Desc>, role: seq<Role>, role': seq<Role>, h: nat, r: Req, x: Role,
                   k: nat, q: Req)
    requires |desc0| == |desc| == NUM && Changed(role, role', h, r, x) && ChainOk(desc0, role, k, q)
    requires forall i | 0 <= i < NUM && In(r, h, i) :: role[i] != Part(k)
    requires forall i | 0 <= i < NUM && !In(r, h, i) :: desc[i] == desc0[i]
    ensures ChainOk(desc, role', k, q)
  {
    hide HasNext;
  }

  lemma NewChain(free: seq<bool>, desc0: seq<Desc>, desc: seq<Desc>, role: seq<Role>, role': seq<Role>,
                 reqs: map<nat, Req>, h: nat, r: Req)
    requires Descs(free, desc0, role, reqs) && |desc| == NUM && h !in reqs && Changed(role, role', h, r, Part(h))
    requires Three([h, r.mid, r.tail]) && role[h] == role[r.mid] == role[r.tail] == Mine
    requires forall i | 0 <= i < NUM && !In(r, h, i) :: desc[i] == desc0[i]
    requires ChainOk(desc, role', h, r)
    ensures Descs(free, desc, role', reqs[h := r])
  {
    forall k | k in reqs ensures ChainOk(desc, role', k, reqs[k]) {
      assert ChainOk(desc0, role, k, reqs[k]);
      OtherChain(desc0, desc, role, role', h, r, Part(h), k, reqs[k]);
    }
    hide ChainOk;
  }

  lemma NewDescs(free: seq<bool>, desc: seq<Desc>, role: seq<Role>, reqs: map<nat, Req>, h: nat, r: Req)
    requires Descs(free, desc, role, reqs) && h !in reqs && Three([h, r.mid, r.tail]) && |desc| == |role| == NUM
    requires role[h] == role[r.mid] == role[r.tail] == Mine
    ensures Descs(free,
                  desc[h := HeadDesc(h, r)][r.mid := DataDesc(r)][r.tail := StatusDesc(h)],
                  role[h := Part(h)][r.mid := Part(h)][r.tail := Part(h)], reqs[h := r])
  {
    hide Descs;
    var desc' := desc[h := HeadDesc(h, r)][r.mid := DataDesc(r)][r.tail := StatusDesc(h)];
    var role' := role[h := Part(h)][r.mid := Part(h)][r.tail := Part(h)];
    assert Changed(role, role', h, r, Part(h)) && ChainOk(desc', role', h, r);
    NewChain(free, desc, desc', role, role', reqs, h, r);
  }

  lemma NewQueued(reqs: map<nat, Req>, offered: seq<nat>, done: seq<nat>, h: nat, r: Req)
    requires Queued(reqs, offered, Offered) && Queued(reqs, done, Done) && h !in reqs && h < NUM && r.phase == Offered
    ensures Queued(reqs[h := r], offered + [h], Offered) && Queued(reqs[h := r], done, Done)
  {
  }

  // --- what a change of phase keeps ---

  lemma CounterStep(n: nat, k: nat)
    requires k <= n
    ensures (n % UINT16 + 1) % UINT16 == (n + 1) % UINT16
    ensures 0 < k ==> ((n - k) % UINT16 + 1) % UINT16 == (n - (k - 1)) % UINT16
  {
  }

  lemma RingSize(ring: seq<nat>, n: nat, q: seq<nat>)
    requires Holds(ring, n, q)
    ensures |ring| == NUM && |q| <= n && |q| <= NUM
  {
  }

  lemma QueuedAt(reqs: map<nat, Req>, q: seq<nat>, phase: Phase, i: nat)
    requires Queued(reqs, q, phase) && i < |q|
    ensures q[i] in reqs && reqs[q[i]].phase == phase && q[i] < NUM
  {
  }

  lemma InfoSize(reqs: map<nat, Req>, info: seq<Info>, busy: set<nat>, h: nat)
    requires Bufs(reqs, info, busy) && h in reqs
    ensures |info| == NUM && h < NUM && info[h].b == Some(reqs[h].buf)
    ensures reqs[h].phase == Done ==> info[h].status == 0 && reqs[h].buf in busy
  {
  }

  lemma PhaseDescs(free: seq<bool>, desc: seq<Desc>, role: seq<Role>, reqs: map<nat, Req>, h: nat, phase: Phase)
    requires Descs(free, desc, role, reqs) && h in reqs
    ensures Descs(free, desc, role, reqs[h := reqs[h].(phase := phase)])
  {
  }

  lemma PhaseBufs(reqs: map<nat, Req>, info: seq<Info>, busy: set<nat>, h: nat, phase: Phase, busy': set<nat>)
    requires Bufs(reqs, info, busy) && h in reqs && reqs[h].phase != Seen
    requires || (phase == Taken && busy' == busy)
             || (phase == Seen && reqs[h].phase == Done && busy' == busy - {reqs[h].buf})
    ensures Bufs(reqs[h := reqs[h].(phase := phase)], info, busy')
  {
  }

  lemma DoneBufs(reqs: map<nat, Req>, info: seq<Info>, busy: set<nat>, h: nat)
    requires Bufs(reqs, info, busy) && h in reqs && reqs[h].phase == Taken
    ensures h < |info| && Bufs(reqs[h := reqs[h].(phase := Done)], info[h := info[h].(status := 0)], busy)
  {
  }

  lemma DoneFits(reqs: map<nat, Req>, q: seq<nat>, h: nat)
    requires Queued(reqs, q, Done) && h in reqs && reqs[h].phase != Done && h < NUM
    ensures |q| < NUM
  {
    AtMostNum(q, h);
  }

  lemma PhaseTake(reqs: map<nat, Req>, offered: seq<nat>, done: seq<nat>)
    requires Queued(reqs, offered, Offered) && Queued(reqs, done, Done) && offered != []
    ensures offered[0] in reqs
    ensures var reqs' := reqs[offered[0] := reqs[offered[0]].(phase := Taken)];
            Queued(reqs', offered[1..], Offered) && Queued(reqs', done, Done)
  {
    Rest(offered);
  }

  lemma PhaseDone(reqs: map<nat, Req>, offered: seq<nat>, done: seq<nat>, h: nat)
    requires Queued(reqs, offered, Offered) && Queued(reqs, done, Done)
    requires h in reqs && reqs[h].phase == Taken && h < NUM
    ensures var reqs' := reqs[h := reqs[h].(phase := Done)];
            Queued(reqs', offered, Offered) && Queued(reqs', done + [h], Done)
  {
  }

  lemma PhaseSeen(reqs: map<nat, Req>, offered: seq<nat>, done: seq<nat>)
    requires Queued(reqs, offered, Offered) && Queued(reqs, done, Done) && done != []
    ensures done[0] in reqs
    ensures var reqs' := reqs[done[0] := reqs[done[0]].(phase := Seen)];
            Queued(reqs', offered, Offered) && Queued(reqs', done[1..], Done)
  {
    Rest(done);
  }

  lemma Rest(q: seq<nat>)
    requires Distinct(q) && q != []
    ensures Distinct(q[1..]) && forall x | x in q :: x == q[0] || x in q[1..]
    ensures q[0] !in q[1..]
  {
    forall x | x in q ensures x == q[0] || x in q[1..] {
      var i :| 0 <= i < |q| && q[i] == x;
      assert i > 0 ==> q[1..][i - 1] == x;
    }
  }

  function Rank(p: Phase): nat
  {
    match p
    case Offered => 0
    case Taken => 1
    case Done => 2
    case Seen => 3
  }

  /** The requests are the same, each in the phase it was in or a later one. */
  ghost predicate Advanced(reqs0: map<nat, Req>, reqs: map<nat, Req>)
  {
    reqs.Keys == reqs0.Keys && forall h | h in reqs0 :: Further(reqs0[h], reqs[h])
  }

  predicate Further(r: Req, r': Req) { r' == r.(phase := r'.phase) && Rank(r.phase) <= Rank(r'.phase) }

  /** The buffers of some requests. */
  ghost function BufsOf(reqs: map<nat, Req>, hs: set<nat>): set<nat> { set h | h in hs && h in reqs :: reqs[h].buf }

  lemma MoreBufs(reqs: map<nat, Req>, hs: set<nat>, h: nat)
    requires h in reqs
    ensures BufsOf(reqs, hs + {h}) == BufsOf(reqs, hs) + {reqs[h].buf}
  {
  }

  ghost predicate SameSeen(reqs0: map<nat, Req>, reqs: map<nat, Req>)
  {
    forall h | h in reqs0 && h in reqs :: reqs[h].phase == Seen <==> reqs0[h].phase == Seen
  }

  /** From `r0` and `b0` on, exactly the requests in `seen` were seen, and their buffers, no others,
      are no longer busy; the rest went no way but forward. */
  ghost predicate SeenSince(r0: map<nat, Req>, b0: set<nat>, reqs: map<nat, Req>, busy: set<nat>, seen: set<nat>)
  {
    && Advanced(r0, reqs) && seen <= r0.Keys && busy == b0 - BufsOf(r0, seen)
    && forall h | h in r0 :: h in seen <==> r0[h].phase != Seen && reqs[h].phase == Seen
  }

  lemma NoneSeen(reqs: map<nat, Req>, busy: set<nat>)
    ensures SeenSince(reqs, busy, reqs, busy, {})
  {
  }

  lemma AdvancedRefl(reqs: map<nat, Req>)
    ensures Advanced(reqs, reqs) && SameSeen(reqs, reqs)
  {
  }

  lemma AdvancedStep(reqs0: map<nat, Req>, reqs: map<nat, Req>, h: nat, phase: Phase)
    requires Advanced(reqs0, reqs) && SameSeen(reqs0, reqs) && h in reqs
    requires Rank(reqs[h].phase) < Rank(phase) < Rank(Seen)
    ensures var reqs' := reqs[h := reqs[h].(phase := phase)]; Advanced(reqs0, reqs') && SameSeen(reqs0, reqs')
  {
    assert Further(reqs0[h], reqs[h]);
  }

  lemma SeenKept(r0: map<nat, Req>, b0: set<nat>, reqs: map<nat, Req>, reqs': map<nat, Req>, busy: set<nat>, seen: set<nat>)
    requires SeenSince(r0, b0, reqs, busy, seen) && Advanced(reqs, reqs') && SameSeen(reqs, reqs')
    ensures SeenSince(r0, b0, reqs', busy, seen)
  {
    forall h | h in r0 ensures Further(r0[h], reqs'[h]) {
      assert Further(r0[h], reqs[h]) && Further(reqs[h], reqs'[h]);
    }
  }

  lemma SeenMore(r0: map<nat, Req>, b0: set<nat>, reqs: map<nat, Req>, busy: set<nat>, seen: set<nat>, h: nat)
    requires SeenSince(r0, b0, reqs, busy, seen) && h in reqs && reqs[h].phase == Done
    ensures h !in seen
    ensures SeenSince(r0, b0, reqs[h := reqs[h].(phase := Seen)], busy - {reqs[h].buf}, seen + {h})
  {
    assert Further(r0[h], reqs[h]);
    MoreBufs(r0, seen, h);
  }

  lemma SeenOf(r0: map<nat, Req>, b0: set<nat>, reqs: map<nat, Req>, busy: set<nat>, seen: set<nat>)
    requires SeenSince(r0, b0, reqs, busy, seen)
    ensures seen <= r0.Keys
  {
  }

  lemma AllSeen(r0: map<nat, Req>, b0: set<nat>, reqs: map<nat, Req>, busy: set<nat>, seen: set<nat>)
    requires SeenSince(r0, b0, reqs, busy, seen) && forall h | h in reqs :: reqs[h].phase != Done
    ensures forall h | h in r0 && r0[h].phase == Done :: h in seen
  {
    forall h | h in r0 && r0[h].phase == Done ensures h in seen {
      assert Further(r0[h], reqs[h]);
    }
  }

  // --- what the device holds ---

  lemma HeldAt(reqs: map<nat, Req>, held: set<nat>, h: nat)
    requires Working(reqs, held) && h in held
    ensures h in reqs && reqs[h].phase == Taken
  {
  }

  lemma WorkPhase(reqs: map<nat, Req>, held: set<nat>, h: nat, phase: Phase)
    requires Working(reqs, held) && h in reqs
    ensures Working(reqs[h := reqs[h].(phase := phase)], if phase == Taken then held + {h} else held - {h})
  {
  }

  lemma WorkSeen(reqs: map<nat, Req>, held: set<nat>, h: nat)
    requires Working(reqs, held) && h in reqs && reqs[h].phase == Done
    ensures Working(reqs[h := reqs[h].(phase := Seen)], held)
  {
    WorkPhase(reqs, held, h, Seen);
    assert held - {h} == held;
  }

  lemma WorkNew(reqs: map<nat, Req>, held: set<nat>, h: nat, r: Req)
    requires Working(reqs, held) && h !in reqs && r.phase == Offered
    ensures Working(reqs[h := r], held)
  {
  }

  lemma WorkGone(reqs: map<nat, Req>, held: set<nat>, h: nat)
    requires Working(reqs, held) && h in reqs && reqs[h].phase == Seen
    ensures Working(reqs - {h}, held)
  {
  }

  lemma SeenNow(reqs: map<nat, Req>, info: seq<Info>, busy: set<nat>, h: nat)
    requires Bufs(reqs, info, busy) && h in reqs && reqs[h].buf !in busy
    ensures reqs[h].phase == Seen
  {
  }

  lemma ChainAt(free: seq<bool>, desc: seq<Desc>, role: seq<Role>, reqs: map<nat, Req>, h: nat)
    requires Descs(free, desc, role, reqs) && h in reqs
    ensures |free| == |desc| == |role| == NUM && ChainOk(desc, role, h, reqs[h])
    ensures !free[h] && !free[reqs[h].mid] && !free[reqs[h].tail]
  {
    assert ChainOk(desc, role, h, reqs[h]);
  }

  /** A chain that is given up leaves its three descriptors with the driver. */
  lemma ReleaseDescs(free: seq<bool>, desc: seq<Desc>, role: seq<Role>, reqs: map<nat, Req>, h: nat)
    requires Descs(free, desc, role, reqs) && h in reqs && |desc| == |role| == NUM && ChainOk(desc, role, h, reqs[h])
    ensures Descs(free, desc, role[h := Mine][reqs[h].mid := Mine][reqs[h].tail := Mine], reqs - {h})
  {
    var r := reqs[h];
    var role' := role[h := Mine][r.mid := Mine][r.tail := Mine];
    assert Changed(role, role', h, r, Mine);
    forall k | k in reqs && k != h ensures ChainOk(desc, role', k, reqs[k]) {
      assert ChainOk(desc, role, k, reqs[k]);
      OtherChain(desc, desc, role, role', h, r, Mine, k, reqs[k]);
    }
    hide ChainOk;
  }

  lemma ReleaseRest(reqs: map<nat, Req>, info: seq<Info>, busy: set<nat>, offered: seq<nat>, done: seq<nat>, h: nat)
    requires Bufs(reqs, info, busy) && h in reqs && reqs[h].phase == Seen && h < |info|
    requires Queued(reqs, offered, Offered) && Queued(reqs, done, Done)
    ensures Bufs(reqs - {h}, info[h := info[h].(b := None)], busy)
    ensures Queued(reqs - {h}, offered, Offered) && Queued(reqs - {h}, done, Done)
  {
  }
}
