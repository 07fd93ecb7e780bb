/** kernel/pipe.c: a ring of PIPESIZE bytes with two 32-bit counters that are never reset.  A call
    that sleeps gives the lock away; what other processes do to the pipe in the meantime is given as
    a list of steps, one list for each sleep, so that the results hold for every interleaving. */
module Pipe {
  import opened Bytes

  const PIPESIZE: nat := 512

  /** A ring of `n` slots may be indexed by a wrapping 32-bit counter exactly if `n` divides 2^32. */
  lemma RingIndexExact(n: nat)
    requires 0 < n
    ensures (forall w: nat :: Wrapped(w, n) == w % n) <==> UINT32 % n == 0
  {
    if UINT32 % n == 0 {
      forall w: nat ensures Wrapped(w, n) == w % n {
        WrapStep(w, n);
      }
    } else {
      assert Wrapped(UINT32, n) == 0;
    }
  }

  function Wrapped(w: nat, n: nat): nat
    requires 0 < n
  {
    w % UINT32 % n
  }

  lemma {:induction false} WrapStep(w: nat, n: nat)
    requires 0 < n && UINT32 % n == 0
    ensures Wrapped(w, n) == w % n
  {
    WrapAny(w, UINT32, UINT32 / n, n);
  }

  lemma {:induction false} WrapAny(w: nat, size: nat, k: nat, n: nat)
    requires 0 < n && 0 < size == k * n
    ensures w % size % n == w % n
  {
    var r, q := w % size, w / size;
    assert w == r + q * size;
    MulAssoc(q, k, n);
    ModStep(r, q * k, n);
  }

  lemma {:induction false} MulAssoc(a: nat, b: nat, c: nat)
    ensures a * (b * c) == a * b * c
  {
  }

  lemma {:induction false} ModStep(w: nat, k: nat, n: nat)
    requires 0 < n
    ensures (w + k * n) % n == w % n
  {
    ModUnique(w + k * n, w / n + k, w % n, n) by {
      assert w == w / n * n + w % n;
      assert (w / n + k) * n == w / n * n + k * n;
    }
  }

  lemma ModUnique(a: nat, q: nat, m: nat, n: nat)
    requires 0 < n && m < n && a == q * n + m
    ensures a % n == m
  {
    var d := a / n - q;
    assert a == a / n * n + a % n;
    assert d * n == m - a % n by { assert d * n == a / n * n - q * n; }
    assert d >= 1 ==> d * n >= n;
    assert d <= -1 ==> d * n + n <= 0;
  }

  /** What another process can do while this one sleeps. */
  datatype Step = Put(ch: byte) | Take | CloseRead | CloseWrite

  /** A call has returned a count, has returned -1, or is still asleep. */
  datatype Outcome = Done(n: nat) | Failed | Asleep

  /** The positions `at` rise from `lo` on and hold the first bytes of `src`. */
  ghost predicate Spread(at: seq<nat>, lo: nat, written: seq<byte>, src: seq<byte>)
  {
    && |at| <= |src|
    && (forall j | 0 <= j < |at| :: lo <= at[j] < |written| && written[at[j]] == src[j])
    && forall i, j | 0 <= i < j < |at| :: at[i] < at[j]
  }

  /** What there is to know of a pipe: the bytes put in and taken out, and which ends are open. */
  datatype History = History(written: seq<byte>, consumed: seq<byte>, readopen: bool, writeopen: bool)

  /** A step of another process on the history: a byte goes in unless PIPESIZE are outstanding, the
      oldest outstanding one comes out if there is one. */
  function Stepped(h: History, step: Step): History
  {
    match step
    case Put(ch) => if |h.written| - |h.consumed| == PIPESIZE then h else h.(written := h.written + [ch])
    case Take => if |h.consumed| < |h.written| then h.(consumed := h.written[..|h.consumed| + 1]) else h
    case CloseRead => h.(readopen := false)
    case CloseWrite => h.(writeopen := false)
  }

  function AllSteps(h: History, steps: seq<Step>): History
  {
    if steps == [] then h else Stepped(AllSteps(h, steps[..|steps| - 1]), steps[|steps| - 1])
  }

  lemma {:induction false} StepsConcat(h: History, xs: seq<Step>, ys: seq<Step>)
    ensures AllSteps(h, xs + ys) == AllSteps(AllSteps(h, xs), ys)
    decreases |ys|
  {
    if ys == [] {
      assert xs + ys == xs;
    } else {
      var k := |ys| - 1;
      assert (xs + ys)[..|xs + ys| - 1] == xs + ys[..k];
      StepsConcat(h, xs, ys[..k]);
    }
  }

  predicate Filled(h: History) { |h.written| - |h.consumed| == PIPESIZE }

  /** Starting from `h`, a writer puts in `mine`, one byte whenever there is room, and sleeps whenever
      there is none; `naps` is what others do during each sleep, and `did` all of this in order. */
  ghost predicate Writes(h: History, did: seq<Step>, mine: seq<byte>, naps: seq<seq<Step>>)
    decreases |mine| + |naps|
  {
    || (did == [] && mine == [] && naps == [])
    || (did != [] && mine != [] && PutsLast(h, did, mine) && Writes(h, did[..|did| - 1], mine[..|mine| - 1], naps))
    || (naps != [] && NapsLast(h, did, naps[|naps| - 1])
        && Writes(h, did[..|did| - |naps[|naps| - 1]|], mine, naps[..|naps| - 1]))
  }

  predicate PutsLast(h: History, did: seq<Step>, mine: seq<byte>)
    requires did != [] && mine != []
  {
    var before := AllSteps(h, did[..|did| - 1]);
    did[|did| - 1] == Put(mine[|mine| - 1]) && before.readopen && !Filled(before)
  }

  predicate NapsLast(h: History, did: seq<Step>, nap: seq<Step>)
  {
    |nap| <= |did| && did[|did| - |nap|..] == nap
    && var before := AllSteps(h, did[..|did| - |nap|]);
       before.readopen && Filled(before)
  }

  lemma {:induction false} WritesPut(h: History, did: seq<Step>, mine: seq<byte>, naps: seq<seq<Step>>, ch: byte)
    requires Writes(h, did, mine, naps) && AllSteps(h, did).readopen && !Filled(AllSteps(h, did))
    ensures Writes(h, did + [Put(ch)], mine + [ch], naps)
    ensures var before := AllSteps(h, did); AllSteps(h, did + [Put(ch)]) == before.(written := before.written + [ch])
  {
    var e, m := did + [Put(ch)], mine + [ch];
    assert e[..|e| - 1] == did && m[..|m| - 1] == mine;
    assert PutsLast(h, e, m);
  }

  lemma {:induction false} WritesNap(h: History, did: seq<Step>, mine: seq<byte>, naps: seq<seq<Step>>, nap: seq<Step>)
    requires Writes(h, did, mine, naps) && AllSteps(h, did).readopen && Filled(AllSteps(h, did))
    ensures Writes(h, did + nap, mine, naps + [nap])
    ensures AllSteps(h, did + nap) == AllSteps(AllSteps(h, did), nap)
  {
    var e, ns := did + nap, naps + [nap];
    StepsConcat(h, did, nap);
    assert e[..|e| - |nap|] == did && e[|e| - |nap|..] == nap && ns[..|ns| - 1] == naps;
    assert NapsLast(h, e, nap);
  }

  /** From `h0` to `h` a writer has put in the first bytes of `src`, which went to the places `at`, and slept
      `naps` times; `did` is all that happened, and without a sleep its bytes are adjacent. */
  ghost predicate Wrote(h0: History, h: History, at: seq<nat>, did: seq<Step>, src: seq<byte>, others: seq<seq<Step>>,
                        naps: nat)
  {
    && naps <= |others| && Spread(at, |h0.written|, h.written, src)
    && Writes(h0, did, src[..|at|], others[..naps]) && h == AllSteps(h0, did) && |h0.written| <= |h.written|
    && (naps == 0 ==> h.written == h0.written + src[..|at|])
  }

  lemma WroteNone(h: History, src: seq<byte>, others: seq<seq<Step>>)
    ensures Wrote(h, h, [], [], src, others, 0)
  {
  }

  lemma {:induction false} WroteNap(h0: History, h: History, at: seq<nat>, did: seq<Step>, src: seq<byte>,
                                    others: seq<seq<Step>>, naps: nat)
    requires Wrote(h0, h, at, did, src, others, naps) && naps < |others| && h.readopen && Filled(h)
    ensures var h' := AllSteps(h, others[naps]);
            h.written <= h'.written ==> Wrote(h0, h', at, did + others[naps], src, others, naps + 1)
  {
    hide Writes, AllSteps;
    WritesNap(h0, did, src[..|at|], others[..naps], others[naps]);
    assert others[..naps] + [others[naps]] == others[..naps + 1];
  }

  lemma {:induction false} WrotePut(h0: History, h: History, at: seq<nat>, did: seq<Step>, src: seq<byte>,
                                    others: seq<seq<Step>>, naps: nat)
    requires Wrote(h0, h, at, did, src, others, naps) && |at| < |src| && h.readopen && !Filled(h)
    ensures var ch := src[|at|];
            Wrote(h0, h.(written := h.written + [ch]), at + [|h.written|], did + [Put(ch)], src, others, naps)
  {
    hide Writes, AllSteps;
    WritesPut(h0, did, src[..|at|], others[..naps], src[|at|]);
    assert src[..|at|] + [src[|at|]] == src[..|at| + 1];
    assert (at + [|h.written|])[..|at|] == at;
  }

  /** What several sleeps in a row make of the history. */
  function AllNaps(h: History, naps: seq<seq<Step>>): History
  {
    if naps == [] then h else AllSteps(AllNaps(h, naps[..|naps| - 1]), naps[|naps| - 1])
  }

  /** A reader has to wait. */
  predicate Dry(h: History) { h.consumed == h.written && h.writeopen }

  class Pipe {
    const data: array<byte>
    var nread: nat
    var nwrite: nat
    var readopen: bool
    var writeopen: bool
    ghost var written: seq<byte>          // every byte ever put into the pipe
    ghost var consumed: seq<byte>         // every byte ever taken out of it

    /** The counters are the lengths of the histories modulo 2^32; what was written and not yet
        consumed is in the ring. */
    ghost predicate Valid()
      reads this, data
    {
      && data.Length == PIPESIZE
      && consumed <= written && |written| - |consumed| <= PIPESIZE
      && nread == |consumed| % UINT32 && nwrite == |written| % UINT32
      && forall k | |consumed| <= k < |written| :: data[k % PIPESIZE] == written[k]
    }

    /** From then to now bytes were only added to the histories, and ends only closed. */
    twostate predicate Goes()
      reads this
    {
      && old(written) <= written && old(consumed) <= consumed
      && (readopen ==> old(readopen)) && (writeopen ==> old(writeopen))
    }

    ghost function Hist(): History
      reads this
    {
      History(written, consumed, readopen, writeopen)
    }

    /** pipealloc. */
    constructor ()
      ensures Valid() && written == [] && consumed == [] && readopen && writeopen && fresh(data)
    {
      data := new byte[PIPESIZE](_ => 0);
      nread, nwrite, readopen, writeopen := 0, 0, true, true;
      written, consumed := [], [];
    }

    /** The test pipewrite-full, on the wrapping counters. */
    predicate Full()
      reads this
    {
      nwrite == (nread + PIPESIZE) % UINT32
    }

    lemma FullExact()
      requires Valid()
      ensures Full() <==> |written| - |consumed| == PIPESIZE
      ensures nread == nwrite <==> written == consumed
    {
      var w, r := |written|, |consumed|;
      Near(r, w - r);
      Near(r, PIPESIZE);
      if w - r < PIPESIZE {
        Apart(r, w - r, PIPESIZE);
      }
    }

    /** pi->data[pi->nwrite++ % PIPESIZE] = ch. */
    method PutByte(ch: byte)
      requires Valid() && !Full()
      modifies this`nwrite, this`written, data
      ensures Valid() && written == old(written) + [ch]
    {
      FullExact();
      Index(|written|);
      ghost var r, w := |consumed|, |written|;
      forall k | r <= k < w ensures k % PIPESIZE != w % PIPESIZE {
        Distinct(k, w);
      }
      data[nwrite % PIPESIZE] := ch;
      nwrite := (nwrite + 1) % UINT32;
      written := written + [ch];
      Near(w, 1);
    }

    /** ch = pi->data[pi->nread++ % PIPESIZE]. */
    method TakeByte() returns (ch: byte)
      requires Valid() && nread != nwrite
      modifies this`nread, this`consumed
      ensures Valid() && consumed == old(consumed) + [ch]
    {
      FullExact();
      Index(|consumed|);
      ghost var r := |consumed|;
      ch := data[nread % PIPESIZE];
      nread := (nread + 1) % UINT32;
      consumed := consumed + [ch];
      Near(r, 1);
      assert written[r] == ch;
      assert written[..r] == old(consumed);
    }

    /** pipeclose on one end. */
    method PipeClose(writable: bool)
      modifies this`readopen, this`writeopen
      ensures writeopen == (old(writeopen) && !writable) && readopen == (old(readopen) && writable)
    {
      if writable {
        writeopen := false;
      } else {
        readopen := false;
      }
    }

    /** sleep: the lock is released, others take their steps, the lock is taken again. */
    method Sleep(others: seq<Step>)
      requires Valid()
      modifies this, data
      ensures Valid() && Goes() && Hist() == AllSteps(old(Hist()), others)
    {
      var i := 0;
      while i < |others|
        invariant Valid() && Goes() && i <= |others| && Hist() == AllSteps(old(Hist()), others[..i])
      {
        FullExact();
        assert others[..i + 1][..i] == others[..i];
        match others[i] {
          case Put(ch) =>
            if !Full() {
              PutByte(ch);
            }
          case Take =>
            if nread != nwrite {
              var _ := TakeByte();
            }
          case CloseRead => PipeClose(false);
          case CloseWrite => PipeClose(true);
        }
        i := i + 1;
      }
      assert others[..i] == others;
    }

    /** pipewrite of `src`.  `killAt` is the turn of the loop from which the process is killed, `bad`
        the first address copyin fails on.  `at` lists where in the history its bytes went, `did` all
        that happened to the pipe, with the first `naps` of `others` during its sleeps. */
    method PipeWrite(src: seq<byte>, killAt: nat, bad: nat, others: seq<seq<Step>>)
      returns (r: Outcome, ghost at: seq<nat>, ghost did: seq<Step>, ghost naps: nat)
      requires Valid()
      modifies this, data
      ensures Valid() && Goes() && Wrote(old(Hist()), Hist(), at, did, src, others, naps)
      ensures |at| <= |src| && naps <= |others|
      ensures r.Done? ==> r.n == |at| == if bad < |src| then bad else |src|
      ensures r.Done? && src != [] ==> readopen && |at| + naps <= killAt
      ensures r.Failed? ==> |at| < |src| && (!readopen || killAt == |at| + naps)
      ensures r.Asleep? ==> Filled(Hist()) && readopen && naps == |others|
      ensures src != [] && (!old(readopen) || killAt == 0) ==> r.Failed? && Hist() == old(Hist())
    {
      hide Valid, Wrote, AllSteps;
      var i, turn, sleeps := 0, 0, 0;
      at, did, naps := [], [], 0;
      WroteNone(Hist(), src, others);
      while i < |src|
        invariant Valid() && Goes() && i == |at| <= |src| && i <= bad && naps == sleeps <= |others|
        invariant Wrote(old(Hist()), Hist(), at, did, src, others, naps)
        invariant turn == i + sleeps <= killAt && (turn == 0 ==> Hist() == old(Hist()))
        invariant turn > 0 ==> old(readopen) && killAt > 0
        invariant i == |src| && src != [] ==> readopen
        decreases |others| - sleeps, |src| - i
      {
        if !readopen || killAt <= turn {
          return Failed, at, did, naps;
        }
        turn := turn + 1;
        FullExact();
        if Full() {
          if sleeps == |others| {
            return Asleep, at, did, naps;
          }
          WroteNap(old(Hist()), Hist(), at, did, src, others, naps);
          Sleep(others[sleeps]);
          did, naps := did + others[sleeps], naps + 1;
          sleeps := sleeps + 1;
        } else {
          if bad <= i {
            break;
          }
          WrotePut(old(Hist()), Hist(), at, did, src, others, naps);
          at, did := at + [|written|], did + [Put(src[i])];
          PutByte(src[i]);
          i := i + 1;
        }
      }
      r := Done(i);
    }

    /** The first loop of piperead: it sleeps exactly as long as there are no bytes and there are
        writers, `naps` times. */
    method Await(killAt: nat, others: seq<seq<Step>>) returns (r: Outcome, ghost naps: nat)
      requires Valid()
      modifies this, data
      ensures Valid() && Goes() && naps <= |others| && Hist() == AllNaps(old(Hist()), others[..naps])
      ensures forall k | 0 <= k < naps :: Dry(AllNaps(old(Hist()), others[..k]))
      ensures r.Done? <==> !Dry(Hist())
      ensures r.Failed? ==> killAt == naps
      ensures r.Asleep? ==> naps == |others| < killAt
    {
      hide Valid;
      var turn := 0;
      naps := 0;
      FullExact();
      assert others[..0] == [];
      while nread == nwrite && writeopen
        invariant Valid() && Goes() && turn <= |others| && turn <= killAt && naps == turn
        invariant nread == nwrite <==> consumed == written
        invariant Hist() == AllNaps(old(Hist()), others[..naps])
        invariant forall k | 0 <= k < naps :: Dry(AllNaps(old(Hist()), others[..k]))
        decreases |others| - turn
      {
        if killAt <= turn {
          return Failed, naps;
        }
        if turn == |others| {
          return Asleep, naps;
        }
        assert others[..turn + 1][..turn] == others[..turn];
        Sleep(others[turn]);
        FullExact();
        turn, naps := turn + 1, naps + 1;
      }
      r := Done(0);
    }

    /** The second loop of piperead: up to `n` bytes are taken out, the last of them `lost` if copyout
        fails on it. */
    method Drain(n: nat, bad: nat) returns (dst: seq<byte>, ghost lost: seq<byte>)
      requires Valid()
      modifies this`nread, this`consumed
      ensures Valid() && Hist() == old(Hist()).(consumed := old(consumed) + dst + lost)
      ensures |dst| <= n && |lost| <= 1 && (lost != [] ==> |dst| == bad < n) && |dst| <= bad
      ensures lost == [] && |dst| < n ==> consumed == written
      ensures n > 0 && old(consumed) != old(written) ==> dst + lost != []
    {
      hide Valid;
      dst, lost := [], [];
      FullExact();
      var i := 0;
      while i < n
        invariant Valid() && i == |dst| <= n && lost == [] && i <= bad
        invariant Hist() == old(Hist()).(consumed := old(consumed) + dst)
      {
        FullExact();
        if nread == nwrite {
          break;
        }
        var ch := TakeByte();
        if bad <= i {
          lost := [ch];
          break;
        }
        dst := dst + [ch];
        i := i + 1;
      }
      FullExact();
    }

    /** piperead of up to `n` bytes.  `lost` is the byte taken out when copyout fails, `naps` how often
        it sleeps before. */
    method PipeRead(n: nat, killAt: nat, bad: nat, others: seq<seq<Step>>)
      returns (r: Outcome, dst: seq<byte>, ghost lost: seq<byte>, ghost naps: nat)
      requires Valid()
      modifies this, data
      ensures Valid() && Goes() && |lost| <= 1 && naps <= |others|
      ensures forall k | 0 <= k < naps :: Dry(AllNaps(old(Hist()), others[..k]))
      ensures var h := AllNaps(old(Hist()), others[..naps]); Hist() == h.(consumed := h.consumed + dst + lost)
      ensures r.Done? <==> !Dry(AllNaps(old(Hist()), others[..naps]))
      ensures |old(consumed)| + |dst + lost| <= |consumed| && consumed[|consumed| - |dst + lost|..] == dst + lost
      ensures r.Done? ==> r.n == |dst| <= n && (lost != [] ==> |dst| == bad)
      ensures r.Done? && lost == [] && |dst| < n ==> consumed == written
      ensures r.Done? && n > 0 && dst == [] && bad > 0 ==> !writeopen
      ensures !r.Done? ==> dst == [] && lost == [] && consumed == written && writeopen
      ensures r.Failed? ==> killAt == naps
      ensures r.Asleep? ==> naps == |others| < killAt
    {
      hide Valid;
      dst, lost := [], [];
      r, naps := Await(killAt, others);
      if r.Done? {
        dst, lost := Drain(n, bad);
        r := Done(|dst|);
      }
    }
  }

  lemma Near(r: nat, d: nat)
    ensures (r % UINT32 + d) % UINT32 == (r + d) % UINT32
    ensures 0 < d < UINT32 ==> r % UINT32 != (r + d) % UINT32
  {
  }

  lemma Apart(r: nat, d: nat, e: nat)
    requires d < e < UINT32
    ensures (r + d) % UINT32 != (r + e) % UINT32
  {
  }

  lemma Index(w: nat)
    ensures w % UINT32 % PIPESIZE == w % PIPESIZE
  {
  }

  lemma Distinct(k: nat, w: nat)
    requires k < w < k + PIPESIZE
    ensures k % PIPESIZE != w % PIPESIZE
  {
  }
}
