/** When log_write's "too big a transaction" check can stop a well-behaved operation.  The check is
    made against `log.size - 1` while begin_op reserves against LOGSIZE, and it is made before
    absorption. */
module LogGuard {
  import opened Common
  import opened WriteAheadLog
  import opened LogProtocol

  lemma {:induction false} RunConcat(s: State, xs: seq<Event>, ys: seq<Event>)
    requires Runs(s, xs) && Runs(Run(s, xs), ys)
    ensures Runs(s, xs + ys) && Run(s, xs + ys) == Run(Run(s, xs), ys)
    decreases |xs|
  {
    hide Enabled, Apply;
    if xs == [] {
      assert xs + ys == ys;
    } else {
      RunConcat(Apply(s, xs[0]), xs[1..], ys);
      assert (xs + ys)[0] == xs[0] && (xs + ys)[1..] == xs[1..] + ys;
    }
  }

  lemma RunOne(s: State, e: Event)
    requires Enabled(s, e)
    ensures Runs(s, [e]) && Run(s, [e]) == Apply(s, e)
  {
    assert Runs(Apply(s, e), [e][1..]);
  }

  lemma RunFour(s: State, e1: Event, e2: Event, e3: Event, e4: Event) returns (es: seq<Event>)
    requires Enabled(s, e1) && Enabled(Apply(s, e1), e2) && Enabled(Apply(Apply(s, e1), e2), e3)
    requires Enabled(Apply(Apply(Apply(s, e1), e2), e3), e4)
    ensures Runs(s, es) && Run(s, es) == Apply(Apply(Apply(Apply(s, e1), e2), e3), e4)
  {
    hide Enabled, Apply;
    RunOne(s, e1);
    RunOne(Apply(s, e1), e2);
    RunConcat(s, [e1], [e2]);
    var t := Apply(Apply(s, e1), e2);
    RunOne(t, e3);
    RunOne(Apply(t, e3), e4);
    RunConcat(t, [e3], [e4]);
    RunConcat(s, [e1] + [e2], [e3] + [e4]);
    es := [e1] + [e2] + ([e3] + [e4]);
  }

  lemma {:induction false} UnspentAtLeast(ops: seq<Option<nat>>, p: nat)
    requires p < |ops|
    ensures Unspent(ops) >= Budget(ops[p])
  {
    if p < |ops| - 1 {
      UnspentAtLeast(ops[..|ops| - 1], p);
    }
  }

  /** `s` is not a state in which log_write panics on a process whose operation has budget left. */
  predicate PanicFree(s: State, p: nat)
  {
    s.Active(p) && s.ops[p].value < MAXOPBLOCKS ==> LogWritePasses(s)
  }

  ghost predicate NeverPanics(lay: Layout, disk: Disk, nproc: nat)
  {
    forall es: seq<Event>, p: nat ::
      Runs(Init(lay, disk, nproc), es) ==> PanicFree(Run(Init(lay, disk, nproc), es), p)
  }

  /** Blocks above the log region. */
  function High(lay: Layout, i: nat): nat { lay.start + lay.size + i }

  /** How many of the first `m` blocks operation `j` has added, ten per operation. */
  function Share(m: nat, j: nat): nat
  {
    if m <= 10 * j then 0 else if m >= 10 * j + 10 then 10 else m - 10 * j
  }

  /** Three operations are open and have logged the blocks High(0) .. High(m - 1). */
  ghost predicate Logged(s: State, lay: Layout, disk: Disk, m: nat)
  {
    && s.lay == lay && s.disk == disk && s.phase == Idle && s.outstanding == 3
    && |s.ops| >= 3
    && s.ops[0] == Some(Share(m, 0)) && s.ops[1] == Some(Share(m, 1)) && s.ops[2] == Some(Share(m, 2))
    && |s.lh| == m && (forall i | 0 <= i < m :: s.lh[i] == High(lay, i))
    && (forall b | b in s.cache :: b < High(lay, m))
  }

  predicate Roomy(lay: Layout, disk: Disk, nproc: nat)
  {
    CleanDisk(lay, disk) && High(lay, LOGSIZE) <= |disk| <= Bytes.UINT32 && nproc >= 3
  }

  lemma ThreeOps(lay: Layout, disk: Disk, nproc: nat) returns (es: seq<Event>)
    requires Roomy(lay, disk, nproc)
    ensures Runs(Init(lay, disk, nproc), es) && Logged(Run(Init(lay, disk, nproc), es), lay, disk, 0)
  {
    var s := Init(lay, disk, nproc);
    es := [];
    for j := 0 to 3
      invariant Runs(s, es)
      invariant var t := Run(s, es);
        && t == s.(ops := t.ops, outstanding := j) && |t.ops| == nproc
        && (forall i | 0 <= i < j :: t.ops[i] == Some(0)) && forall i | j <= i < nproc :: t.ops[i] == None
    {
      var t := Run(s, es);
      RunOne(t, BeginOp(j));
      RunConcat(s, es, [BeginOp(j)]);
      es := es + [BeginOp(j)];
    }
  }

  lemma LoggedMore(s: State, t: State, lay: Layout, disk: Disk, m: nat, data: Sector)
    requires Logged(s, lay, disk, m) && m < LOGSIZE && m < lay.size - 1
    requires High(lay, LOGSIZE) <= |disk| <= Bytes.UINT32
    requires var b := High(lay, m);
             && b in t.cache && t == s.(cache := s.cache[b := t.cache[b]])
             && t.cache[b].valid && t.cache[b].holder == Some(m / 10) && t.cache[b].data == data
    ensures var e := LogWrite(m / 10, High(lay, m), data); Enabled(t, e) && Logged(Apply(t, e), lay, disk, m + 1)
  {
    assert High(lay, m) !in s.lh;
  }

  /** The next block is read, locked and logged by the operation whose share it falls into. */
  lemma LogNext(s: State, lay: Layout, disk: Disk, m: nat) returns (es: seq<Event>)
    requires Logged(s, lay, disk, m) && m < LOGSIZE && m < lay.size - 1
    requires High(lay, LOGSIZE) <= |disk| <= Bytes.UINT32
    ensures Runs(s, es) && Logged(Run(s, es), lay, disk, m + 1)
  {
    var p, b := m / 10, High(lay, m);
    var s1 := Apply(s, Bget(p, b));
    var s2 := Apply(s1, Lock(p, b));
    var s3 := Apply(s2, Fill(p, b));
    assert s3.cache == s.cache[b := s3.cache[b]] && s3 == s.(cache := s3.cache);
    LoggedMore(s, s3, lay, disk, m, s3.cache[b].data);
    hide Logged;
    es := RunFour(s, Bget(p, b), Lock(p, b), Fill(p, b), LogWrite(p, b, s3.cache[b].data));
  }

  lemma {:induction false} LogMany(lay: Layout, disk: Disk, nproc: nat, m: nat) returns (es: seq<Event>)
    requires Roomy(lay, disk, nproc) && m <= LOGSIZE && m < lay.size
    ensures Runs(Init(lay, disk, nproc), es) && Logged(Run(Init(lay, disk, nproc), es), lay, disk, m)
  {
    if m == 0 {
      es := ThreeOps(lay, disk, nproc);
    } else {
      var xs := LogMany(lay, disk, nproc, m - 1);
      var ys := LogNext(Run(Init(lay, disk, nproc), xs), lay, disk, m - 1);
      RunConcat(Init(lay, disk, nproc), xs, ys);
      es := xs + ys;
    }
  }

  /** log_write never panics on an operation with budget left exactly when the log has more than
      LOGSIZE blocks.  mkfs lays out exactly LOGSIZE. */
  lemma NeverPanicsIff(lay: Layout, disk: Disk, nproc: nat)
    requires Roomy(lay, disk, nproc)
    ensures NeverPanics(lay, disk, nproc) <==> lay.size > LOGSIZE
  {
    var init := Init(lay, disk, nproc);
    if lay.size > LOGSIZE {
      forall es: seq<Event>, p: nat | Runs(init, es) ensures PanicFree(Run(init, es), p) {
        LayoutFixed(init, es);
        LogSpace(lay, disk, nproc, es, Run(init, es), AbsRun(Abs(disk, disk), es));
        if Run(init, es).Active(p) {
          ReachedInv(lay, disk, nproc, es, Run(init, es), AbsRun(Abs(disk, disk), es));
          UnspentAtLeast(Run(init, es).ops, p);
          NoneActive(Run(init, es).ops, p);
        }
      }
    } else {
      var m := lay.size - 1;
      var es := LogMany(lay, disk, nproc, m);
      assert !PanicFree(Run(init, es), m / 10);
    }
  }

  lemma {:induction false} LayoutFixed(s: State, es: seq<Event>)
    requires Runs(s, es)
    ensures Run(s, es).lay == s.lay
    decreases |es|
  {
    if es != [] {
      LayoutFixed(Apply(s, es[0]), es[1..]);
    }
  }

  /** Because the check comes before absorption, a log of any size can refuse to log a block that
      is already in the transaction and would take no space.  This includes mkfs's layout. */
  lemma AbsorbableWriteCanPanic(lay: Layout, disk: Disk, nproc: nat) returns (es: seq<Event>)
    requires Roomy(lay, disk, nproc) && lay.size >= 2
    ensures Runs(Init(lay, disk, nproc), es)
    ensures var s := Run(Init(lay, disk, nproc), es);
            s.Active(0) && High(lay, 0) in s.lh && !LogWritePasses(s)
  {
    var m := if lay.size - 1 < LOGSIZE then lay.size - 1 else LOGSIZE;
    es := LogMany(lay, disk, nproc, m);
    assert Run(Init(lay, disk, nproc), es).lh[0] == High(lay, 0);
  }

  /** When log_write goes through for a process inside an operation, absorbed or not: exactly while
      the header has fewer blocks than both of the limits it is checked against. */
  lemma LogWritePassesIff(lay: Layout, disk: Disk, nproc: nat, es: seq<Event>, s: State, a: Abs, p: nat)
    requires Reached(lay, disk, nproc, es, s, a) && s.Active(p)
    ensures LogWritePasses(s) <==> |s.lh| < LOGSIZE && |s.lh| < lay.size - 1
    ensures lay.size > LOGSIZE ==> (LogWritePasses(s) <==> |s.lh| < LOGSIZE)
    ensures lay.size > LOGSIZE && !LogWritePasses(s) ==> Unspent(s.ops) == 0
  {
    LayoutFixed(Init(lay, disk, nproc), es);
    ReachedInv(lay, disk, nproc, es, s, a);
    NoneActive(s.ops, p);
  }
}
