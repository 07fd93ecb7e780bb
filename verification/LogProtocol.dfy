/** The buffer cache, the log and the disk under every interleaving of processes: kernel/log.c and
    kernel/bio.c as a state machine whose steps are the code between two lock operations or block
    writes.  A step may also be a crash, or one block write of the recovery that follows it.

    The machine is proved against a reference with no cache, no log and no disk layout: a map from
    block to contents, and a second map saying what would survive a crash. */
module LogProtocol {
  import opened Common
  import opened WriteAheadLog

  /** A buffer assigned to a block.  `users` are the processes between bget and the reference drop
      in brelse; `holder` is the process that holds the buffer's sleep lock. */
  datatype Line = Line(data: Sector, valid: bool, refcnt: nat, users: set<nat>, holder: Option<nat>)

  datatype Phase =
    | Idle
    | Copying(k: nat)                   // in write_log, `k` blocks copied
    | Installing(k: nat)                // header written, `k` blocks installed
    | Recovering(boot: Disk, k: nat)    // booted with `boot`, `k` blocks installed

  datatype State = State(
    lay: Layout,
    disk: Disk,
    cache: map<nat, Line>,
    lh: seq<nat>,
    ops: seq<Option<nat>>,    // per process: the number of blocks its active operation has added
    outstanding: nat,
    phase: Phase,
    committer: nat,
    dirty: set<nat>)          // buffers changed by their holder and not yet logged
  {
    /** The blocks of the transaction that are not installed yet; the log holds a pin on each. */
    function Pending(): seq<nat>
    {
      if phase.Installing? && phase.k <= |lh| then lh[phase.k..] else lh
    }

    predicate Home(b: nat) { b < |disk| && !lay.InLog(b) }

    predicate Active(p: nat) { p < |ops| && ops[p].Some? }

    predicate Holds(p: nat, b: nat) { b in cache && cache[b].holder == Some(p) && cache[b].valid }
  }

  datatype Event =
    | Bget(p: nat, b: nat)
    | Evict(b: nat)
    | Lock(p: nat, b: nat)
    | Fill(p: nat, b: nat)
    | Read(p: nat, b: nat, data: Sector)
    | Modify(p: nat, b: nat, data: Sector)
    | LogWrite(p: nat, b: nat, data: Sector)
    | Unlock(p: nat, b: nat)
    | Unref(p: nat, b: nat)
    | BeginOp(p: nat)
    | EndOp(p: nat)
    | CopyBlock
    | WriteHead
    | InstallBlock
    | EraseHead
    | Crash
    | RecoverBlock
    | RecoverDone

  /** log_write's two panics do not fire. */
  predicate LogWritePasses(s: State)
  {
    |s.lh| < LOGSIZE && |s.lh| < s.lay.size - 1 && s.outstanding >= 1
  }

  /** When a step can be taken.  For Modify, LogWrite, Unlock and EndOp this includes the discipline
      documented for log_write: change a buffer only inside an operation and while holding it,
      log it before letting go of it, and add at most MAXOPBLOCKS blocks per operation. */
  predicate Enabled(s: State, e: Event)
  {
    match e
    case Bget(p, b) => !s.phase.Recovering? && s.Home(b) && (b in s.cache ==> p !in s.cache[b].users)
    case Evict(b) => b in s.cache && s.cache[b].refcnt == 0
    case Lock(p, b) => b in s.cache && p in s.cache[b].users && s.cache[b].holder == None
    case Fill(p, b) => b in s.cache && s.cache[b].holder == Some(p) && !s.cache[b].valid
    case Read(p, b, data) => s.Holds(p, b) && b !in s.dirty && data == s.cache[b].data
    case Modify(p, b, data) => s.Holds(p, b) && s.Active(p)
    case LogWrite(p, b, data) =>
      && s.Holds(p, b) && s.Active(p) && data == s.cache[b].data && b < Bytes.UINT32
      && LogWritePasses(s)
      && (b in s.lh || s.ops[p].value < MAXOPBLOCKS)
    case Unlock(p, b) => b in s.cache && s.cache[b].holder == Some(p) && b !in s.dirty
    case Unref(p, b) => b in s.cache && p in s.cache[b].users && s.cache[b].holder != Some(p)
    case BeginOp(p) =>
      && p < |s.ops| && s.ops[p] == None && s.phase == Idle
      && |s.lh| + (s.outstanding + 1) * MAXOPBLOCKS <= LOGSIZE
    case EndOp(p) => s.Active(p) && s.outstanding > 0 && forall b | b in s.dirty :: !s.Holds(p, b)
    case CopyBlock => s.phase.Copying? && s.phase.k < |s.lh| && s.Holds(s.committer, s.lh[s.phase.k])
    case WriteHead => s.phase == Copying(|s.lh|) && |s.lh| <= LOGSIZE
    case InstallBlock => s.phase.Installing? && s.phase.k < |s.lh| && s.Holds(s.committer, s.lh[s.phase.k])
    case EraseHead => s.phase == Installing(|s.lh|)
    case Crash => true
    case RecoverBlock => s.phase.Recovering? && s.phase.k < |Head(s.lay, s.disk)|
    case RecoverDone => s.phase.Recovering? && s.phase.k == |Head(s.lay, s.disk)|
  }

  function SetLine(s: State, b: nat, line: Line): State
  {
    s.(cache := s.cache[b := line])
  }

  /** An iteration of install_trans, home block `b`: copy, write, drop the pin. */
  function Installed(s: State, k: nat, b: nat): State
    requires b in s.cache
  {
    var line, data := s.cache[b], At(s.disk, s.lay.start + k + 1);
    SetLine(s, b, line.(data := data, refcnt := if line.refcnt > 0 then line.refcnt - 1 else 0))
    .(disk := Put(s.disk, b, data), phase := Installing(k + 1))
  }

  function Apply(s: State, e: Event): State
    requires Enabled(s, e)
  {
    match e
    case Bget(p, b) =>
      if b in s.cache then
        SetLine(s, b, s.cache[b].(refcnt := s.cache[b].refcnt + 1, users := s.cache[b].users + {p}))
      else
        SetLine(s, b, Line(Sector(Bytes.ZeroBlock()), false, 1, {p}, None))
    case Evict(b) => s.(cache := s.cache - {b})
    case Lock(p, b) => SetLine(s, b, s.cache[b].(holder := Some(p)))
    case Fill(p, b) => SetLine(s, b, s.cache[b].(data := At(s.disk, b), valid := true))
    case Read(p, b, data) => s
    case Modify(p, b, data) => SetLine(s, b, s.cache[b].(data := data)).(dirty := s.dirty + {b})
    case LogWrite(p, b, data) =>
      if b in s.lh then
        s.(dirty := s.dirty - {b})
      else
        SetLine(s, b, s.cache[b].(refcnt := s.cache[b].refcnt + 1))
        .(dirty := s.dirty - {b}, lh := Absorb(s.lh, b), ops := s.ops[p := Some(s.ops[p].value + 1)])
    case Unlock(p, b) => SetLine(s, b, s.cache[b].(holder := None))
    case Unref(p, b) =>
      SetLine(s, b, s.cache[b].(refcnt := if s.cache[b].refcnt > 0 then s.cache[b].refcnt - 1 else 0,
                                users := s.cache[b].users - {p}))
    case BeginOp(p) => s.(ops := s.ops[p := Some(0)], outstanding := s.outstanding + 1)
    case EndOp(p) =>
      var t := s.(ops := s.ops[p := None], outstanding := s.outstanding - 1);
      if t.outstanding == 0 && s.lh != [] then t.(phase := Copying(0), committer := p) else t
    case CopyBlock =>
      s.(disk := Put(s.disk, s.lay.start + s.phase.k + 1, s.cache[s.lh[s.phase.k]].data),
         phase := Copying(s.phase.k + 1))
    case WriteHead => s.(disk := SetHead(s.lay, s.disk, s.lh), phase := Installing(0))
    case InstallBlock => Installed(s, s.phase.k, s.lh[s.phase.k])
    case EraseHead => s.(disk := SetHead(s.lay, s.disk, []), lh := [], phase := Idle)
    case Crash =>
      s.(cache := map[], lh := [], ops := seq(|s.ops|, _ => None), outstanding := 0, dirty := {},
         phase := Recovering(s.disk, 0))
    case RecoverBlock =>
      s.(disk := Put(s.disk, Head(s.lay, s.disk)[s.phase.k], At(s.disk, s.lay.start + s.phase.k + 1)),
         phase := s.phase.(k := s.phase.k + 1))
    case RecoverDone => s.(disk := SetHead(s.lay, s.disk, []), phase := Idle)
  }

  // ---------------------------------------------------------------------------
  // The reference
  // ---------------------------------------------------------------------------

  /** `view` is what the file system has written so far, `durable` what a crash would leave. */
  datatype Abs = Abs(view: Disk, durable: Disk)

  /** Only four kinds of step matter: a logged write, the commit point, and a crash. */
  function AbsApply(a: Abs, e: Event): Abs
  {
    match e
    case LogWrite(p, b, data) => a.(view := Put(a.view, b, data))
    case WriteHead => a.(durable := a.view)
    case Crash => a.(view := a.durable)
    case _ => a
  }

  function Init(lay: Layout, disk: Disk, nproc: nat): State
  {
    State(lay, disk, map[], [], seq(nproc, _ => None), 0, Idle, 0, {})
  }

  predicate Runs(s: State, es: seq<Event>)
    decreases |es|
  {
    es == [] || (Enabled(s, es[0]) && Runs(Apply(s, es[0]), es[1..]))
  }

  function Run(s: State, es: seq<Event>): State
    requires Runs(s, es)
    decreases |es|
  {
    if es == [] then s else Run(Apply(s, es[0]), es[1..])
  }

  function AbsRun(a: Abs, es: seq<Event>): Abs
    decreases |es|
  {
    if es == [] then a else AbsRun(AbsApply(a, es[0]), es[1..])
  }

  // ---------------------------------------------------------------------------
  // Log space
  // ---------------------------------------------------------------------------

  function Budget(o: Option<nat>): nat
  {
    if o.Some? && o.value <= MAXOPBLOCKS then MAXOPBLOCKS - o.value else 0
  }

  /** The blocks that the active operations may still add. */
  function Unspent(ops: seq<Option<nat>>): nat
  {
    if ops == [] then 0 else Unspent(ops[..|ops| - 1]) + Budget(ops[|ops| - 1])
  }

  function ActiveCount(ops: seq<Option<nat>>): nat
  {
    if ops == [] then 0 else ActiveCount(ops[..|ops| - 1]) + if ops[|ops| - 1].Some? then 1 else 0
  }

  lemma {:induction false} OpsUpdate(ops: seq<Option<nat>>, p: nat, o: Option<nat>)
    requires p < |ops|
    ensures Unspent(ops[p := o]) + Budget(ops[p]) == Unspent(ops) + Budget(o)
    ensures ActiveCount(ops[p := o]) + (if ops[p].Some? then 1 else 0) == ActiveCount(ops) + if o.Some? then 1 else 0
  {
    var n := |ops| - 1;
    if p < n {
      OpsUpdate(ops[..n], p, o);
      assert ops[p := o][..n] == ops[..n][p := o];
    } else {
      assert ops[p := o][..n] == ops[..n];
    }
  }

  lemma {:induction false} UnspentBound(ops: seq<Option<nat>>)
    ensures Unspent(ops) <= ActiveCount(ops) * MAXOPBLOCKS
  {
    if ops != [] {
      UnspentBound(ops[..|ops| - 1]);
    }
  }

  /** No active operation is counted, so none is active. */
  lemma {:induction false} NoneActive(ops: seq<Option<nat>>, p: nat)
    requires p < |ops| && ops[p].Some?
    ensures ActiveCount(ops) > 0
  {
    if p < |ops| - 1 {
      NoneActive(ops[..|ops| - 1], p);
    }
  }

  lemma {:induction false} AllIdle(ops: seq<Option<nat>>)
    requires forall p | 0 <= p < |ops| :: ops[p] == None
    ensures ActiveCount(ops) == 0 && Unspent(ops) == 0
  {
    if ops != [] {
      AllIdle(ops[..|ops| - 1]);
    }
  }

  /** The log never holds more than LOGSIZE blocks, counting what active operations may add. */
  predicate SpaceOk(s: State)
  {
    && s.outstanding == ActiveCount(s.ops)
    && (forall p | 0 <= p < |s.ops| && s.ops[p].Some? :: s.ops[p].value <= MAXOPBLOCKS)
    && |s.lh| + Unspent(s.ops) <= LOGSIZE
    && (s.phase != Idle ==> s.outstanding == 0)
  }

  lemma SpaceStep(s: State, e: Event)
    requires SpaceOk(s) && Enabled(s, e)
    ensures SpaceOk(Apply(s, e))
  {
    hide Unspent, ActiveCount, SetHead, Head;
    match e
    case LogWrite(p, b, data) => OpsUpdate(s.ops, p, Some(s.ops[p].value + 1));
    case BeginOp(p) => OpsUpdate(s.ops, p, Some(0)); UnspentBound(s.ops[p := Some(0)]);
    case EndOp(p) => OpsUpdate(s.ops, p, None);
    case Crash => AllIdle(Apply(s, e).ops);
    case _ =>
  }

  // ---------------------------------------------------------------------------
  // The invariant
  // ---------------------------------------------------------------------------

  predicate ListOk(s: State)
  {
    && Loggable(s.lay, s.disk, s.lh) && Distinct(s.lh)
    && (s.phase.Copying? || s.phase.Installing? ==> s.phase.k <= |s.lh|)
    && (s.phase.Recovering? ==> s.lh == [] && s.cache == map[])
  }

  /** A buffer's reference count is its users plus the log's pin; a locked buffer is in use. */
  predicate LineOk(s: State, b: nat)
    requires b in s.cache
  {
    && s.Home(b)
    && s.cache[b].refcnt == |s.cache[b].users| + (if b in s.Pending() then 1 else 0)
    && (s.cache[b].holder.Some? ==> s.cache[b].holder.value in s.cache[b].users)
  }

  /** Every buffer is accounted for, and every block with a pin is cached. */
  predicate LinesOk(s: State)
  {
    && (forall b | b in s.cache :: LineOk(s, b))
    && (forall b | b in s.Pending() :: b in s.cache && s.cache[b].valid)
  }

  /** A block's current contents are in its buffer, if that is clean, and on the disk, if the
      block is not pending. */
  ghost predicate DataOk(s: State, view: Disk)
  {
    && |view| == |s.disk|
    && (forall b | b in s.cache && s.cache[b].valid && b !in s.dirty && b < |view| :: s.cache[b].data == view[b])
    && (forall b: nat | s.Home(b) && b !in s.Pending() :: s.disk[b] == view[b])
  }

  predicate DirtyOk(s: State) { forall b | b in s.dirty :: DirtyAt(s, b) }

  lemma ActiveMeansIdle(s: State, p: nat)
    requires SpaceOk(s) && s.Active(p)
    ensures s.phase == Idle
  {
    NoneActive(s.ops, p);
  }

  lemma ListSame(s: State, t: State)
    requires ListOk(s) && t.lh == s.lh && t.lay == s.lay && |t.disk| == |s.disk|
    requires t.phase.Copying? || t.phase.Installing? ==> t.phase.k <= |t.lh|
    requires t.phase.Recovering? ==> s.phase.Recovering? && t.cache == map[]
    ensures ListOk(t)
  {
  }

  lemma ListLogWrite(s: State, e: Event)
    requires SpaceOk(s) && ListOk(s) && LinesOk(s) && Enabled(s, e) && e.LogWrite?
    ensures ListOk(Apply(s, e))
  {
    ActiveMeansIdle(s, e.p);
    assert LineOk(s, e.b);
    hide SpaceOk, LinesOk;
  }

  lemma ListStep(s: State, e: Event)
    requires SpaceOk(s) && ListOk(s) && LinesOk(s) && Enabled(s, e)
    ensures ListOk(Apply(s, e))
  {
    hide SpaceOk, LinesOk, SetHead;
    match e
    case LogWrite(_, _, _) => hide ListOk; ListLogWrite(s, e);
    case EraseHead =>
    case Crash =>
    case _ => hide Loggable; ListSame(s, Apply(s, e));
  }

  /** Steps that change one buffer and nothing else about the cache. */
  lemma LineSet(s: State, b: nat, line: Line)
    requires LinesOk(s) && s.Home(b)
    requires line.refcnt == |line.users| + if b in s.Pending() then 1 else 0
    requires line.holder.Some? ==> line.holder.value in line.users
    requires b in s.Pending() ==> line.valid
    ensures LinesOk(SetLine(s, b, line))
  {
    var t := SetLine(s, b, line);
    forall x | x in t.cache ensures LineOk(t, x) {
      if x != b {
        assert LineOk(s, x);
      }
    }
  }

  /** Steps that leave the buffers and the pinned blocks alone. */
  lemma LinesSame(s: State, t: State)
    requires LinesOk(s) && t.lay == s.lay && |t.disk| == |s.disk|
    requires forall b | b in t.cache :: b in s.cache && t.cache[b] == s.cache[b]
    requires forall b | b in s.cache :: b in s.Pending() <==> b in t.Pending()
    requires forall b | b in t.Pending() :: b in s.Pending() && b in t.cache
    ensures LinesOk(t)
  {
    forall b | b in t.cache ensures LineOk(t, b) {
      assert LineOk(s, b);
    }
  }

  lemma LinesLogWrite(s: State, e: Event)
    requires SpaceOk(s) && LinesOk(s) && e.LogWrite? && Enabled(s, e)
    ensures LinesOk(Apply(s, e))
  {
    ActiveMeansIdle(s, e.p);
    var t := Apply(s, e);
    forall b | b in t.cache ensures LineOk(t, b) {
      assert LineOk(s, b);
    }
  }

  lemma LinesInstall(s: State, e: Event)
    requires ListOk(s) && LinesOk(s) && e.InstallBlock? && Enabled(s, e)
    ensures LinesOk(Apply(s, e))
  {
    var t, k := Apply(s, e), s.phase.k;
    assert s.Pending() == [s.lh[k]] + t.Pending();
    assert s.lh[k] !in t.Pending();
    forall b | b in t.cache ensures LineOk(t, b) {
      assert LineOk(s, b);
    }
  }

  lemma LinesBuffer(s: State, e: Event)
    requires LinesOk(s) && Enabled(s, e)
    requires e.Bget? || e.Lock? || e.Fill? || e.Modify? || e.Unlock? || e.Unref?
    ensures LinesOk(Apply(s, e))
  {
    assert e.b in s.cache ==> LineOk(s, e.b);
    LineSet(s, e.b, Apply(s, e).cache[e.b]);
    hide LineOk;
  }

  lemma LinesCommit(s: State, e: Event)
    requires ListOk(s) && LinesOk(s) && Enabled(s, e)
    requires e.CopyBlock? || e.WriteHead? || e.EraseHead?
    ensures LinesOk(Apply(s, e))
  {
    assert s.lh[0..] == s.lh && s.lh[|s.lh|..] == [];
    LinesSame(s, Apply(s, e));
    hide LineOk;
  }

  lemma LinesStep(s: State, e: Event)
    requires SpaceOk(s) && ListOk(s) && LinesOk(s) && Enabled(s, e)
    ensures LinesOk(Apply(s, e))
  {
    match e
    case LogWrite(_, _, _) => LinesLogWrite(s, e);
    case InstallBlock => LinesInstall(s, e);
    case CopyBlock => LinesCommit(s, e);
    case WriteHead => LinesCommit(s, e);
    case EraseHead => LinesCommit(s, e);
    case Evict(b) => assert LineOk(s, b); LinesSame(s, Apply(s, e));
    case Read(_, _, _) =>
    case BeginOp(_) => LinesSame(s, Apply(s, e));
    case EndOp(p) => ActiveMeansIdle(s, p); LinesSame(s, Apply(s, e));
    case Crash =>
    case RecoverBlock => LinesSame(s, Apply(s, e));
    case RecoverDone => LinesSame(s, Apply(s, e));
    case _ => LinesBuffer(s, e);
  }

  /** A changed, unlogged buffer `b` is held by a process inside an operation. */
  predicate DirtyAt(s: State, b: nat)
  {
    b in s.cache && s.cache[b].valid && s.cache[b].holder.Some? && s.Active(s.cache[b].holder.value)
  }

  /** Steps on a buffer. */
  lemma DirtyBuffer(s: State, e: Event, c: nat)
    requires Enabled(s, e) && (e.Bget? || e.Lock? || e.Fill? || e.Read? || e.Modify? || e.Unlock? || e.Unref?)
    requires c in Apply(s, e).dirty && (c in s.dirty ==> DirtyAt(s, c))
    ensures DirtyAt(Apply(s, e), c)
  {
  }

  /** Steps on the list of operations, and of the commit and the recovery. */
  lemma DirtyOther(s: State, e: Event, c: nat)
    requires Enabled(s, e) && (e.LogWrite? || e.BeginOp? || e.EndOp? || e.CopyBlock? || e.WriteHead? || e.InstallBlock?
                               || e.EraseHead? || e.Crash? || e.RecoverBlock? || e.RecoverDone?)
    requires DirtyOk(s) && c in Apply(s, e).dirty && DirtyAt(s, c)
    ensures DirtyAt(Apply(s, e), c)
  {
    hide SetHead, Head;
  }

  lemma DirtyStep(s: State, e: Event)
    requires SpaceOk(s) && ListOk(s) && LinesOk(s) && DirtyOk(s) && Enabled(s, e)
    ensures DirtyOk(Apply(s, e))
  {
    hide SpaceOk, ListOk, SetHead;
    var t := Apply(s, e);
    forall c | c in t.dirty ensures DirtyAt(t, c) {
      assert c in s.dirty ==> DirtyAt(s, c);
      if e.Evict? {
        assert LineOk(s, e.b);
      } else if e.Bget? || e.Lock? || e.Fill? || e.Read? || e.Modify? || e.Unlock? || e.Unref? {
        DirtyBuffer(s, e, c);
      } else {
        DirtyOther(s, e, c);
      }
    }
  }

  /** The first `k` log blocks hold the transaction's contents. */
  predicate Copied(s: State, view: Disk, k: nat)
  {
    && k <= |s.lh| < s.lay.size && s.lay.start + s.lay.size <= |s.disk|
    && forall i | 0 <= i < k :: s.disk[s.lay.start + 1 + i] == At(view, s.lh[i])
  }

  /** What is on disk in each phase, compared with what must survive a crash. */
  predicate PhaseOk(s: State, a: Abs)
  {
    && |a.view| == |a.durable| == |s.disk|
    && match s.phase
       case Idle => NoHead(s.lay, s.disk) && SameHome(s.lay, s.disk, a.durable)
       case Copying(k) => NoHead(s.lay, s.disk) && SameHome(s.lay, s.disk, a.durable) && Copied(s, a.view, k)
       case Installing(k) =>
         && HeadFits(s.lay, s.disk) && Head(s.lay, s.disk) == s.lh
         && a.durable == a.view && Copied(s, a.view, |s.lh|)
       case Recovering(boot, k) =>
         && RecoversTo(s.lay, boot, a.durable) && a.view == a.durable
         && k <= |Head(s.lay, boot)| && s.disk == PartialRecover(s.lay, boot, k)
  }

  /** With no operation active and no commit running, nothing is left in the list: the last end_op has
      started the commit. */
  predicate Settled(s: State) { s.phase.Idle? && s.outstanding == 0 ==> s.lh == [] }

  lemma SettledStep(s: State, e: Event)
    requires SpaceOk(s) && ListOk(s) && Settled(s) && Enabled(s, e)
    ensures Settled(Apply(s, e))
  {
    hide ActiveCount, Unspent, Loggable, Distinct, SetHead, Head;
  }

  ghost predicate Inv(s: State, a: Abs)
  {
    && SpaceOk(s) && ListOk(s) && LinesOk(s) && DirtyOk(s) && Settled(s) && PhaseOk(s, a)
    && (!s.phase.Recovering? ==> DataOk(s, a.view))
  }

  lemma NothingDirty(s: State)
    requires SpaceOk(s) && DirtyOk(s) && s.phase != Idle
    ensures s.dirty == {}
  {
    if b :| b in s.dirty {
      ActiveMeansIdle(s, s.cache[b].holder.value);
    }
  }

  lemma DataBuffer(s: State, view: Disk, e: Event)
    requires LinesOk(s) && DirtyOk(s) && DataOk(s, view) && Enabled(s, e)
    requires e.Bget? || e.Lock? || e.Fill? || e.Modify? || e.Unlock? || e.Unref? || e.Evict? || e.Read?
    ensures DataOk(Apply(s, e), view)
  {
    assert e.b in s.cache ==> LineOk(s, e.b);
  }

  lemma DataLogWrite(s: State, view: Disk, e: Event)
    requires SpaceOk(s) && LinesOk(s) && DataOk(s, view) && e.LogWrite? && Enabled(s, e)
    ensures DataOk(Apply(s, e), Put(view, e.b, e.data))
  {
    ActiveMeansIdle(s, e.p);
    assert LineOk(s, e.b);
  }

  lemma DataInstall(s: State, view: Disk, k: nat, b: nat)
    requires ListOk(s) && DataOk(s, view) && Copied(s, view, |s.lh|)
    requires s.phase == Installing(k) && k < |s.lh| && b == s.lh[k] && b in s.cache
    ensures DataOk(Installed(s, k, b), view)
  {
    var t := Installed(s, k, b);
    assert s.Pending() == [b] + t.Pending();
    assert s.Home(b) && At(s.disk, s.lay.start + k + 1) == view[b];
  }

  lemma DataCommit(s: State, view: Disk, e: Event)
    requires ListOk(s) && DataOk(s, view) && Enabled(s, e)
    requires e.CopyBlock? || e.WriteHead? || e.EraseHead?
    ensures DataOk(Apply(s, e), view)
  {
    assert s.lh[0..] == s.lh && s.lh[|s.lh|..] == [];
    var t := Apply(s, e);
    assert t.Pending() == s.Pending();
    forall b: nat | s.Home(b) ensures t.disk[b] == s.disk[b] {
      assert s.lay.InLog(s.lay.start);
    }
  }

  lemma DataInstalling(s: State, a: Abs, e: Event)
    requires ListOk(s) && PhaseOk(s, a) && DataOk(s, a.view) && Enabled(s, e) && e.InstallBlock?
    ensures DataOk(Apply(s, e), a.view)
  {
    assert Copied(s, a.view, |s.lh|);
    hide PhaseOk, ListOk, DataOk, Copied;
    DataInstall(s, a.view, s.phase.k, s.lh[s.phase.k]);
  }

  lemma DataOps(s: State, view: Disk, e: Event)
    requires SpaceOk(s) && DataOk(s, view) && Enabled(s, e) && (e.BeginOp? || e.EndOp?)
    ensures DataOk(Apply(s, e), view)
  {
    if e.EndOp? {
      ActiveMeansIdle(s, e.p);
    }
    hide SpaceOk;
    assert s.Pending() == Apply(s, e).Pending();
  }

  lemma DataStep(s: State, a: Abs, e: Event)
    requires Inv(s, a) && Enabled(s, e) && !e.Crash? && !s.phase.Recovering?
    ensures DataOk(Apply(s, e), AbsApply(a, e).view)
  {
    hide DataOk, SpaceOk, LinesOk, DirtyOk, PhaseOk, ListOk, Apply;
    assert !e.RecoverBlock? && !e.RecoverDone?;
    hide Enabled;
    match e
    case LogWrite(_, _, _) => DataLogWrite(s, a.view, e);
    case InstallBlock => DataInstalling(s, a, e);
    case CopyBlock => DataCommit(s, a.view, e);
    case WriteHead => DataCommit(s, a.view, e);
    case EraseHead => DataCommit(s, a.view, e);
    case BeginOp(_) => DataOps(s, a.view, e);
    case EndOp(_) => DataOps(s, a.view, e);
    case _ => DataBuffer(s, a.view, e);
  }

  /** Before the header is written the disk still holds what must survive. */
  lemma CrashBefore(s: State, a: Abs)
    requires ListOk(s) && PhaseOk(s, a) && (s.phase.Idle? || s.phase.Copying?)
    ensures RecoversTo(s.lay, s.disk, a.durable)
  {
    hide Head;
    UncommittedRecovers(s.lay, s.disk, a.durable);
  }

  lemma HomeOutside(s: State, view: Disk, b: nat)
    requires DataOk(s, view) && s.Home(b) && b !in s.lh
    ensures s.disk[b] == view[b]
  {
    assert forall c | c in s.Pending() :: c in s.lh;
  }

  lemma NothingRecovered(lay: Layout, d: Disk)
    ensures PartialRecover(lay, d, 0) == d
  {
  }

  /** While blocks are installed the log holds it. */
  lemma CrashInstalling(s: State, a: Abs)
    requires ListOk(s) && PhaseOk(s, a) && DataOk(s, a.view) && s.phase.Installing?
    ensures RecoversTo(s.lay, s.disk, a.durable)
  {
    hide Head, RecoversTo, PartialRecover, HeadFits, Distinct, Encodable;
    var d, lh := s.disk, s.lh;
    forall b | 0 <= b < |d| && !s.lay.InLog(b) && b !in lh ensures d[b] == a.view[b] {
      HomeOutside(s, a.view, b);
    }
    hide DataOk;
    forall i | 0 <= i < |lh| ensures d[s.lay.start + 1 + i] == a.view[lh[i]] {
      assert d[s.lay.start + 1 + i] == At(a.view, lh[i]);
    }
    assert DiskOk(s.lay, d) && Head(s.lay, d) == lh && Distinct(lh) && a.durable == a.view;
    hide ListOk, PhaseOk, DiskOk, Copied;
    CommittedRecovers(s.lay, d, lh, a.view, 0);
    NothingRecovered(s.lay, d);
  }

  /** While the machine recovers, so does every further recovery. */
  lemma CrashRecovering(s: State, a: Abs)
    requires PhaseOk(s, a) && s.phase.Recovering?
    ensures RecoversTo(s.lay, s.disk, a.durable)
  {
    hide Head, PartialRecover;
    RecoverAfterPartial(s.lay, s.phase.boot, s.phase.k);
    PartialRecoverHead(s.lay, s.phase.boot, s.phase.k);
  }

  /** In every phase the disk recovers to exactly what must survive. */
  lemma CrashSafe(s: State, a: Abs)
    requires Inv(s, a)
    ensures RecoversTo(s.lay, s.disk, a.durable)
  {
    hide SpaceOk, ListOk, LinesOk, DirtyOk, PhaseOk, DataOk, RecoversTo;
    match s.phase
    case Idle => CrashBefore(s, a);
    case Copying(_) => CrashBefore(s, a);
    case Installing(_) => CrashInstalling(s, a);
    case Recovering(_, _) => CrashRecovering(s, a);
  }

  lemma PhaseCopyData(s: State, a: Abs, k: nat, data: Sector)
    requires ListOk(s) && PhaseOk(s, a) && s.phase == Copying(k) && k < |s.lh| && data == At(a.view, s.lh[k])
    ensures PhaseOk(s.(disk := Put(s.disk, s.lay.start + k + 1, data), phase := Copying(k + 1)), a)
  {
    assert s.lay.InLog(s.lay.start + k + 1);
  }

  lemma CleanBuffer(s: State, view: Disk, k: nat)
    requires ListOk(s) && DataOk(s, view) && s.dirty == {} && k < |s.lh| && s.lh[k] in s.cache && s.cache[s.lh[k]].valid
    ensures s.cache[s.lh[k]].data == At(view, s.lh[k])
  {
    assert s.Home(s.lh[k]);
  }

  lemma PhaseCopy(s: State, a: Abs, e: Event)
    requires Inv(s, a) && e.CopyBlock? && Enabled(s, e)
    ensures PhaseOk(Apply(s, e), a)
  {
    hide SpaceOk, LinesOk, DirtyOk, DataOk, PhaseOk, ListOk;
    NothingDirty(s);
    CleanBuffer(s, a.view, s.phase.k);
    PhaseCopyData(s, a, s.phase.k, s.cache[s.lh[s.phase.k]].data);
  }

  lemma PhaseWriteHead(s: State, a: Abs, e: Event)
    requires ListOk(s) && PhaseOk(s, a) && e.WriteHead? && Enabled(s, e)
    ensures PhaseOk(Apply(s, e), AbsApply(a, e))
  {
    SetHeadHead(s.lay, s.disk, s.lh);
    SetHeadFrame(s.lay, s.disk, s.lh);
    hide Head, HeadFits, NoHead, SetHead;
  }

  lemma PhaseEraseHead(s: State, a: Abs, e: Event)
    requires ListOk(s) && PhaseOk(s, a) && DataOk(s, a.view) && e.EraseHead? && Enabled(s, e)
    ensures PhaseOk(Apply(s, e), AbsApply(a, e))
  {
    SetHeadHead(s.lay, s.disk, []);
    SetHeadFrame(s.lay, s.disk, []);
    assert NoHead(s.lay, SetHead(s.lay, s.disk, []));
    hide Head, HeadFits, NoHead, SetHead;
    assert s.lay.InLog(s.lay.start) && s.lh[|s.lh|..] == [];
  }

  /** Steps of processes neither write the disk nor change what must survive. */
  lemma PhaseProcess(s: State, a: Abs, e: Event)
    requires SpaceOk(s) && ListOk(s) && PhaseOk(s, a) && Enabled(s, e)
    requires !e.CopyBlock? && !e.WriteHead? && !e.EraseHead? && !e.InstallBlock?
    requires !e.Crash? && !e.RecoverBlock? && !e.RecoverDone?
    ensures PhaseOk(Apply(s, e), AbsApply(a, e))
  {
    if e.LogWrite? || e.EndOp? {
      ActiveMeansIdle(s, e.p);
    }
    hide SpaceOk, Head, HeadFits, NoHead, SameHome, RecoversTo, PartialRecover, Loggable, Distinct;
  }

  lemma PhaseInstall(s: State, a: Abs, e: Event)
    requires ListOk(s) && PhaseOk(s, a) && e.InstallBlock? && Enabled(s, e)
    ensures PhaseOk(Apply(s, e), a)
  {
    var t := Apply(s, e);
    assert forall b: nat | s.lay.InLog(b) :: t.disk[b] == s.disk[b];
    assert s.lay.InLog(s.lay.start);
  }

  lemma PhaseRecoverBlock(s: State, a: Abs)
    requires PhaseOk(s, a) && Enabled(s, RecoverBlock)
    ensures PhaseOk(Apply(s, RecoverBlock), a)
  {
    PartialRecoverStep(s.lay, s.phase.boot, s.phase.k);
    hide Head, HeadFits, NoHead, PartialRecover, SetHead, SameHome, RecoversTo;
  }

  /** A recovery that has installed every block has the home blocks that must survive. */
  lemma RecoveredHome(s: State, a: Abs)
    requires PhaseOk(s, a) && Enabled(s, RecoverDone)
    ensures var d := SetHead(s.lay, s.disk, []);
            NoHead(s.lay, d) && SameHome(s.lay, d, a.durable) && a.view == a.durable
  {
    PartialRecoverStep(s.lay, s.phase.boot, s.phase.k);
    PartialRecoverHead(s.lay, s.phase.boot, s.phase.k + 1);
  }

  lemma PhaseRecoverDone(s: State, a: Abs)
    requires ListOk(s) && PhaseOk(s, a) && Enabled(s, RecoverDone)
    ensures PhaseOk(Apply(s, RecoverDone), a) && DataOk(Apply(s, RecoverDone), a.view)
  {
    RecoveredHome(s, a);
    PhaseSizes(s, a);
    hide Head, HeadFits, NoHead, PartialRecover, SetHead, RecoversTo, Loggable, Copied;
  }

  lemma PhaseCrash(s: State, a: Abs)
    requires Inv(s, a)
    ensures PhaseOk(Apply(s, Crash), AbsApply(a, Crash))
  {
    CrashSafe(s, a);
    PhaseSizes(s, a);
    hide SpaceOk, ListOk, LinesOk, DirtyOk, DataOk, PhaseOk, RecoversTo;
    CrashPhase(s, a);
  }

  lemma PhaseSizes(s: State, a: Abs)
    requires PhaseOk(s, a)
    ensures |a.view| == |a.durable| == |s.disk|
  {
    hide NoHead, SameHome, Copied, HeadFits, Head, RecoversTo, PartialRecover;
  }

  lemma CrashPhase(s: State, a: Abs)
    requires |a.view| == |a.durable| == |s.disk| && RecoversTo(s.lay, s.disk, a.durable)
    ensures PhaseOk(Apply(s, Crash), AbsApply(a, Crash))
  {
    NothingRecovered(s.lay, s.disk);
    hide RecoversTo, Head, PartialRecover, NoHead, SameHome, Copied, HeadFits;
  }

  lemma PhaseStep(s: State, a: Abs, e: Event)
    requires Inv(s, a) && Enabled(s, e)
    ensures PhaseOk(Apply(s, e), AbsApply(a, e))
  {
    hide SpaceOk, ListOk, LinesOk, DirtyOk, PhaseOk, DataOk;
    match e
    case CopyBlock => PhaseCopy(s, a, e);
    case WriteHead => PhaseWriteHead(s, a, e);
    case EraseHead => PhaseEraseHead(s, a, e);
    case InstallBlock => PhaseInstall(s, a, e);
    case Crash => PhaseCrash(s, a);
    case RecoverBlock => PhaseRecoverBlock(s, a);
    case RecoverDone => PhaseRecoverDone(s, a);
    case _ => PhaseProcess(s, a, e);
  }

  lemma InvStep(s: State, a: Abs, e: Event)
    requires Inv(s, a) && Enabled(s, e)
    ensures Inv(Apply(s, e), AbsApply(a, e))
  {
    SpaceStep(s, e);
    ListStep(s, e);
    LinesStep(s, e);
    DirtyStep(s, e);
    SettledStep(s, e);
    PhaseStep(s, a, e);
    if s.phase.Recovering? {
      if e.RecoverDone? {
        PhaseRecoverDone(s, a);
      }
    } else if !e.Crash? {
      DataStep(s, a, e);
    }
  }

  // ---------------------------------------------------------------------------
  // Every run
  // ---------------------------------------------------------------------------

  /** A disk as recovery leaves it, with room for a log. */
  predicate CleanDisk(lay: Layout, disk: Disk)
  {
    0 < lay.size && lay.start + lay.size <= |disk| && NoHead(lay, disk)
  }

  lemma InitInv(lay: Layout, disk: Disk, nproc: nat)
    requires CleanDisk(lay, disk)
    ensures Inv(Init(lay, disk, nproc), Abs(disk, disk))
  {
    AllIdle(Init(lay, disk, nproc).ops);
  }

  lemma {:induction false} RunInv(s: State, a: Abs, es: seq<Event>)
    requires Inv(s, a) && Runs(s, es)
    ensures Inv(Run(s, es), AbsRun(a, es))
    decreases |es|
  {
    if es != [] {
      InvStep(s, a, es[0]);
      RunInv(Apply(s, es[0]), AbsApply(a, es[0]), es[1..]);
    }
  }

  /** The state and the reference after a run from a clean disk. */
  ghost predicate Reached(lay: Layout, disk: Disk, nproc: nat, es: seq<Event>, s: State, a: Abs)
  {
    && CleanDisk(lay, disk)
    && Runs(Init(lay, disk, nproc), es)
    && s == Run(Init(lay, disk, nproc), es)
    && a == AbsRun(Abs(disk, disk), es)
  }

  lemma ReachedInv(lay: Layout, disk: Disk, nproc: nat, es: seq<Event>, s: State, a: Abs)
    requires Reached(lay, disk, nproc, es, s, a)
    ensures Inv(s, a)
  {
    InitInv(lay, disk, nproc);
    RunInv(Init(lay, disk, nproc), Abs(disk, disk), es);
  }

  /** Every bread of a home block returns the last logged write of that block: with the cache, the
      log and the disk in any state any run can produce, a process that holds a buffer and has not
      changed it sees the reference contents. */
  lemma ReadsSeeLastLoggedWrite(lay: Layout, disk: Disk, nproc: nat, es: seq<Event>, s: State, a: Abs,
                                p: nat, b: nat, data: Sector)
    requires Reached(lay, disk, nproc, es, s, a)
    requires Enabled(s, Read(p, b, data))
    ensures data == At(a.view, b)
  {
    ReachedInv(lay, disk, nproc, es, s, a);
    assert LineOk(s, b);
  }

  /** A recorded block stays cached, pinned and unchanged until it is installed, and write_log
      copies exactly what the operations logged. */
  lemma LoggedBlocksStayPinned(lay: Layout, disk: Disk, nproc: nat, es: seq<Event>, s: State, a: Abs, b: nat)
    requires Reached(lay, disk, nproc, es, s, a)
    requires b in s.Pending()
    ensures b in s.cache && s.cache[b].refcnt > 0 && !Enabled(s, Evict(b))
    ensures b !in s.dirty ==> s.cache[b].data == At(a.view, b)
    ensures s.phase != Idle ==> b !in s.dirty
  {
    ReachedInv(lay, disk, nproc, es, s, a);
    assert LineOk(s, b);
    if s.phase != Idle {
      NothingDirty(s);
    }
  }

  /** Crash atomicity over every run: whenever the machine stops, and however often the recovery
      is itself cut off, a completed recovery leaves the contents as of the last header write that
      reached the disk. */
  lemma CrashAtomicity(lay: Layout, disk: Disk, nproc: nat, es: seq<Event>, s: State, a: Abs, cuts: seq<nat>)
    requires Reached(lay, disk, nproc, es, s, a)
    ensures SameHome(s.lay, Recover(s.lay, Interrupted(s.lay, s.disk, cuts)), a.durable)
  {
    ReachedInv(lay, disk, nproc, es, s, a);
    CrashSafe(s, a);
    RecoversToAlways(s.lay, s.disk, a.durable, cuts);
  }

  /** Log space: what is recorded plus what the active operations may still record fits LOGSIZE in
      every interleaving, and no operation is active while a commit or a recovery is running. */
  lemma LogSpace(lay: Layout, disk: Disk, nproc: nat, es: seq<Event>, s: State, a: Abs)
    requires Reached(lay, disk, nproc, es, s, a)
    ensures |s.lh| + Unspent(s.ops) <= LOGSIZE
    ensures s.phase != Idle ==> forall p | 0 <= p < |s.ops| :: s.ops[p] == None
  {
    ReachedInv(lay, disk, nproc, es, s, a);
    if s.phase != Idle {
      forall p | 0 <= p < |s.ops| ensures s.ops[p] == None {
        if s.ops[p].Some? {
          NoneActive(s.ops, p);
        }
      }
    }
  }

  /** end_op commits: in every run, whenever no operation is active and no commit or recovery is
      running, everything the operations have logged would survive a crash. */
  lemma CommittedWhenIdle(lay: Layout, disk: Disk, nproc: nat, es: seq<Event>, s: State, a: Abs)
    requires Reached(lay, disk, nproc, es, s, a) && s.phase.Idle? && s.outstanding == 0
    ensures s.lh == [] && SameHome(s.lay, a.view, a.durable)
  {
    ReachedInv(lay, disk, nproc, es, s, a);
    hide Head, HeadFits;
    forall b | 0 <= b < |a.view| && !s.lay.InLog(b) ensures a.view[b] == a.durable[b] {
      assert s.Home(b) && b !in s.Pending();
    }
  }
}
