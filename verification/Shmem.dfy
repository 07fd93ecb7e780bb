/** The shared pages of kernel/proc.c as a state machine over all processes, for one page.  Every
    shmem function touches only the page it is given, and the loops of fork and exit treat each
    page on its own, so a run of the kernel is, page by page, a run of this machine (ShmemTable
    makes that connection).  A step that would panic is not enabled.  Each counter update is taken
    as atomic. */
module Shmem {
  import opened Common

  const SHMEM: nat := 4
  /** Number of ints in a page. */
  const INTS: nat := 1024

  datatype PageState = NotSet | Unwritable | Writable

  datatype Page = Page(users: int, state: PageState, topPid: int, data: seq<int>)

  /** Where a process is in shmem_write_int or shmem_read_int, whose checks and access are made
      under different locks. */
  datatype Call =
    | Outside
    | WriteChecked(index: nat, value: int)   // state seen WRITABLE
    | WriteReady(index: nat, value: int)     // access seen as well
    | ReadChecked(index: nat)                // state seen other than NOT_SET
    | ReadReady(index: nat)                  // access seen as well

  /** `called` records whether the process has called exec since it was forked, and `loaded`
      whether its image comes from exec (neither exists in the kernel); a process that has left its
      exit loop over the pages is Gone. */
  datatype Proc = Gone | Live(pid: int, top: int, access: bool, call: Call, called: bool, loaded: bool)

  /** `writer` records which exec group last wrote each int since the page was cleared. */
  datatype State = State(page: Page, procs: seq<Proc>, nextPid: int, writer: seq<Option<int>>)
  {
    predicate Holder(p: nat) { p < |procs| && procs[p].Live? && procs[p].access }

    predicate Free(p: nat) { p < |procs| && procs[p].Live? && procs[p].call == Outside }
  }

  datatype Event =
    | SetWritable(p: nat)
    | SetUnwritable(p: nat)
    | SetInit(p: nat, index: nat, value: int)
    | WriteCheckState(p: nat, index: nat, value: int)
    | WriteCheckAccess(p: nat)
    | WriteStore(p: nat)
    | ReadCheckState(p: nat, index: nat)
    | ReadCheckAccess(p: nat)
    | ReadLoad(p: nat, value: int)
    | Acquire(p: nat)
    | AcquireFails(p: nat)
    | Release(p: nat)
    | Fork(p: nat, child: nat)
    | Exit(p: nat)
    | Exec(p: nat)
    | ExecFails(p: nat)   // returns -1, after top_pid has been set

  predicate SetAllowed(s: State, p: nat)
  {
    && s.Free(p) && s.page.state == NotSet
    && (s.page.topPid == -1 || s.page.topPid == s.procs[p].top)
  }

  predicate Enabled(s: State, e: Event)
  {
    match e
    case SetWritable(p) => SetAllowed(s, p)
    case SetUnwritable(p) => SetAllowed(s, p)
    case SetInit(p, i, v) => SetAllowed(s, p) && i < INTS
    case WriteCheckState(p, i, v) => s.Free(p) && s.page.state == Writable && i < INTS
    case WriteCheckAccess(p) => s.Holder(p) && s.procs[p].call.WriteChecked?
    case WriteStore(p) => p < |s.procs| && s.procs[p].Live? && s.procs[p].call.WriteReady?
    case ReadCheckState(p, i) => s.Free(p) && s.page.state != NotSet && i < INTS
    case ReadCheckAccess(p) => s.Holder(p) && s.procs[p].call.ReadChecked?
    case ReadLoad(p, v) =>
      && p < |s.procs| && s.procs[p].Live? && s.procs[p].call.ReadReady?
      && s.page.state != NotSet
      && s.procs[p].call.index < |s.page.data| && v == s.page.data[s.procs[p].call.index]
    case Acquire(p) =>
      && s.Free(p) && s.page.state != NotSet && !s.procs[p].access
      && s.procs[p].top == s.page.topPid
    case AcquireFails(p) => s.Free(p) && s.page.state == NotSet
    case Release(p) => s.Free(p) && s.page.state != NotSet && s.page.users > 0 && s.procs[p].access
    case Fork(p, q) => s.Free(p) && q < |s.procs| && s.procs[q] == Gone
    case Exit(p) => s.Free(p)
    case Exec(p) => s.Free(p)
    case ExecFails(p) => s.Free(p)
  }

  function Zeros(): seq<int> { seq(INTS, _ => 0) }

  function Nobody(): seq<Option<int>> { seq(INTS, _ => None) }

  /** The page handed back: contents cleared, no owner. */
  function Cleared(): Page
  {
    Page(0, NotSet, -1, Zeros())
  }

  function SetProc(s: State, p: nat, q: Proc): State
    requires p < |s.procs|
  {
    s.(procs := s.procs[p := q])
  }

  /** shmem_set_writable and shmem_set_unwritable. */
  function Opened(s: State, p: nat, st: PageState): State
    requires p < |s.procs| && s.procs[p].Live?
  {
    SetProc(s, p, s.procs[p].(access := true))
    .(page := s.page.(topPid := if s.page.topPid == -1 then s.procs[p].top else s.page.topPid,
                      users := s.page.users + 1, state := st))
  }

  function Stored(s: State, p: nat, i: nat, v: int): State
    requires p < |s.procs| && s.procs[p].Live?
  {
    if i < |s.page.data| && i < |s.writer| then
      s.(page := s.page.(data := s.page.data[i := v]), writer := s.writer[i := Some(s.procs[p].top)])
    else s
  }

  /** exit's treatment of the page. */
  function Left(s: State, p: nat): State
    requires p < |s.procs| && s.procs[p].Live?
  {
    var users := if s.procs[p].access then s.page.users - 1 else s.page.users;
    var t := SetProc(s, p, Gone);
    if users == 0 && s.page.topPid == s.procs[p].top then t.(page := Cleared(), writer := Nobody())
    else t.(page := s.page.(users := users))
  }

  /** shmem_release_access by a process that has access. */
  function Released(s: State, p: nat): State
    requires p < |s.procs| && s.procs[p].Live?
  {
    var t := SetProc(s, p, s.procs[p].(access := false));
    if s.page.users == 1 then t.(page := Cleared(), writer := Nobody())
    else t.(page := s.page.(users := s.page.users - 1))
  }

  function SetCall(s: State, p: nat, c: Call): State
    requires p < |s.procs| && s.procs[p].Live?
  {
    SetProc(s, p, s.procs[p].(call := c))
  }

  function Apply(s: State, e: Event): State
    requires Enabled(s, e)
  {
    match e
    case SetWritable(p) => Opened(s, p, Writable)
    case SetUnwritable(p) => Opened(s, p, Unwritable)
    case SetInit(p, i, v) => Stored(s.(page := s.page.(topPid := s.procs[p].top)), p, i, v)
    case WriteCheckState(p, i, v) => SetCall(s, p, WriteChecked(i, v))
    case WriteCheckAccess(p) => SetCall(s, p, WriteReady(s.procs[p].call.index, s.procs[p].call.value))
    case WriteStore(p) => SetCall(Stored(s, p, s.procs[p].call.index, s.procs[p].call.value), p, Outside)
    case ReadCheckState(p, i) => SetCall(s, p, ReadChecked(i))
    case ReadCheckAccess(p) => SetCall(s, p, ReadReady(s.procs[p].call.index))
    case ReadLoad(p, v) => SetCall(s, p, Outside)
    case Acquire(p) =>
      SetProc(s, p, s.procs[p].(access := true)).(page := s.page.(users := s.page.users + 1))
    case AcquireFails(p) => s
    case Release(p) => Released(s, p)
    case Fork(p, q) =>
      var child := Live(s.nextPid, s.procs[p].top, s.procs[p].access, Outside, false, false);
      SetProc(s, q, child)
      .(nextPid := s.nextPid + 1,
        page := s.page.(users := s.page.users + if s.procs[p].access then 1 else 0))
    case Exit(p) => Left(s, p)
    case Exec(p) => SetProc(s, p, s.procs[p].(top := s.procs[p].pid, called := true, loaded := true))
    case ExecFails(p) => SetProc(s, p, s.procs[p].(top := s.procs[p].pid, called := true))
  }

  /** Boot: the page holds whatever kalloc left in it (`junk`), and the first process has not run
      exec yet, so its top_pid is still 0. */
  function Init(nproc: nat, junk: seq<int>): State
  {
    var procs := seq(nproc, i => if i == 0 then Live(1, 0, false, Outside, false, false) else Gone);
    State(Page(0, NotSet, -1, junk), procs, 2, Nobody())
  }

  predicate Runs(s: State, es: seq<Event>)
    decreases |es|
  {
    es == [] || (Enabled(s, es[0]) && Runs(Apply(s, es[0]), es[1..]))
  }

  function Run(s: State, es: seq<Event>): State
    requires Runs(s, es)
    decreases |es|
  {
    if es == [] then s else Run(Apply(s, es[0]), es[1..])
  }

  // ---------------------------------------------------------------------------
  // Accounting
  // ---------------------------------------------------------------------------

  predicate Holds(q: Proc) { q.Live? && q.access }

  /** The number of live processes with access. */
  function Holders(procs: seq<Proc>): nat
  {
    if procs == [] then 0 else Holders(procs[..|procs| - 1]) + if Holds(procs[|procs| - 1]) then 1 else 0
  }

  lemma {:induction false} HoldersUpdate(procs: seq<Proc>, p: nat, q: Proc)
    requires p < |procs|
    ensures Holders(procs[p := q]) + (if Holds(procs[p]) then 1 else 0) == Holders(procs) + if Holds(q) then 1 else 0
  {
    var n := |procs| - 1;
    if p < n {
      HoldersUpdate(procs[..n], p, q);
      assert procs[p := q][..n] == procs[..n][p := q];
    } else {
      assert procs[p := q][..n] == procs[..n];
    }
  }

  lemma {:induction false} HolderCounted(procs: seq<Proc>, p: nat)
    requires p < |procs| && Holds(procs[p])
    ensures Holders(procs) > 0
  {
    if p < |procs| - 1 {
      HolderCounted(procs[..|procs| - 1], p);
    }
  }

  lemma {:induction false} NoHolders(procs: seq<Proc>)
    requires forall p | 0 <= p < |procs| :: !Holds(procs[p])
    ensures Holders(procs) == 0
  {
    if procs != [] {
      NoHolders(procs[..|procs| - 1]);
    }
  }

  /** numberofusers is exact, and an unset page has no holder. */
  predicate Counted(s: State)
  {
    && s.page.users == Holders(s.procs)
    && (s.page.state == NotSet ==> s.page.users == 0)
  }

  /** The process an event is about: the child of a fork, the caller of anything else. */
  function Who(e: Event): nat { if e.Fork? then e.child else e.p }

  lemma OneChanges(s: State, e: Event)
    requires Enabled(s, e)
    ensures var t := Apply(s, e);
            && Who(e) < |s.procs| == |t.procs|
            && t.procs == s.procs[Who(e) := t.procs[Who(e)]] && s.nextPid <= t.nextPid
  {
  }

  /** What counting needs to know about a step: the counter moves with the holder. */
  predicate CountMoves(s: State, t: State, was: Proc, now: Proc)
  {
    t.page.users - (if Holds(now) then 1 else 0) == s.page.users - (if Holds(was) then 1 else 0)
  }

  lemma EnterCounts(s: State, e: Event)
    requires Counted(s) && Enabled(s, e) && (e.SetWritable? || e.SetUnwritable? || e.Acquire? || e.Fork?)
    requires !Holds(s.procs[Who(e)])
    ensures var t := Apply(s, e);
            && CountMoves(s, t, s.procs[Who(e)], t.procs[Who(e)])
            && (t.page.state == NotSet ==> s.page.state == NotSet && t.page.users == s.page.users)
  {
    if e.Fork? && s.procs[e.p].access {
      HolderCounted(s.procs, e.p);
    }
  }

  lemma LeaveCounts(s: State, e: Event)
    requires Counted(s) && Enabled(s, e) && (e.Release? || e.Exit?)
    ensures var t := Apply(s, e);
            && CountMoves(s, t, s.procs[Who(e)], t.procs[Who(e)])
            && (t.page.state == NotSet ==> t.page.users == 0)
  {
    if Holds(s.procs[e.p]) {
      HolderCounted(s.procs, e.p);
    }
  }

  lemma RestCounts(s: State, e: Event)
    requires Enabled(s, e) && !e.SetWritable? && !e.SetUnwritable? && !e.Acquire? && !e.Fork? && !e.Release? && !e.Exit?
    ensures var t := Apply(s, e);
            && CountMoves(s, t, s.procs[Who(e)], t.procs[Who(e)])
            && t.page.state == s.page.state && t.page.users == s.page.users
  {
  }

  lemma CountedStep(s: State, e: Event)
    requires Counted(s) && Enabled(s, e)
    ensures Counted(Apply(s, e))
  {
    OneChanges(s, e);
    var t, w := Apply(s, e), Who(e);
    HoldersUpdate(s.procs, w, t.procs[w]);
    if e.SetWritable? || e.SetUnwritable? || e.Acquire? || e.Fork? {
      assert !Holds(s.procs[w]) by {
        if Holds(s.procs[w]) {
          HolderCounted(s.procs, w);
        }
      }
      EnterCounts(s, e);
    } else if e.Release? || e.Exit? {
      LeaveCounts(s, e);
    } else {
      RestCounts(s, e);
    }
  }

  /** top_pid is the process's own pid exactly if it has called exec, whatever exec returned. */
  predicate TopOk(q: Proc, nextPid: int)
  {
    q.Live? ==>
      && 0 <= q.top < nextPid && 0 <= q.pid < nextPid
      && (q.called <==> q.top == q.pid) && (q.loaded ==> q.called)
  }

  predicate TopsOk(s: State)
  {
    0 < s.nextPid && forall p | 0 <= p < |s.procs| :: TopOk(s.procs[p], s.nextPid)
  }

  /** Both checks of a write or read in progress still hold at the access. */
  predicate CallOk(s: State, q: Proc)
  {
    q.Live? ==>
      match q.call
      case Outside => true
      case WriteChecked(i, v) => i < INTS && (q.access ==> s.page.state == Writable)
      case WriteReady(i, v) => i < INTS && q.access && s.page.state == Writable
      case ReadChecked(i) => i < INTS && (q.access ==> s.page.state != NotSet)
      case ReadReady(i) => i < INTS && q.access && s.page.state != NotSet
  }

  predicate CallsOk(s: State)
  {
    && |s.page.data| == |s.writer| == INTS
    && forall p | 0 <= p < |s.procs| :: CallOk(s, s.procs[p])
  }

  predicate Inv(s: State)
  {
    Counted(s) && TopsOk(s) && CallsOk(s)
  }

  lemma TopStep(s: State, e: Event)
    requires TopsOk(s) && Enabled(s, e)
    ensures var t := Apply(s, e); 0 < t.nextPid && Who(e) < |t.procs| && TopOk(t.procs[Who(e)], t.nextPid)
  {
    assert TopOk(s.procs[e.p], s.nextPid);
  }

  lemma TopsStep(s: State, e: Event)
    requires TopsOk(s) && Enabled(s, e)
    ensures TopsOk(Apply(s, e))
  {
    OneChanges(s, e);
    TopStep(s, e);
    var t := Apply(s, e);
    hide Apply, Enabled;
    forall p | 0 <= p < |t.procs| ensures TopOk(t.procs[p], t.nextPid) {
      if p != Who(e) {
        assert TopOk(s.procs[p], s.nextPid);
      }
    }
  }

  /** A page that stops being set has no holder left, so nobody is in the middle of an access. */
  lemma CallsClear(s: State, t: State, p: nat)
    requires CallsOk(s) && p < |s.procs| == |t.procs| && CallOk(t, t.procs[p])
    requires forall r | 0 <= r < |s.procs| && r != p :: t.procs[r] == s.procs[r] && !Holds(s.procs[r])
    requires |t.page.data| == |t.writer| == INTS
    ensures CallsOk(t)
  {
    forall r | 0 <= r < |t.procs| ensures CallOk(t, t.procs[r]) {
      assert CallOk(s, s.procs[r]);
    }
  }

  /** If `p` is the only counted holder, nobody else holds the page. */
  lemma OnlyHolder(s: State, p: nat, r: nat)
    requires p < |s.procs| && Holds(s.procs[p]) && Holders(s.procs) == 1
    requires r < |s.procs| && r != p
    ensures !Holds(s.procs[r])
  {
    HoldersUpdate(s.procs, p, Gone);
    if Holds(s.procs[r]) {
      HolderCounted(s.procs[p := Gone], r);
    }
  }

  lemma CallsSame(s: State, t: State, p: nat)
    requires CallsOk(s) && p < |s.procs| == |t.procs| && CallOk(t, t.procs[p])
    requires t.page.state == s.page.state || forall r | 0 <= r < |s.procs| :: !Holds(s.procs[r])
    requires forall r | 0 <= r < |s.procs| && r != p :: t.procs[r] == s.procs[r]
    requires |t.page.data| == |t.writer| == INTS
    ensures CallsOk(t)
  {
    forall r | 0 <= r < |t.procs| ensures CallOk(t, t.procs[r]) {
      assert CallOk(s, s.procs[r]);
    }
  }

  lemma NobodyHolds(s: State)
    requires Counted(s) && s.page.users == 0
    ensures forall r | 0 <= r < |s.procs| :: !Holds(s.procs[r])
  {
    forall r | 0 <= r < |s.procs| ensures !Holds(s.procs[r]) {
      if Holds(s.procs[r]) {
        HolderCounted(s.procs, r);
      }
    }
  }

  lemma CallsLeave(s: State, e: Event)
    requires Counted(s) && CallsOk(s) && Enabled(s, e) && (e.Release? || e.Exit?)
    ensures CallsOk(Apply(s, e))
  {
    if s.page.users == 0 {
      NobodyHolds(s);
    }
    if Holds(s.procs[e.p]) && s.page.users == 1 {
      forall r | 0 <= r < |s.procs| && r != e.p ensures !Holds(s.procs[r]) {
        OnlyHolder(s, e.p, r);
      }
      CallsClear(s, Apply(s, e), e.p);
    } else {
      CallsSame(s, Apply(s, e), e.p);
    }
  }

  /** A step other than a release or an exit changes the state of the page only if nobody holds it. */
  lemma CallStep(s: State, e: Event)
    requires Counted(s) && CallsOk(s) && Enabled(s, e) && !e.Release? && !e.Exit?
    ensures var t := Apply(s, e);
            && Who(e) < |t.procs| && CallOk(t, t.procs[Who(e)]) && |t.page.data| == |t.writer| == INTS
            && (t.page.state != s.page.state ==> s.page.users == 0)
  {
    assert CallOk(s, s.procs[e.p]);
    if e.SetWritable? || e.SetUnwritable? {
      NobodyHolds(s);
    }
  }

  lemma CallsStep(s: State, e: Event)
    requires Counted(s) && CallsOk(s) && Enabled(s, e)
    ensures CallsOk(Apply(s, e))
  {
    if e.Release? || e.Exit? {
      CallsLeave(s, e);
    } else {
      OneChanges(s, e);
      CallStep(s, e);
      hide Apply, Enabled, CallOk;
      if s.page.users == 0 {
        NobodyHolds(s);
      }
      CallsSame(s, Apply(s, e), Who(e));
    }
  }

  lemma InvStep(s: State, e: Event)
    requires Inv(s) && Enabled(s, e)
    ensures Inv(Apply(s, e))
  {
    CountedStep(s, e);
    TopsStep(s, e);
    CallsStep(s, e);
  }

  lemma {:induction false} RunInv(s: State, es: seq<Event>)
    requires Inv(s) && Runs(s, es)
    ensures Inv(Run(s, es))
    decreases |es|
  {
    if es != [] {
      InvStep(s, es[0]);
      RunInv(Apply(s, es[0]), es[1..]);
    }
  }

  lemma InitInv(nproc: nat, junk: seq<int>)
    requires |junk| == INTS
    ensures Inv(Init(nproc, junk))
  {
    NoHolders(Init(nproc, junk).procs);
  }

  /** Shared-page accounting in every run, whatever execs: the counter equals the number of live
      processes with access, and an unset page has none. */
  lemma UsersExact(nproc: nat, junk: seq<int>, es: seq<Event>)
    requires |junk| == INTS && Runs(Init(nproc, junk), es)
    ensures var s := Run(Init(nproc, junk), es);
            && s.page.users == Holders(s.procs)
            && (s.page.state == NotSet ==> forall p | 0 <= p < |s.procs| :: !Holds(s.procs[p]))
  {
    InitInv(nproc, junk);
    RunInv(Init(nproc, junk), es);
    var s := Run(Init(nproc, junk), es);
    if s.page.state == NotSet {
      NobodyHolds(s);
    }
  }

  /** The unlocked checks of shmem_write_int and shmem_read_int are still true when the access is
      made, in every interleaving: the caller is itself a holder, so the page cannot be cleared or
      reopened under it. */
  lemma ChecksStayTrue(nproc: nat, junk: seq<int>, es: seq<Event>, p: nat)
    requires |junk| == INTS && Runs(Init(nproc, junk), es)
    requires var s := Run(Init(nproc, junk), es); p < |s.procs| && s.procs[p].Live?
    ensures var s := Run(Init(nproc, junk), es);
            && (s.procs[p].call.WriteReady? ==> s.page.state == Writable && s.Holder(p))
            && (s.procs[p].call.ReadReady? ==> s.page.state != NotSet && s.Holder(p))
  {
    InitInv(nproc, junk);
    RunInv(Init(nproc, junk), es);
    var s := Run(Init(nproc, junk), es);
    assert CallOk(s, s.procs[p]);
  }

  /** is_top_parent_process: true exactly for a process that has called exec since it was forked.
      Every image loaded by exec is such a process. */
  lemma TopParentIsExec(nproc: nat, junk: seq<int>, es: seq<Event>, p: nat)
    requires |junk| == INTS && Runs(Init(nproc, junk), es)
    requires var s := Run(Init(nproc, junk), es); p < |s.procs| && s.procs[p].Live?
    ensures var s := Run(Init(nproc, junk), es);
            && (s.procs[p].top == s.procs[p].pid <==> s.procs[p].called)
            && (s.procs[p].loaded ==> s.procs[p].top == s.procs[p].pid)
  {
    InitInv(nproc, junk);
    RunInv(Init(nproc, junk), es);
    var s := Run(Init(nproc, junk), es);
    assert TopOk(s.procs[p], s.nextPid);
  }

  /** It does not tell images loaded by exec from images made by fork: top_pid is set before exec
      can fail. */
  lemma FailedExecLooksTop(junk: seq<int>)
    requires |junk| == INTS
    ensures var es := [Fork(0, 1), ExecFails(1)];
            && Runs(Init(2, junk), es)
            && var q := Run(Init(2, junk), es).procs[1];
               q.Live? && q.top == q.pid && !q.loaded
  {
    var s := Init(2, junk);
    var t := Apply(s, Fork(0, 1));
    assert [Fork(0, 1), ExecFails(1)][1..] == [ExecFails(1)] && [ExecFails(1)][1..] == [];
    assert Runs(Apply(t, ExecFails(1)), []);
    assert Runs(t, [ExecFails(1)]);
  }

  // ---------------------------------------------------------------------------
  // Contents
  // ---------------------------------------------------------------------------

  /** The page is UNWRITABLE before, during and after the run. */
  predicate StaysUnwritable(s: State, es: seq<Event>)
    requires Runs(s, es)
    decreases |es|
  {
    s.page.state == Unwritable && (es != [] ==> StaysUnwritable(Apply(s, es[0]), es[1..]))
  }

  lemma UnwritableStep(s: State, e: Event)
    requires CallsOk(s) && Enabled(s, e)
    requires s.page.state == Unwritable && Apply(s, e).page.state == Unwritable
    ensures Apply(s, e).page.data == s.page.data
  {
    assert 0 <= e.p < |s.procs| ==> CallOk(s, s.procs[e.p]);
  }

  lemma {:induction false} UnwritableFrom(s: State, es: seq<Event>)
    requires Inv(s) && Runs(s, es) && StaysUnwritable(s, es)
    ensures Run(s, es).page.data == s.page.data
    decreases |es|
  {
    if es != [] {
      InvStep(s, es[0]);
      UnwritableStep(s, es[0]);
      UnwritableFrom(Apply(s, es[0]), es[1..]);
    }
  }

  /** An UNWRITABLE page keeps its contents from the moment it is set until it is given back, in
      every run. */
  lemma UnwritableIsConstant(nproc: nat, junk: seq<int>, before: seq<Event>, during: seq<Event>)
    requires |junk| == INTS && Runs(Init(nproc, junk), before)
    requires Runs(Run(Init(nproc, junk), before), during)
    requires StaysUnwritable(Run(Init(nproc, junk), before), during)
    ensures Run(Run(Init(nproc, junk), before), during).page.data == Run(Init(nproc, junk), before).page.data
  {
    InitInv(nproc, junk);
    RunInv(Init(nproc, junk), before);
    UnwritableFrom(Run(Init(nproc, junk), before), during);
  }

  /** The page goes back: its last holder releases it, or the last of its group leaves it unused. */
  predicate GivesBack(s: State, e: Event)
    requires Enabled(s, e)
  {
    || (e.Release? && s.page.users == 1)
    || (e.Exit? && s.procs[e.p].top == s.page.topPid && s.page.users == if s.procs[e.p].access then 1 else 0)
  }

  /** The step gives process `r` access: it opens or acquires the page, or is forked by a holder. */
  predicate Grants(s: State, e: Event, r: nat)
    requires Enabled(s, e)
  {
    || ((e.SetWritable? || e.SetUnwritable? || e.Acquire?) && e.p == r)
    || (e.Fork? && e.child == r && Holds(s.procs[e.p]))
  }

  /** Who has access after a step: those it grants access to, and those who had it and neither release
      it nor exit. */
  lemma AccessLaw(s: State, e: Event, r: nat)
    requires Enabled(s, e) && r < |s.procs|
    ensures r < |Apply(s, e).procs|
    ensures Holds(Apply(s, e).procs[r])
            <==> Grants(s, e, r) || (Holds(s.procs[r]) && !((e.Release? || e.Exit?) && e.p == r))
  {
    OneChanges(s, e);
  }

  /** How a page is opened and who owns it then: as the call says, by the caller's group unless a
      set_init of the same group came first; and unset, without an owner, once it is given back. */
  lemma StateLaw(s: State, e: Event)
    requires Enabled(s, e)
    ensures var t := Apply(s, e);
            && (e.SetWritable? ==> t.page.state == Writable) && (e.SetUnwritable? ==> t.page.state == Unwritable)
            && (GivesBack(s, e) ==> t.page.state == NotSet && t.page.topPid == -1)
            && (!e.SetWritable? && !e.SetUnwritable? && !GivesBack(s, e) ==> t.page.state == s.page.state)
            && (e.SetWritable? || e.SetUnwritable? || e.SetInit? ==> t.page.topPid == s.procs[e.p].top)
            && (!e.SetWritable? && !e.SetUnwritable? && !e.SetInit? && !GivesBack(s, e) ==>
                  t.page.topPid == s.page.topPid)
  {
  }

  /** How a page is open, and for which exec group. */
  datatype Use = Use(state: PageState, top: int)

  function Reopened(s: State, e: Event, o: Use): Use
    requires Enabled(s, e)
  {
    if GivesBack(s, e) then Use(NotSet, -1)
    else if e.SetWritable? then Use(Writable, s.procs[e.p].top)
    else if e.SetUnwritable? then Use(Unwritable, s.procs[e.p].top)
    else if e.SetInit? then o.(top := s.procs[e.p].top)
    else o
  }

  function LastOpened(s: State, es: seq<Event>, o: Use): Use
    requires Runs(s, es)
    decreases |es|
  {
    if es == [] then o else LastOpened(Apply(s, es[0]), es[1..], Reopened(s, es[0], o))
  }

  lemma {:induction false} LastOpenedFrom(s: State, es: seq<Event>)
    requires Runs(s, es)
    ensures var t := Run(s, es); Use(t.page.state, t.page.topPid) == LastOpened(s, es, Use(s.page.state, s.page.topPid))
    decreases |es|
  {
    hide Enabled, Apply, GivesBack;
    if es != [] {
      StateLaw(s, es[0]);
      LastOpenedFrom(Apply(s, es[0]), es[1..]);
    }
  }

  /** In every run a page is open as the last call that set it says, for the exec group of the last call
      that set or initialised it, and NOT_SET without an owner if it was given back since. */
  lemma OpenedLaw(nproc: nat, junk: seq<int>, es: seq<Event>)
    requires Runs(Init(nproc, junk), es)
    ensures var t := Run(Init(nproc, junk), es);
            Use(t.page.state, t.page.topPid) == LastOpened(Init(nproc, junk), es, Use(NotSet, -1))
  {
    LastOpenedFrom(Init(nproc, junk), es);
  }

  /** Element `i` after a step, if it was `v` before: what the step stores there, zero if the page is
      given back. */
  function Kept(s: State, e: Event, i: nat, v: int): int
    requires Enabled(s, e)
  {
    if GivesBack(s, e) then 0
    else if e.SetInit? && e.index == i then e.value
    else if e.WriteStore? && s.procs[e.p].call.index == i then s.procs[e.p].call.value
    else v
  }

  /** Element `i` after a run, if it was `v` before. */
  function LastStored(s: State, es: seq<Event>, i: nat, v: int): int
    requires Runs(s, es)
    decreases |es|
  {
    if es == [] then v else LastStored(Apply(s, es[0]), es[1..], i, Kept(s, es[0], i, v))
  }

  lemma KeptStep(s: State, e: Event, i: nat)
    requires CallsOk(s) && Enabled(s, e) && i < INTS
    ensures |Apply(s, e).page.data| == INTS && Apply(s, e).page.data[i] == Kept(s, e, i, s.page.data[i])
  {
    assert CallOk(s, s.procs[e.p]);
  }

  lemma {:induction false} LastStoredFrom(s: State, es: seq<Event>, i: nat)
    requires Inv(s) && Runs(s, es) && i < INTS
    ensures |Run(s, es).page.data| == INTS && Run(s, es).page.data[i] == LastStored(s, es, i, s.page.data[i])
    decreases |es|
  {
    if es != [] {
      InvStep(s, es[0]);
      KeptStep(s, es[0], i);
      LastStoredFrom(Apply(s, es[0]), es[1..], i);
    }
  }

  /** The contents in every run: each element is the last value stored there since the page was given
      back, zero if there is none since then, and what was there at boot if it never was given back. */
  lemma MemoryLaw(nproc: nat, junk: seq<int>, es: seq<Event>, i: nat)
    requires |junk| == INTS && Runs(Init(nproc, junk), es) && i < INTS
    ensures var data := Run(Init(nproc, junk), es).page.data;
            |data| == INTS && data[i] == LastStored(Init(nproc, junk), es, i, junk[i])
  {
    InitInv(nproc, junk);
    LastStoredFrom(Init(nproc, junk), es, i);
  }

  /** The page is not given back on the way. */
  predicate StaysOpen(s: State, es: seq<Event>)
    requires Runs(s, es)
    decreases |es|
  {
    es != [] ==> !GivesBack(s, es[0]) && StaysOpen(Apply(s, es[0]), es[1..])
  }

  lemma {:induction false} OpenFrom(s: State, es: seq<Event>)
    requires Runs(s, es) && StaysOpen(s, es) && s.page.state != NotSet
    ensures Run(s, es).page.state == s.page.state
    decreases |es|
  {
    if es != [] {
      StateLaw(s, es[0]);
      OpenFrom(Apply(s, es[0]), es[1..]);
    }
  }

  /** No write gets past its check, and none is in progress. */
  ghost predicate RefusesWrites(s: State)
  {
    && (forall q: nat, i: nat, v: int :: !Enabled(s, WriteCheckState(q, i, v)))
    && (forall q: nat :: !Enabled(s, WriteStore(q)))
  }

  lemma Refuses(s: State)
    requires CallsOk(s) && s.page.state == Unwritable
    ensures RefusesWrites(s)
  {
    forall q: nat ensures !Enabled(s, WriteStore(q)) {
      assert q < |s.procs| ==> CallOk(s, s.procs[q]);
    }
  }

  /** After shmem_set_unwritable no write gets past its check, and none is in progress, until the page
      is given back. */
  lemma UnwritableRefuses(nproc: nat, junk: seq<int>, before: seq<Event>, p: nat, during: seq<Event>)
    requires |junk| == INTS && Runs(Init(nproc, junk), before)
    requires Enabled(Run(Init(nproc, junk), before), SetUnwritable(p))
    requires var s := Apply(Run(Init(nproc, junk), before), SetUnwritable(p)); Runs(s, during) && StaysOpen(s, during)
    ensures var s := Run(Apply(Run(Init(nproc, junk), before), SetUnwritable(p)), during);
            s.page.state == Unwritable && RefusesWrites(s)
  {
    hide RefusesWrites;
    var s0 := Run(Init(nproc, junk), before);
    var s1 := Apply(s0, SetUnwritable(p));
    InitInv(nproc, junk);
    RunInv(Init(nproc, junk), before);
    InvStep(s0, SetUnwritable(p));
    StateLaw(s0, SetUnwritable(p));
    RunInv(s1, during);
    OpenFrom(s1, during);
    Refuses(Run(s1, during));
  }

  /** A holder of a WRITABLE page can write any element and then reads what it wrote. */
  lemma WriteThenRead(nproc: nat, junk: seq<int>, es: seq<Event>, p: nat, i: nat, v: int)
    requires |junk| == INTS && Runs(Init(nproc, junk), es) && i < INTS
    requires var s := Run(Init(nproc, junk), es); s.Free(p) && s.Holder(p) && s.page.state == Writable
    ensures var s := Run(Init(nproc, junk), es);
            var write := [WriteCheckState(p, i, v), WriteCheckAccess(p), WriteStore(p)];
            && Runs(s, write)
            && var t := Run(s, write);
               var read := [ReadCheckState(p, i), ReadCheckAccess(p), ReadLoad(p, v)];
               Runs(t, read) && Run(t, read) == t
  {
    var s := Run(Init(nproc, junk), es);
    InitInv(nproc, junk);
    RunInv(Init(nproc, junk), es);
    RunThree(s, WriteCheckState(p, i, v), WriteCheckAccess(p), WriteStore(p));
    var t := WrittenAt(s, p, i, v);
    RunThree(t, ReadCheckState(p, i), ReadCheckAccess(p), ReadLoad(p, v));
    assert t.procs[p := t.procs[p]] == t.procs;
  }

  lemma WrittenAt(s: State, p: nat, i: nat, v: int) returns (t: State)
    requires s.Free(p) && s.Holder(p) && s.page.state == Writable && i < |s.page.data| == |s.writer| == INTS
    ensures var s1 := Apply(s, WriteCheckState(p, i, v));
            && Enabled(s1, WriteCheckAccess(p))
            && var s2 := Apply(s1, WriteCheckAccess(p)); Enabled(s2, WriteStore(p)) && t == Apply(s2, WriteStore(p))
    ensures t.procs == s.procs && t.page.state == Writable && |t.page.data| == INTS && t.page.data[i] == v
  {
    t := Apply(Apply(Apply(s, WriteCheckState(p, i, v)), WriteCheckAccess(p)), WriteStore(p));
    assert t.procs == s.procs;
  }

  /** Every holder belongs to the exec group recorded in the page. */
  predicate OneGroup(s: State)
  {
    forall p | 0 <= p < |s.procs| :: Holds(s.procs[p]) ==> s.procs[p].top == s.page.topPid
  }

  /** OneGroup in every state along the run, the first and the last included. */
  predicate OneGroupAlong(s: State, es: seq<Event>)
    requires Runs(s, es)
    decreases |es|
  {
    OneGroup(s) && (es != [] ==> OneGroupAlong(Apply(s, es[0]), es[1..]))
  }

  /** A process with access calls exec, successfully or not, only if it is itself the process that
      the page records as the top of its group. */
  predicate Calm(s: State, e: Event)
    requires Enabled(s, e)
  {
    (e.Exec? || e.ExecFails?) && s.procs[e.p].access ==> s.procs[e.p].pid == s.page.topPid
  }

  predicate CalmRun(s: State, es: seq<Event>)
    requires Runs(s, es)
    decreases |es|
  {
    es != [] ==> Calm(s, es[0]) && CalmRun(Apply(s, es[0]), es[1..])
  }

  /** The holders are one group, and a page without users is unset. */
  predicate GroupOk(s: State)
  {
    (s.page.users == 0 ==> s.page.state == NotSet) && OneGroup(s)
  }

  /** If the last holder leaves, the others do not matter for who owns the page. */
  lemma GroupLeave(s: State, e: Event)
    requires Counted(s) && GroupOk(s) && Enabled(s, e) && (e.Release? || e.Exit?)
    ensures GroupOk(Apply(s, e))
  {
    OneChanges(s, e);
    if s.page.users == 0 {
      NobodyHolds(s);
    } else if Holds(s.procs[e.p]) && s.page.users == 1 {
      forall r | 0 <= r < |s.procs| && r != e.p ensures !Holds(s.procs[r]) {
        OnlyHolder(s, e.p, r);
      }
    }
  }

  lemma GroupStep(s: State, e: Event)
    requires Counted(s) && GroupOk(s) && Enabled(s, e) && Calm(s, e)
    ensures GroupOk(Apply(s, e))
  {
    if e.Release? || e.Exit? {
      GroupLeave(s, e);
    } else {
      OneChanges(s, e);
      if s.page.users == 0 {
        NobodyHolds(s);
      }
    }
  }

  /** An exec that is not calm puts its caller outside the group at once. */
  lemma NotCalmBreaks(s: State, e: Event)
    requires Enabled(s, e) && !Calm(s, e)
    ensures !OneGroup(Apply(s, e))
  {
    var t := Apply(s, e);
    assert Holds(t.procs[e.p]) && t.procs[e.p].top != t.page.topPid;
  }

  lemma {:induction false} OneGroupFrom(s: State, es: seq<Event>)
    requires Inv(s) && GroupOk(s) && Runs(s, es)
    ensures OneGroupAlong(s, es) <==> CalmRun(s, es)
    ensures CalmRun(s, es) ==> GroupOk(Run(s, es))
    decreases |es|
  {
    if es != [] {
      var t := Apply(s, es[0]);
      InvStep(s, es[0]);
      if Calm(s, es[0]) {
        GroupStep(s, es[0]);
        OneGroupFrom(t, es[1..]);
      } else {
        NotCalmBreaks(s, es[0]);
      }
    }
  }

  /** The page belongs to one exec group at a time, in every state of a run, exactly if every exec
      in it by a process with access is by the process the page records.  In such a run a page
      without users is unset. */
  lemma OneGroupAtATime(nproc: nat, junk: seq<int>, es: seq<Event>)
    requires |junk| == INTS && Runs(Init(nproc, junk), es)
    ensures OneGroupAlong(Init(nproc, junk), es) <==> CalmRun(Init(nproc, junk), es)
    ensures var s := Run(Init(nproc, junk), es);
            CalmRun(Init(nproc, junk), es) ==> OneGroup(s) && (s.page.users == 0 ==> s.page.state == NotSet)
  {
    InitInv(nproc, junk);
    OneGroupFrom(Init(nproc, junk), es);
  }

  /** What has been written since the page was cleared was written by the group it records. */
  predicate OwnContents(s: State)
  {
    forall i | 0 <= i < |s.writer| :: s.writer[i].Some? ==> s.writer[i].value == s.page.topPid
  }

  predicate OwnContentsAlong(s: State, es: seq<Event>)
    requires Runs(s, es)
    decreases |es|
  {
    OwnContents(s) && (es != [] ==> OwnContentsAlong(Apply(s, es[0]), es[1..]))
  }

  /** A store is made by a process of the group that the page records. */
  predicate OwnStore(s: State, e: Event)
    requires Enabled(s, e)
  {
    e.WriteStore? ==> s.procs[e.p].top == s.page.topPid
  }

  predicate OwnStores(s: State, es: seq<Event>)
    requires Runs(s, es)
    decreases |es|
  {
    es != [] ==> OwnStore(s, es[0]) && OwnStores(Apply(s, es[0]), es[1..])
  }

  /** A page with an owner records it, and what nobody has written is zero or left from boot. */
  predicate Traced(s: State, junk: seq<int>)
  {
    && |junk| == |s.page.data| == |s.writer| == INTS
    && (s.page.topPid == -1 ==> s.page.state == NotSet && forall i | 0 <= i < INTS :: s.writer[i].None?)
    && forall i | 0 <= i < INTS :: s.writer[i].None? ==> s.page.data[i] == 0 || s.page.data[i] == junk[i]
  }

  lemma TracedStep(s: State, junk: seq<int>, e: Event)
    requires Inv(s) && Traced(s, junk) && Enabled(s, e)
    ensures Traced(Apply(s, e), junk)
  {
    assert TopOk(s.procs[e.p], s.nextPid) && CallOk(s, s.procs[e.p]);
  }

  lemma OwnStep(s: State, junk: seq<int>, e: Event)
    requires Traced(s, junk) && OwnContents(s) && CallsOk(s) && Enabled(s, e)
    ensures OwnContents(Apply(s, e)) <==> OwnStore(s, e)
  {
    assert CallOk(s, s.procs[e.p]);
    if e.WriteStore? {
      var t, i := Apply(s, e), s.procs[e.p].call.index;
      assert t.writer[i] == Some(s.procs[e.p].top) && t.page.topPid == s.page.topPid;
    }
  }

  lemma {:induction false} OwnContentsFrom(s: State, junk: seq<int>, es: seq<Event>)
    requires Inv(s) && Traced(s, junk) && OwnContents(s) && Runs(s, es)
    ensures OwnContentsAlong(s, es) <==> OwnStores(s, es)
    ensures OwnStores(s, es) ==> OwnContents(Run(s, es))
    decreases |es|
  {
    if es != [] {
      InvStep(s, es[0]);
      TracedStep(s, junk, es[0]);
      OwnStep(s, junk, es[0]);
      if OwnStore(s, es[0]) {
        OwnContentsFrom(Apply(s, es[0]), junk, es[1..]);
      }
    }
  }

  /** Which store lets one group's data reach another: the contents are the recorded group's in
      every state of a run exactly if no store in it is by a process of another group. */
  lemma ContentsOfOneGroup(nproc: nat, junk: seq<int>, es: seq<Event>)
    requires |junk| == INTS && Runs(Init(nproc, junk), es)
    ensures OwnContentsAlong(Init(nproc, junk), es) <==> OwnStores(Init(nproc, junk), es)
  {
    InitInv(nproc, junk);
    OwnContentsFrom(Init(nproc, junk), junk, es);
  }

  lemma {:induction false} RunTraced(s: State, junk: seq<int>, es: seq<Event>)
    requires Inv(s) && Traced(s, junk) && Runs(s, es)
    ensures Inv(Run(s, es)) && Traced(Run(s, es), junk)
    decreases |es|
  {
    if es != [] {
      InvStep(s, es[0]);
      TracedStep(s, junk, es[0]);
      RunTraced(Apply(s, es[0]), junk, es[1..]);
    }
  }

  /** What a load returns when every store was the recorded group's: the reader's own group's data
      exactly if the reader is still in that group, and otherwise zeros or (the pages are not
      cleared at boot) the boot contents. */
  lemma LoadOwnIff(nproc: nat, junk: seq<int>, es: seq<Event>, p: nat, v: int)
    requires |junk| == INTS && Runs(Init(nproc, junk), es) && OwnStores(Init(nproc, junk), es)
    requires Enabled(Run(Init(nproc, junk), es), ReadLoad(p, v))
    ensures var s := Run(Init(nproc, junk), es);
            var i := s.procs[p].call.index;
            && i < |s.writer| == |junk|
            && (s.writer[i].None? ==> v == 0 || v == junk[i])
            && (s.writer[i].Some? ==> (s.writer[i].value == s.procs[p].top <==> s.procs[p].top == s.page.topPid))
  {
    InitInv(nproc, junk);
    RunTraced(Init(nproc, junk), junk, es);
    OwnContentsFrom(Init(nproc, junk), junk, es);
  }

  /** A holder in a calm run stores only as a member of the recorded group. */
  lemma {:induction false} CalmStores(s: State, es: seq<Event>)
    requires Inv(s) && GroupOk(s) && Runs(s, es) && CalmRun(s, es)
    ensures OwnStores(s, es)
    decreases |es|
  {
    if es != [] {
      InvStep(s, es[0]);
      GroupStep(s, es[0]);
      if es[0].WriteStore? {
        assert CallOk(s, s.procs[es[0].p]);
      }
      CalmStores(Apply(s, es[0]), es[1..]);
    }
  }

  /** In a run in which the page belongs to one group at a time, a process reads only what its own
      exec group wrote since the page was last cleared, zeros, or the boot contents. */
  lemma NoLeakBetweenGroups(nproc: nat, junk: seq<int>, es: seq<Event>, p: nat, v: int)
    requires |junk| == INTS && Runs(Init(nproc, junk), es) && CalmRun(Init(nproc, junk), es)
    requires Enabled(Run(Init(nproc, junk), es), ReadLoad(p, v))
    ensures var s := Run(Init(nproc, junk), es);
            var i := s.procs[p].call.index;
            i < |s.writer| == |junk| && (s.writer[i] == Some(s.procs[p].top) || v == 0 || v == junk[i])
  {
    InitInv(nproc, junk);
    CalmStores(Init(nproc, junk), es);
    LoadOwnIff(nproc, junk, es, p, v);
    OneGroupFrom(Init(nproc, junk), es);
    ChecksStayTrue(nproc, junk, es, p);
  }

  /** When the last holder exits, the page is given back exactly if the holder's top_pid is still
      the one recorded in the page, that is, unless it has called exec since. */
  lemma LastExitClearsIff(nproc: nat, junk: seq<int>, es: seq<Event>, p: nat)
    requires |junk| == INTS && Runs(Init(nproc, junk), es)
    requires var s := Run(Init(nproc, junk), es); Enabled(s, Exit(p)) && s.Holder(p) && s.page.users == 1
    ensures var s := Run(Init(nproc, junk), es);
            Apply(s, Exit(p)).page.state == NotSet <==> s.procs[p].top == s.page.topPid
    ensures var s := Run(Init(nproc, junk), es);
            Apply(s, Exit(p)).page.state == NotSet ==> Apply(s, Exit(p)).page == Cleared()
  {
    UsersExact(nproc, junk, es);
  }

  /** Without the hypothesis on exec a page can be lost: a holder that execs and then exits leaves
      it set, with no users. */
  lemma ExecCanLosePage(junk: seq<int>)
    requires |junk| == INTS
    ensures var es := [SetWritable(0), Exec(0), Exit(0)];
            && Runs(Init(1, junk), es)
            && Run(Init(1, junk), es).page.users == 0 && Run(Init(1, junk), es).page.state == Writable
  {
    var s0 := Init(1, junk);
    var s1 := Apply(s0, SetWritable(0));
    var s2 := Apply(s1, Exec(0));
    var s3 := Apply(s2, Exit(0));
    RunThree(s0, SetWritable(0), Exec(0), Exit(0));
  }

  lemma RunThree(s: State, a: Event, b: Event, c: Event)
    requires Enabled(s, a) && Enabled(Apply(s, a), b) && Enabled(Apply(Apply(s, a), b), c)
    ensures Runs(s, [a, b, c]) && Run(s, [a, b, c]) == Apply(Apply(Apply(s, a), b), c)
  {
    hide Enabled, Apply;
    var s1, s2, s3 := Apply(s, a), Apply(Apply(s, a), b), Apply(Apply(Apply(s, a), b), c);
    assert [c][1..] == [] && Runs(s3, []) && Run(s3, []) == s3;
    assert Runs(s2, [c]) && Run(s2, [c]) == s3;
    assert [b, c][1..] == [c];
    assert Runs(s1, [b, c]) && Run(s1, [b, c]) == s3;
    assert [a, b, c][1..] == [b, c];
  }

  lemma {:induction false} RunConcat(s: State, xs: seq<Event>, ys: seq<Event>)
    requires Runs(s, xs) && Runs(Run(s, xs), ys)
    ensures Runs(s, xs + ys) && Run(s, xs + ys) == Run(Run(s, xs), ys)
    decreases |xs|
  {
    hide Enabled, Apply;
    if xs == [] {
      assert xs + ys == ys;
    } else {
      RunConcat(Apply(s, xs[0]), xs[1..], ys);
      assert (xs + ys)[0] == xs[0] && (xs + ys)[1..] == xs[1..] + ys;
    }
  }

  /** Nor do groups stay apart: a child that inherited access and then called exec can still write,
      and its parent, in another exec group, reads the value. */
  lemma ExecCanLeak(junk: seq<int>) returns (es: seq<Event>)
    requires |junk| == INTS
    ensures Runs(Init(2, junk), es)
    ensures var s := Run(Init(2, junk), es);
            && Enabled(s, ReadLoad(0, 7)) && s.procs[0].call.index == 0
            && 0 < |s.writer| && s.writer[0] == Some(2) && s.procs[0].top == 0
  {
    var xs, s3 := LeakOpen(junk);
    var ys, s6 := LeakWrite(junk, s3);
    var zs, s9 := LeakRead(s6);
    hide Apply, Enabled;
    RunConcat(Init(2, junk), xs, ys);
    RunConcat(Init(2, junk), xs + ys, zs);
    es := xs + ys + zs;
  }

  lemma LeakOpen(junk: seq<int>) returns (es: seq<Event>, s: State)
    requires |junk| == INTS
    ensures Runs(Init(2, junk), es) && s == Run(Init(2, junk), es)
    ensures s.procs == [Live(1, 0, true, Outside, false, false), Live(2, 2, true, Outside, true, true)]
    ensures s.page.state == Writable && |s.page.data| == |s.writer| == INTS
  {
    RunThree(Init(2, junk), SetWritable(0), Fork(0, 1), Exec(1));
    es := [SetWritable(0), Fork(0, 1), Exec(1)];
    s := Run(Init(2, junk), es);
  }

  lemma LeakWrite(junk: seq<int>, s: State) returns (es: seq<Event>, t: State)
    requires s.procs == [Live(1, 0, true, Outside, false, false), Live(2, 2, true, Outside, true, true)]
    requires s.page.state == Writable && |s.page.data| == |s.writer| == INTS
    ensures Runs(s, es) && t == Run(s, es) && t.procs == s.procs && t.page.state == Writable
    ensures |t.page.data| == |t.writer| == INTS && t.page.data[0] == 7 && t.writer[0] == Some(2)
  {
    RunThree(s, WriteCheckState(1, 0, 7), WriteCheckAccess(1), WriteStore(1));
    es := [WriteCheckState(1, 0, 7), WriteCheckAccess(1), WriteStore(1)];
    t := Run(s, es);
  }

  lemma LeakRead(s: State) returns (es: seq<Event>, t: State)
    requires s.procs == [Live(1, 0, true, Outside, false, false), Live(2, 2, true, Outside, true, true)]
    requires s.page.state == Writable && |s.page.data| == |s.writer| == INTS
    requires s.page.data[0] == 7 && s.writer[0] == Some(2)
    ensures Runs(s, es) && t == Run(s, es) && Enabled(t, ReadLoad(0, 7)) && t.procs[0].call.index == 0
    ensures 0 < |t.writer| && t.writer[0] == Some(2) && t.procs[0].top == 0
  {
    RunThree(s, Exec(1), ReadCheckState(0, 0), ReadCheckAccess(0));
    es := [Exec(1), ReadCheckState(0, 0), ReadCheckAccess(0)];
    t := Run(s, es);
  }
}
