/** What the log can always still do: from every state that any run can reach, if no process has a buffer
    it has changed and not logged, the operations can end and everything they have logged can become
    durable, without a crash or a new write; a recovery can finish first.  Then any process can run an
    operation of its own from begin_op to the disk, or read what was last logged. */
module LogProgress {
  import opened Common
  import opened WriteAheadLog
  import opened LogProtocol

  predicate Quiet(e: Event) { !e.Crash? && !e.Modify? && !e.LogWrite? && !e.BeginOp? }

  /** Some schedule without crashes, changes and new operations leads from `s` to `t`. */
  ghost predicate Leads(s: State, a: Abs, t: State, b: Abs) { exists es :: Path(s, a, es, t, b) }

  ghost predicate Path(s: State, a: Abs, es: seq<Event>, t: State, b: Abs)
  {
    Runs(s, es) && Run(s, es) == t && AbsRun(a, es) == b && forall i | 0 <= i < |es| :: Quiet(es[i])
  }

  lemma LeadsSelf(s: State, a: Abs)
    ensures Leads(s, a, s, a)
  {
    assert Path(s, a, [], s, a);
  }

  lemma {:induction false} RunConcat(s: State, a: Abs, xs: seq<Event>, ys: seq<Event>)
    requires Runs(s, xs) && Runs(Run(s, xs), ys)
    ensures Runs(s, xs + ys) && Run(s, xs + ys) == Run(Run(s, xs), ys)
    ensures AbsRun(a, xs + ys) == AbsRun(AbsRun(a, xs), ys)
    decreases |xs|
  {
    hide Enabled, Apply, AbsApply;
    if xs == [] {
      assert xs + ys == ys;
    } else {
      RunConcat(Apply(s, xs[0]), AbsApply(a, xs[0]), xs[1..], ys);
      assert (xs + ys)[0] == xs[0] && (xs + ys)[1..] == xs[1..] + ys;
    }
  }

  lemma {:induction false} LeadsTrans(s: State, a: Abs, t: State, b: Abs, u: State, c: Abs)
    requires Leads(s, a, t, b) && Leads(t, b, u, c)
    ensures Leads(s, a, u, c)
  {
    var xs :| Path(s, a, xs, t, b);
    var ys :| Path(t, b, ys, u, c);
    RunConcat(s, a, xs, ys);
    assert Path(s, a, xs + ys, u, c);
  }

  lemma {:induction false} LeadsStep(s: State, a: Abs, e: Event)
    requires Enabled(s, e) && Quiet(e)
    ensures Leads(s, a, Apply(s, e), AbsApply(a, e))
  {
    hide Enabled, Apply, AbsApply;
    var t, b := Apply(s, e), AbsApply(a, e);
    assert [e][1..] == [] && Runs(t, []) && Run(t, []) == t && AbsRun(b, []) == b;
    assert Runs(s, [e]) && Run(s, [e]) == t && AbsRun(a, [e]) == b;
    assert Path(s, a, [e], t, b);
  }

  /** One more step. */
  lemma {:induction false} Then(s: State, a: Abs, t: State, b: Abs, e: Event) returns (u: State, c: Abs)
    requires Leads(s, a, t, b) && Inv(t, b) && Enabled(t, e) && Quiet(e)
    ensures u == Apply(t, e) && c == AbsApply(b, e) && Leads(s, a, u, c) && Inv(u, c) && c.view == b.view
  {
    u, c := Apply(t, e), AbsApply(b, e);
    InvStep(t, b, e);
    LeadsStep(t, b, e);
    hide Inv, Enabled, Apply, Leads;
    LeadsTrans(s, a, t, b, u, c);
  }

  // ---------------------------------------------------------------------------
  // The committer gets hold of a buffer
  // ---------------------------------------------------------------------------

  /** Only buffers have changed hands. */
  predicate SameLog(s: State, t: State)
  {
    && t == s.(cache := t.cache)
  }

  /** A pinned buffer can be unlocked by whoever has it, and locked by the committer. */
  lemma {:induction false} Hold(s: State, a: Abs, b: nat) returns (t: State)
    requires Inv(s, a) && s.dirty == {} && b in s.Pending() && !s.phase.Recovering?
    ensures Leads(s, a, t, a) && Inv(t, a) && SameLog(s, t) && t.Holds(s.committer, b)
  {
    LeadsSelf(s, a);
    assert b in s.cache && s.cache[b].valid && s.Home(b) by { assert LineOk(s, b); }
    hide Inv, Enabled, Apply, Leads;
    t := s;
    if s.cache[b].holder.Some? && s.cache[b].holder != Some(s.committer) {
      UnlockIs(s, s.cache[b].holder.value, b);
      var c;
      t, c := Then(s, a, t, a, Unlock(s.cache[b].holder.value, b));
    }
    if t.cache[b].holder.None? {
      t := Take(s, a, t, b);
    }
  }

  lemma {:induction false} Take(s: State, a: Abs, t: State, b: nat) returns (u: State)
    requires Leads(s, a, t, a) && Inv(t, a) && SameLog(s, t) && s.Home(b) && !s.phase.Recovering?
    requires b in t.cache && t.cache[b].valid && t.cache[b].holder.None?
    ensures Leads(s, a, u, a) && Inv(u, a) && SameLog(s, u) && u.Holds(s.committer, b)
  {
    hide Inv, Enabled, Apply, Leads;
    var p := s.committer;
    u := t;
    if p !in t.cache[b].users {
      BgetIs(t, p, b);
      var c;
      u, c := Then(s, a, t, a, Bget(p, b));
    }
    LockIs(u, p, b);
    var c;
    u, c := Then(s, a, u, a, Lock(p, b));
  }

  lemma UnlockIs(s: State, q: nat, b: nat)
    requires b in s.cache && s.cache[b].holder == Some(q) && s.dirty == {}
    ensures Enabled(s, Unlock(q, b)) && Apply(s, Unlock(q, b)) == SetLine(s, b, s.cache[b].(holder := None))
  {
  }

  lemma BgetIs(s: State, p: nat, b: nat)
    requires b in s.cache && p !in s.cache[b].users && s.Home(b) && !s.phase.Recovering?
    ensures Enabled(s, Bget(p, b)) && SameLog(s, Apply(s, Bget(p, b)))
    ensures var t := Apply(s, Bget(p, b));
            && b in t.cache && t.cache[b].holder == s.cache[b].holder && t.cache[b].valid == s.cache[b].valid
            && p in t.cache[b].users
  {
  }

  lemma LockIs(s: State, p: nat, b: nat)
    requires b in s.cache && p in s.cache[b].users && s.cache[b].holder == None
    ensures Enabled(s, Lock(p, b)) && Apply(s, Lock(p, b)) == SetLine(s, b, s.cache[b].(holder := Some(p)))
  {
  }

  /** The steps of the commit, as far as the way on depends on them. */
  lemma CommitSteps(s: State)
    requires s.phase.Copying? || s.phase.Installing?
    ensures s.phase.k < |s.lh| && s.Holds(s.committer, s.lh[s.phase.k]) && s.phase.Copying? ==>
              && Enabled(s, CopyBlock)
              && var t := Apply(s, CopyBlock); t.phase == Copying(s.phase.k + 1) && t.lh == s.lh && t.dirty == s.dirty
    ensures s.phase.k < |s.lh| && s.Holds(s.committer, s.lh[s.phase.k]) && s.phase.Installing? ==>
              && Enabled(s, InstallBlock)
              && var t := Apply(s, InstallBlock); t.phase == Installing(s.phase.k + 1) && t.lh == s.lh && t.dirty == s.dirty
    ensures s.phase == Copying(|s.lh|) && |s.lh| <= LOGSIZE ==>
              && Enabled(s, WriteHead)
              && var t := Apply(s, WriteHead); t.phase == Installing(0) && t.lh == s.lh && t.dirty == s.dirty
    ensures s.phase == Installing(|s.lh|) ==>
              && Enabled(s, EraseHead)
              && var t := Apply(s, EraseHead);
                 t.phase == Idle && t.outstanding == s.outstanding && t.dirty == s.dirty
  {
    hide SetHead;
  }

  // ---------------------------------------------------------------------------
  // The commit
  // ---------------------------------------------------------------------------

  /** The end: nothing active, nothing recorded, and what was written is durable. */
  ghost predicate Durable(t: State, b: Abs, view: Disk)
  {
    t.phase.Idle? && t.outstanding == 0 && t.lh == [] && t.dirty == {} && b.view == view && SameHome(t.lay, b.durable, view)
  }

  lemma DurableAtRest(t: State, b: Abs)
    requires Inv(t, b) && t.phase.Idle? && t.outstanding == 0 && t.dirty == {}
    ensures Durable(t, b, b.view)
  {
    hide Head, HeadFits;
    forall x | 0 <= x < |b.view| && !t.lay.InLog(x) ensures b.durable[x] == b.view[x] {
      assert t.Home(x) && x !in t.Pending();
    }
  }

  /** install_trans and the empty header. */
  lemma {:induction false} Install1(s: State, a: Abs) returns (t: State, b: Abs)
    requires Inv(s, a) && s.dirty == {} && s.phase.Installing?
    ensures Leads(s, a, t, b) && Inv(t, b) && Durable(t, b, a.view)
    decreases if s.phase.Installing? && s.phase.k <= |s.lh| then |s.lh| - s.phase.k else 0
  {
    assert s.phase.k <= |s.lh| && s.outstanding == 0 && s.Pending() == s.lh[s.phase.k..];
    LeadsSelf(s, a);
    hide Inv, Durable, Enabled, Apply, Leads;
    if s.phase.k == |s.lh| {
      CommitSteps(s);
      t, b := Then(s, a, s, a, EraseHead);
      DurableAtRest(t, b);
    } else {
      var u := Hold(s, a, s.lh[s.phase.k]);
      CommitSteps(u);
      var v, c := Then(s, a, u, a, InstallBlock);
      t, b := Install1(v, c);
      LeadsTrans(s, a, v, c, t, b);
    }
  }

  /** write_log and the header write. */
  lemma {:induction false} Commit1(s: State, a: Abs) returns (t: State, b: Abs)
    requires Inv(s, a) && s.dirty == {} && s.phase.Copying?
    ensures Leads(s, a, t, b) && Inv(t, b) && Durable(t, b, a.view)
    decreases if s.phase.Copying? && s.phase.k <= |s.lh| then |s.lh| - s.phase.k else 0
  {
    assert s.phase.k <= |s.lh| <= LOGSIZE && s.Pending() == s.lh;
    LeadsSelf(s, a);
    hide Inv, Durable, Enabled, Apply, Leads;
    if s.phase.k == |s.lh| {
      CommitSteps(s);
      var v, c := Then(s, a, s, a, WriteHead);
      t, b := Install1(v, c);
      LeadsTrans(s, a, v, c, t, b);
    } else {
      var u := Hold(s, a, s.lh[s.phase.k]);
      CommitSteps(u);
      var v, c := Then(s, a, u, a, CopyBlock);
      t, b := Commit1(v, c);
      LeadsTrans(s, a, v, c, t, b);
    }
  }

  // ---------------------------------------------------------------------------
  // The operations end
  // ---------------------------------------------------------------------------

  lemma {:induction false} SomeActive(ops: seq<Option<nat>>) returns (p: nat)
    requires ActiveCount(ops) > 0
    ensures p < |ops| && ops[p].Some?
  {
    if ops[|ops| - 1].Some? {
      p := |ops| - 1;
    } else {
      p := SomeActive(ops[..|ops| - 1]);
    }
  }

  /** The operations end one by one; the last one commits. */
  lemma {:induction false} EndAll(s: State, a: Abs) returns (t: State, b: Abs)
    requires Inv(s, a) && s.dirty == {} && !s.phase.Recovering?
    ensures Leads(s, a, t, b) && Inv(t, b) && Durable(t, b, a.view)
    decreases s.outstanding
  {
    LeadsSelf(s, a);
    match s.phase
    case Copying(_) => t, b := Commit1(s, a);
    case Installing(_) => t, b := Install1(s, a);
    case Idle =>
      if s.outstanding == 0 {
        t, b := s, a;
        DurableAtRest(s, a);
      } else {
        var p := SomeActive(s.ops);
        hide Inv, Durable, ActiveCount;
        var v, c := Then(s, a, s, a, EndOp(p));
        t, b := EndAll(v, c);
        LeadsTrans(s, a, v, c, t, b);
      }
  }

  /** A recovery finishes. */
  lemma {:induction false} RecoverAll(s: State, a: Abs) returns (t: State, b: Abs)
    requires Inv(s, a) && s.dirty == {} && s.phase.Recovering?
    ensures Leads(s, a, t, b) && Inv(t, b) && t.dirty == {} && t.phase.Idle? && b.view == a.view
    decreases if s.phase.Recovering? && s.phase.k <= |Head(s.lay, s.phase.boot)|
              then |Head(s.lay, s.phase.boot)| - s.phase.k else 0
  {
    LeadsSelf(s, a);
    var k, lh := s.phase.k, Head(s.lay, s.phase.boot);
    assert k <= |lh| && Head(s.lay, s.disk) == lh by { PartialRecoverHead(s.lay, s.phase.boot, k); }
    hide Inv, Head;
    if k == |lh| {
      t, b := Then(s, a, s, a, RecoverDone);
    } else {
      var v, c := Then(s, a, s, a, RecoverBlock);
      t, b := RecoverAll(v, c);
      LeadsTrans(s, a, v, c, t, b);
    }
  }

  /** From every state of every run in which every change is logged, what has been logged so far can
      become durable, with nothing left in the log. */
  lemma {:induction false} AllCanCommit(lay: Layout, disk: Disk, nproc: nat, es: seq<Event>, s: State, a: Abs)
    returns (t: State, b: Abs)
    requires Reached(lay, disk, nproc, es, s, a) && s.dirty == {}
    ensures Leads(s, a, t, b) && t.phase.Idle? && t.outstanding == 0 && t.lh == []
    ensures b.view == a.view && SameHome(t.lay, b.durable, a.view)
  {
    ReachedInv(lay, disk, nproc, es, s, a);
    hide Reached, Inv;
    t, b := Commits(s, a);
  }

  lemma {:induction false} Commits(s: State, a: Abs) returns (t: State, b: Abs)
    requires Inv(s, a) && s.dirty == {}
    ensures Leads(s, a, t, b) && Inv(t, b) && Durable(t, b, a.view)
  {
    hide Inv;
    if s.phase.Recovering? {
      var u, c := RecoverAll(s, a);
      t, b := EndAll(u, c);
      LeadsTrans(s, a, u, c, t, b);
    } else {
      t, b := EndAll(s, a);
    }
  }

  // ---------------------------------------------------------------------------
  // An operation, from begin_op to the disk
  // ---------------------------------------------------------------------------

  /** Some schedule without crashes leads from `s` to `t`. */
  ghost predicate Reaches(s: State, a: Abs, t: State, b: Abs) { exists es :: Course(s, a, es, t, b) }

  ghost predicate Course(s: State, a: Abs, es: seq<Event>, t: State, b: Abs)
  {
    Runs(s, es) && Run(s, es) == t && AbsRun(a, es) == b && forall i | 0 <= i < |es| :: !es[i].Crash?
  }

  lemma {:induction false} LeadsReaches(s: State, a: Abs, t: State, b: Abs, u: State, c: Abs)
    requires Reaches(s, a, t, b) && Leads(t, b, u, c)
    ensures Reaches(s, a, u, c)
  {
    var xs :| Course(s, a, xs, t, b);
    var ys :| Path(t, b, ys, u, c);
    RunConcat(s, a, xs, ys);
    assert Course(s, a, xs + ys, u, c);
  }

  lemma ReachesSelf(s: State, a: Abs)
    ensures Reaches(s, a, s, a)
  {
    assert Course(s, a, [], s, a);
  }

  /** One more step, of any kind but a crash. */
  lemma {:induction false} Next(s: State, a: Abs, t: State, b: Abs, e: Event) returns (u: State, c: Abs)
    requires Reaches(s, a, t, b) && Inv(t, b) && Enabled(t, e) && !e.Crash?
    ensures u == Apply(t, e) && c == AbsApply(b, e) && Reaches(s, a, u, c) && Inv(u, c)
  {
    u, c := Apply(t, e), AbsApply(b, e);
    InvStep(t, b, e);
    hide Inv, Enabled, Apply, AbsApply, Reaches;
    ReachesStep(s, a, t, b, e);
  }

  lemma {:induction false} ReachesStep(s: State, a: Abs, t: State, b: Abs, e: Event)
    requires Reaches(s, a, t, b) && Enabled(t, e) && !e.Crash?
    ensures Reaches(s, a, Apply(t, e), AbsApply(b, e))
  {
    hide Enabled, Apply, AbsApply;
    var u, c := Apply(t, e), AbsApply(b, e);
    var xs :| Course(s, a, xs, t, b);
    assert [e][1..] == [] && Runs(u, []) && Run(u, []) == u && AbsRun(c, []) == c;
    assert Runs(t, [e]) && Run(t, [e]) == u && AbsRun(b, [e]) == c;
    RunConcat(s, a, xs, [e]);
    assert Course(s, a, xs + [e], u, c);
  }

  /** `p` is in an operation that has written at most `k` blocks, and nothing is left unlogged. */
  predicate InOp(s: State, p: nat, k: nat)
  {
    && s.phase.Idle? && s.dirty == {} && s.Active(p) && s.ops[p].value <= k && |s.lh| <= k && s.outstanding >= 1
  }

  /** bread: whatever the state of the buffer, `p` can get hold of its contents. */
  lemma {:induction false} Breads(s0: State, a0: Abs, s: State, a: Abs, p: nat, b: nat) returns (t: State)
    requires Reaches(s0, a0, s, a) && Inv(s, a) && s.dirty == {} && s.phase.Idle? && s.Home(b)
    ensures Reaches(s0, a0, t, a) && Inv(t, a) && SameLog(s, t) && t.Holds(p, b)
  {
    hide Inv, Enabled, Apply, Reaches;
    var c;
    t := s;
    if b in s.cache && s.cache[b].holder.Some? && s.cache[b].holder != Some(p) {
      UnlockIs(s, s.cache[b].holder.value, b);
      t, c := Next(s0, a0, s, a, Unlock(s.cache[b].holder.value, b));
    }
    t := Locks(s0, a0, t, a, p, b);
    if !t.cache[b].valid {
      FillIs(t, p, b);
      t, c := Next(s0, a0, t, a, Fill(p, b));
    }
  }

  lemma {:induction false} Locks(s0: State, a0: Abs, s: State, a: Abs, p: nat, b: nat) returns (t: State)
    requires Reaches(s0, a0, s, a) && Inv(s, a) && s.phase.Idle? && s.Home(b)
    requires b in s.cache ==> s.cache[b].holder.None? || s.cache[b].holder == Some(p)
    ensures Reaches(s0, a0, t, a) && Inv(t, a) && SameLog(s, t) && b in t.cache && t.cache[b].holder == Some(p)
  {
    assert b in s.cache ==> LineOk(s, b);
    hide Inv, Enabled, Apply, Reaches;
    var c;
    t := s;
    if b !in s.cache {
      BgetNewIs(s, p, b);
      t, c := Next(s0, a0, s, a, Bget(p, b));
    } else if p !in s.cache[b].users {
      BgetIs(s, p, b);
      t, c := Next(s0, a0, s, a, Bget(p, b));
    }
    if t.cache[b].holder.None? {
      LockIs(t, p, b);
      t, c := Next(s0, a0, t, a, Lock(p, b));
    }
  }

  lemma BgetNewIs(s: State, p: nat, b: nat)
    requires b !in s.cache && s.Home(b) && !s.phase.Recovering?
    ensures Enabled(s, Bget(p, b)) && SameLog(s, Apply(s, Bget(p, b)))
    ensures var t := Apply(s, Bget(p, b)); b in t.cache && t.cache[b].holder.None? && p in t.cache[b].users
  {
  }

  lemma FillIs(s: State, p: nat, b: nat)
    requires b in s.cache && s.cache[b].holder == Some(p) && !s.cache[b].valid
    ensures Enabled(s, Fill(p, b)) && SameLog(s, Apply(s, Fill(p, b))) && Apply(s, Fill(p, b)).Holds(p, b)
  {
  }

  /** The buffer is changed, logged and let go. */
  lemma {:induction false} Writes(s0: State, a0: Abs, s: State, a: Abs, p: nat, k: nat, b: nat, data: Sector)
    returns (t: State, c: Abs)
    requires Reaches(s0, a0, s, a) && Inv(s, a) && InOp(s, p, k) && s.Holds(p, b) && b < Bytes.UINT32
    requires k < MAXOPBLOCKS && k + 1 < s.lay.size
    ensures Reaches(s0, a0, t, c) && Inv(t, c) && InOp(t, p, k + 1)
    ensures t.lay == s.lay && t.disk == s.disk && c.view == Put(a.view, b, data) && t.outstanding == s.outstanding
  {
    assert p in s.cache[b].users by { assert LineOk(s, b); }
    WriteSteps(s, p, k, b, data);
    hide Inv, Enabled, Apply, Reaches;
    var u, v, w;
    u, c := Next(s0, a0, s, a, Modify(p, b, data));
    v, c := Next(s0, a0, u, c, LogWrite(p, b, data));
    w, c := Next(s0, a0, v, c, Unlock(p, b));
    t, c := Next(s0, a0, w, c, Unref(p, b));
  }

  lemma WriteSteps(s: State, p: nat, k: nat, b: nat, data: Sector)
    requires InOp(s, p, k) && s.Holds(p, b) && b < Bytes.UINT32 && p in s.cache[b].users
    requires k < MAXOPBLOCKS && k + 1 < s.lay.size
    ensures Enabled(s, Modify(p, b, data))
    ensures var u := Apply(s, Modify(p, b, data));
            && Enabled(u, LogWrite(p, b, data))
            && var v := Apply(u, LogWrite(p, b, data));
               && Enabled(v, Unlock(p, b))
               && var w := Apply(v, Unlock(p, b));
                  && Enabled(w, Unref(p, b))
                  && var t := Apply(w, Unref(p, b));
                     InOp(t, p, k + 1) && t.lay == s.lay && t.disk == s.disk && t.outstanding == s.outstanding
  {
  }

  /** The file system's blocks after a list of writes. */
  function PutAll(d: Disk, ws: seq<(nat, Sector)>): Disk
  {
    if ws == [] then d else Put(PutAll(d, ws[..|ws| - 1]), ws[|ws| - 1].0, ws[|ws| - 1].1)
  }

  predicate Writable(s: State, ws: seq<(nat, Sector)>)
  {
    && |ws| <= MAXOPBLOCKS && |ws| < s.lay.size
    && forall i | 0 <= i < |ws| :: s.Home(ws[i].0) && ws[i].0 < Bytes.UINT32
  }

  lemma {:induction false} WritesAll(s0: State, a0: Abs, s: State, a: Abs, p: nat, ws: seq<(nat, Sector)>)
    returns (t: State, c: Abs)
    requires Reaches(s0, a0, s, a) && Inv(s, a) && InOp(s, p, 0) && Writable(s, ws)
    ensures Reaches(s0, a0, t, c) && Inv(t, c) && InOp(t, p, |ws|) && t.lay == s.lay && t.disk == s.disk
    ensures c.view == PutAll(a.view, ws) && t.outstanding == s.outstanding
  {
    hide Inv, Enabled, Apply, Reaches;
    if ws == [] {
      t, c := s, a;
    } else {
      var k := |ws| - 1;
      t, c := WritesAll(s0, a0, s, a, p, ws[..k]);
      assert t.Home(ws[k].0);
      hide InOp;
      var u := Breads(s0, a0, t, c, p, ws[k].0);
      t, c := Writes(s0, a0, u, c, p, k, ws[k].0, ws[k].1);
    }
  }

  /** From every state of every run in which every change is logged, any process can run an operation that
      writes up to MAXOPBLOCKS blocks and have exactly these writes, on top of all earlier ones, durable. */
  lemma {:induction false} OperationCanCommit(lay: Layout, disk: Disk, nproc: nat, es: seq<Event>, s: State, a: Abs,
                                              p: nat, ws: seq<(nat, Sector)>)
    returns (t: State, b: Abs)
    requires Reached(lay, disk, nproc, es, s, a) && s.dirty == {} && p < |s.ops| && Writable(s, ws)
    ensures Reaches(s, a, t, b) && t.phase.Idle? && t.outstanding == 0 && t.lh == []
    ensures SameHome(t.lay, b.durable, PutAll(a.view, ws))
  {
    ReachedInv(lay, disk, nproc, es, s, a);
    hide Reached, Inv, Leads, Reaches, Enabled, Apply;
    ReachesSelf(s, a);
    var u, c := Commits(s, a);
    LeadsKeeps(s, a, u, c);
    LeadsReaches(s, a, s, a, u, c);
    u, c := Begins(s, a, u, c, p);
    u, c := WritesAll(s, a, u, c, p, ws);
    var v, d := u, c;
    t, b := EndAll(v, d);
    LeadsReaches(s, a, v, d, t, b);
  }

  lemma {:induction false} Begins(s0: State, a0: Abs, s: State, a: Abs, p: nat) returns (t: State, c: Abs)
    requires Reaches(s0, a0, s, a) && Inv(s, a) && Durable(s, a, a.view) && s.dirty == {} && p < |s.ops|
    ensures Reaches(s0, a0, t, c) && Inv(t, c) && InOp(t, p, 0) && t.lay == s.lay && t.disk == s.disk && c.view == a.view
  {
    NoneActive(s.ops, p);
    BeginIs(s, p);
    hide Inv, Enabled, Apply, Reaches;
    t, c := Next(s0, a0, s, a, BeginOp(p));
  }

  lemma BeginIs(s: State, p: nat)
    requires p < |s.ops| && s.ops[p].None? && s.phase.Idle? && s.outstanding == 0 && s.lh == []
    ensures Enabled(s, BeginOp(p)) && Apply(s, BeginOp(p)) == s.(ops := s.ops[p := Some(0)], outstanding := 1)
  {
  }

  lemma {:induction false} NoneActive(ops: seq<Option<nat>>, p: nat)
    requires ActiveCount(ops) == 0 && p < |ops|
    ensures ops[p].None?
  {
    if p < |ops| - 1 {
      NoneActive(ops[..|ops| - 1], p);
    }
  }

  /** The layout and the sizes never change. */
  lemma {:induction false} RunKeeps(s: State, es: seq<Event>)
    requires Runs(s, es)
    ensures var t := Run(s, es); t.lay == s.lay && |t.ops| == |s.ops| && |t.disk| == |s.disk|
    decreases |es|
  {
    if es != [] {
      RunKeeps(Apply(s, es[0]), es[1..]);
    }
  }

  lemma {:induction false} LeadsKeeps(s: State, a: Abs, t: State, b: Abs)
    requires Leads(s, a, t, b)
    ensures t.lay == s.lay && |t.ops| == |s.ops| && |t.disk| == |s.disk|
  {
    var xs :| Path(s, a, xs, t, b);
    RunKeeps(s, xs);
  }

  /** From every state of every run in which every change is logged and no commit is running, any process
      can read any block, and reads what was last logged; also if the buffer is recycled before. */
  lemma {:induction false} ReadCanSee(lay: Layout, disk: Disk, nproc: nat, es: seq<Event>, s: State, a: Abs,
                                      p: nat, b: nat)
    returns (t: State)
    requires Reached(lay, disk, nproc, es, s, a) && s.dirty == {} && s.phase.Idle? && s.Home(b)
    ensures b in s.cache && s.cache[b].refcnt == 0 ==>
              Enabled(s, Evict(b)) && b !in Apply(s, Evict(b)).cache && Reaches(Apply(s, Evict(b)), a, t, a)
    ensures Reaches(s, a, t, a) && Enabled(t, Read(p, b, At(a.view, b)))
  {
    ReachedInv(lay, disk, nproc, es, s, a);
    ReachesSelf(s, a);
    hide Reached, Inv, Enabled, Apply, Reaches;
    if b in s.cache && s.cache[b].refcnt == 0 {
      EvictIs(s, b);
      var u, c := Next(s, a, s, a, Evict(b));
      ReachesSelf(u, a);
      t := Breads(u, a, u, a, p, b);
      ReachesTrans(s, a, u, a, t, a);
    } else {
      t := Breads(s, a, s, a, p, b);
    }
    SeesView(t, a, p, b);
  }

  lemma EvictIs(s: State, b: nat)
    requires b in s.cache && s.cache[b].refcnt == 0
    ensures Enabled(s, Evict(b)) && Apply(s, Evict(b)) == s.(cache := s.cache - {b})
  {
  }

  lemma SeesView(t: State, a: Abs, p: nat, b: nat)
    requires Inv(t, a) && t.phase.Idle? && t.dirty == {} && t.Holds(p, b)
    ensures Enabled(t, Read(p, b, At(a.view, b)))
  {
    assert LineOk(t, b);
  }

  lemma {:induction false} ReachesTrans(s: State, a: Abs, t: State, b: Abs, u: State, c: Abs)
    requires Reaches(s, a, t, b) && Reaches(t, b, u, c)
    ensures Reaches(s, a, u, c)
  {
    var xs :| Course(s, a, xs, t, b);
    var ys :| Course(t, b, ys, u, c);
    RunConcat(s, a, xs, ys);
    assert Course(s, a, xs + ys, u, c);
  }
}
