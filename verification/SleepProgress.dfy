/** What can always still happen to a sleep lock: from every state that any run can reach, a process
    that wants the lock can be scheduled to get it.  No step here is a kill. */
module SleepProgress {
  import opened Common
  import opened SleepLock

  /** Some schedule without kills leads from `s` to `t`. */
  ghost predicate Leads(s: State, t: State) { exists es :: Path(s, es, t) }

  ghost predicate Path(s: State, es: seq<Event>, t: State)
  {
    Runs(s, es) && Run(s, es) == t && forall i | 0 <= i < |es| :: !es[i].Kill?
  }

  lemma LeadsSelf(s: State)
    ensures Leads(s, s)
  {
    assert Path(s, [], s);
  }

  lemma {:induction false} RunConcat(s: State, xs: seq<Event>, ys: seq<Event>)
    requires Runs(s, xs) && Runs(Run(s, xs), ys)
    ensures Runs(s, xs + ys) && Run(s, xs + ys) == Run(Run(s, xs), ys)
    decreases |xs|
  {
    hide Enabled, Apply;
    if xs == [] {
      assert xs + ys == ys;
    } else {
      RunConcat(Apply(s, xs[0]), xs[1..], ys);
      assert (xs + ys)[0] == xs[0] && (xs + ys)[1..] == xs[1..] + ys;
    }
  }

  lemma {:induction false} LeadsTrans(s: State, t: State, u: State)
    requires Leads(s, t) && Leads(t, u)
    ensures Leads(s, u)
  {
    var xs :| Path(s, xs, t);
    var ys :| Path(t, ys, u);
    RunConcat(s, xs, ys);
    assert Path(s, xs + ys, u);
  }

  lemma {:induction false} LeadsStep(s: State, e: Event)
    requires Enabled(s, e) && !e.Kill?
    ensures Leads(s, Apply(s, e))
  {
    assert Runs(Apply(s, e), [e][1..]);
    assert Path(s, [e], Apply(s, e));
  }

  /** One more step of process `p`. */
  lemma {:induction false} Then(s: State, t: State, p: nat) returns (u: State)
    requires Leads(s, t) && Inv(t) && p < |t.ps| && Ready(t, p)
    ensures u == Step(t, p) && Leads(s, u) && Inv(u) && |u.ps| == |t.ps|
  {
    u := Step(t, p);
    assert Enabled(t, Go(p)) && Apply(t, Go(p)) == u;
    LeadsStep(t, Go(p));
    LeadsTrans(s, t, u);
    StepInv(t, Go(p));
    assert |u.ps| == |t.ps| by { hide Inv; }
  }

  // ---------------------------------------------------------------------------
  // The spin lock is given up
  // ---------------------------------------------------------------------------

  /** How many steps the process with lk->lk takes at most before it gives it up. */
  function SpinRank(pc: Pc, n: nat): nat
  {
    match pc
    case Test => 4
    case Enter => 2
    case Drop => 1
    case Got => 1
    case Clear => n + 3
    case Scan(j) => if j <= n then n - j + 1 else 1
    case _ => 0
  }

  /** How many steps a process takes before it gives up its own lock. */
  function OwnRank(pc: Pc): nat
  {
    match pc
    case Drop => 4
    case Mark => 3
    case Doze => 2
    case Sched => 1
    case Wake => 1
    case _ => 0
  }

  /** The process that the one with lk->lk is waiting for in its scan, if any. */
  function Blocker(s: State, h: nat): Option<nat>
    requires h < |s.ps|
  {
    if s.ps[h].pc.Scan? && s.ps[h].pc.j < |s.ps| && s.ps[h].pc.j != h && OwnLock(s.ps[s.ps[h].pc.j].pc)
    then Some(s.ps[h].pc.j) else Option.None
  }

  function BlockRank(s: State, h: nat): nat
    requires h < |s.ps|
  {
    if Blocker(s, h).Some? then OwnRank(s.ps[Blocker(s, h).value].pc) else 0
  }

  /** In acquiresleep, up to the lock. */
  predicate Acquiring(pc: Pc)
  {
    !pc.Out? && !pc.Holds? && !pc.Leave? && !pc.Clear? && !pc.Scan?
  }

  /** What a step on the way to giving up lk->lk does not undo: a process that wants the lock still does,
      or has it, and one that has it keeps it. */
  predicate Onward(s: State, t: State)
  {
    && |t.ps| == |s.ps|
    && (forall p | 0 <= p < |s.ps| && Acquiring(s.ps[p].pc) :: Acquiring(t.ps[p].pc) || t.ps[p].pc.Holds?)
    && (forall p | 0 <= p < |s.ps| && s.ps[p].pc.Holds? :: t.ps[p].pc.Holds?)
  }

  /** The process with lk->lk is in releasesleep. */
  predicate LettingGo(s: State)
  {
    s.spin.Some? && s.spin.value < |s.ps| && (s.ps[s.spin.value].pc.Clear? || s.ps[s.spin.value].pc.Scan?)
  }

  /** The step that brings the release of lk->lk nearer. */
  lemma SpinStep(s: State) returns (r: nat)
    requires Inv(s) && s.spin.Some?
    ensures r < |s.ps| && Ready(s, r) && |Step(s, r).ps| == |s.ps|
    ensures var h, t := s.spin.value, Step(s, r);
            t.spin == s.spin ==>
              || SpinRank(t.ps[h].pc, |s.ps|) < SpinRank(s.ps[h].pc, |s.ps|)
              || (SpinRank(t.ps[h].pc, |s.ps|) == SpinRank(s.ps[h].pc, |s.ps|) && BlockRank(t, h) < BlockRank(s, h))
    ensures Step(s, r).spin == s.spin || Step(s, r).spin == Option.None
    ensures LettingGo(s) ==> if Step(s, r).spin.None? then !Step(s, r).locked else LettingGo(Step(s, r))
    ensures Onward(s, Step(s, r))
  {
    var h := s.spin.value;
    assert Fine(s, h);
    if Blocker(s, h).Some? {
      r := Blocker(s, h).value;
      assert Fine(s, r);
    } else {
      r := h;
    }
  }

  lemma {:induction false} OnwardTrans(s: State, t: State, u: State)
    requires Onward(s, t) && Onward(t, u)
    ensures Onward(s, u)
  {
  }

  /** lk->lk can be given up; if its holder is in releasesleep, the lock is free then. */
  lemma {:induction false} SpinFreed(s: State) returns (t: State)
    requires Inv(s)
    ensures Leads(s, t) && Inv(t) && Onward(s, t) && t.spin.None? && (LettingGo(s) ==> !t.locked)
    ensures s.spin.None? ==> t == s
    decreases if s.spin.Some? && s.spin.value < |s.ps| then SpinRank(s.ps[s.spin.value].pc, |s.ps|) + 1 else 0,
              if s.spin.Some? && s.spin.value < |s.ps| then BlockRank(s, s.spin.value) else 0
  {
    LeadsSelf(s);
    if s.spin.None? {
      t := s;
    } else {
      var r := SpinStep(s);
      var u := Then(s, s, r);
      hide Onward;
      t := SpinFreed(u);
      LeadsTrans(s, u, t);
      OnwardTrans(s, u, t);
    }
  }

  // ---------------------------------------------------------------------------
  // The lock is released, and taken
  // ---------------------------------------------------------------------------

  /** The owner, awake again if it slept for something else, releases the lock. */
  lemma {:induction false} LockFreed(s: State, p: nat) returns (t: State)
    requires Inv(s) && s.spin.None? && p < |s.ps| && Acquiring(s.ps[p].pc)
    ensures Leads(s, t) && Inv(t) && |t.ps| == |s.ps| && t.spin.None? && !t.locked && Acquiring(t.ps[p].pc)
  {
    LeadsSelf(s);
    t := s;
    if s.locked {
      var o := s.pid - 1;
      assert Fine(s, o) && Fine(s, p);
      var u := OwnerAwake(s, o, p);
      assert Fine(u, o) && Fine(u, p);
      if u.ps[o].pc.Holds? {
        u := Then(s, u, o);
      }
      u := Then(s, u, o);
      t := SpinFreed(u);
      LeadsTrans(s, u, t);
      assert Fine(t, p);
    }
  }

  lemma {:induction false} OwnerAwake(s: State, o: nat, p: nat) returns (u: State)
    requires Inv(s) && s.spin.None? && s.locked && o < |s.ps| && p < |s.ps| && Owner(s.ps[o].pc) && Acquiring(s.ps[p].pc)
    ensures Leads(s, u) && Inv(u) && |u.ps| == |s.ps| && u.spin.None? && u.locked && u.ps[p] == s.ps[p]
    ensures u.ps[o].pc == s.ps[o].pc && !u.ps[o].sleeping && o != p
  {
    assert Fine(s, o) && Fine(s, p);
    LeadsSelf(s);
    u := s;
    if s.ps[o].sleeping {
      u := Apply(s, WakeElsewhere(o));
      LeadsStep(s, WakeElsewhere(o));
      StepInv(s, WakeElsewhere(o));
    }
  }

  /** With the lock and lk->lk free, a process on its way takes both. */
  lemma {:induction false} LockTaken(s: State, p: nat) returns (t: State)
    requires Inv(s) && s.spin.None? && !s.locked && p < |s.ps| && Acquiring(s.ps[p].pc)
    ensures Leads(s, t) && Inv(t) && p < |t.ps| && t.ps[p].pc.Holds?
  {
    LeadsSelf(s);
    assert Fine(s, p);
    t := s;
    if t.ps[p].pc.Sched? {
      t := Then(s, t, p);
    }
    if t.ps[p].pc.Gone? {
      t := Then(s, t, p);
    }
    if t.ps[p].pc.Wake? {
      t := Then(s, t, p);
    }
    t := Then(s, t, p);
    t := Then(s, t, p);
    t := Then(s, t, p);
  }

  /** A process in acquiresleep can get the lock. */
  lemma {:induction false} Acquires(s: State, p: nat) returns (t: State)
    requires Inv(s) && p < |s.ps| && Acquiring(s.ps[p].pc)
    ensures Leads(s, t) && Inv(t) && p < |t.ps| && t.ps[p].pc.Holds?
  {
    t := SpinFreed(s);
    if !t.ps[p].pc.Holds? {
      var u := LockFreed(t, p);
      LeadsTrans(s, t, u);
      t := LockTaken(u, p);
      LeadsTrans(s, u, t);
    }
  }

  /** From every state of every run, a process can call acquiresleep, or go on in it, and get the lock. */
  lemma {:induction false} LockCanBeTaken(n: nat, es: seq<Event>, s: State, p: nat) returns (t: State)
    requires Reached(n, es, s) && p < |s.ps| && (Acquiring(s.ps[p].pc) || (s.ps[p].pc.Out? && !s.ps[p].sleeping))
    ensures Leads(s, t) && p < |t.ps| && t.ps[p].pc.Holds? && t.locked && t.pid == p + 1
  {
    ReachedInv(n, es, s);
    LeadsSelf(s);
    var u := s;
    if s.ps[p].pc.Out? {
      u := Then(s, s, p);
    }
    t := Acquires(u, p);
    LeadsTrans(s, u, t);
    assert Fine(t, p);
  }
}
