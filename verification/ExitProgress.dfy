/** What can always still happen to processes: from every state that any run can reach, wait_lock can be
    given up, an exit can finish, and a wait can collect a zombie child.  No step here is a kill, so the
    locks are taken in an order that cannot deadlock. */
module ExitProgress {
  import opened Common
  import opened ExitWait

  /** Some schedule without kills leads from `s` to `t`. */
  ghost predicate Leads(s: State, t: State) { exists es :: Path(s, es, t) }

  ghost predicate Path(s: State, es: seq<Event>, t: State)
  {
    Runs(s, es) && Run(s, es) == t && forall i | 0 <= i < |es| :: !es[i].Kill?
  }

  lemma LeadsSelf(s: State)
    ensures Leads(s, s)
  {
    assert Path(s, [], s);
  }

  lemma {:induction false} RunConcat(s: State, xs: seq<Event>, ys: seq<Event>)
    requires Runs(s, xs) && Runs(Run(s, xs), ys)
    ensures Runs(s, xs + ys) && Run(s, xs + ys) == Run(Run(s, xs), ys)
    decreases |xs|
  {
    hide Enabled, Apply;
    if xs == [] {
      assert xs + ys == ys;
    } else {
      RunConcat(Apply(s, xs[0]), xs[1..], ys);
      assert (xs + ys)[0] == xs[0] && (xs + ys)[1..] == xs[1..] + ys;
    }
  }

  lemma {:induction false} LeadsTrans(s: State, t: State, u: State)
    requires Leads(s, t) && Leads(t, u)
    ensures Leads(s, u)
  {
    var xs :| Path(s, xs, t);
    var ys :| Path(t, ys, u);
    RunConcat(s, xs, ys);
    assert Path(s, xs + ys, u);
  }

  lemma {:induction false} LeadsStep(s: State, e: Event)
    requires Enabled(s, e) && !e.Kill?
    ensures Leads(s, Apply(s, e))
  {
    hide Enabled, Apply;
    assert [e][1..] == [] && Runs(Apply(s, e), []) && Run(Apply(s, e), []) == Apply(s, e);
    assert Runs(s, [e]) && Run(s, [e]) == Apply(s, e);
    assert Path(s, [e], Apply(s, e));
  }

  /** The state is one that runs can reach, as far as the invariant goes. */
  ghost predicate Good(s: State) { Tables(s) && Pids(s) }

  /** One more step. */
  lemma {:induction false} Then(s: State, t: State, e: Event) returns (u: State)
    requires Leads(s, t) && Good(t) && Enabled(t, e) && !e.Kill?
    ensures u == Apply(t, e) && Leads(s, u) && Good(u) && |u.ps| == |t.ps|
  {
    u := Apply(t, e);
    TablesStep(t, e);
    assert Slots(t);
    hide Enabled, Apply, Tables, Pids, Slots;
    PidsStep(t, e);
    LeadsStep(t, e);
    LeadsTrans(s, t, u);
  }

  // ---------------------------------------------------------------------------
  // wait_lock is given up
  // ---------------------------------------------------------------------------

  /** How many steps the process with wait_lock takes at most before it gives it up. */
  function WaitRank(pc: Pc, n: nat): nat
  {
    match pc
    case ForkSet(_) => 2
    case ForkDrop(_) => 1
    case Reparent(j) => if j < n then 5 + 2 * (n - j) else 5
    case WakeInit(j) => if j < n then 4 + 2 * (n - j) else 6
    case WakeParent => 4
    case ExitLock => 3
    case ExitZombie => 2
    case ExitDrop => 1
    case Scan(j, _) => if j < n then 3 + (n - j) else 3
    case Enter => 2
    case Drop => 1
    case _ => 0
  }

  /** How many steps a process without wait_lock takes before it gives up its own lock. */
  function OwnRank(pc: Pc): nat
  {
    match pc
    case Mark => 3
    case Doze => 2
    case Sched => 1
    case Wake => 1
    case Dying => 1
    case _ => 0
  }

  /** The slot whose lock the next step of `h` needs. */
  function Needs(s: State, h: nat): Option<nat>
    requires h < |s.ps|
  {
    match s.ps[h].pc
    case WakeInit(_) => Some(0)
    case WakeParent => s.ps[h].parent
    case Scan(j, _) => if j < |s.ps| && s.ps[j].parent == Some(h) then Some(j) else None
    case _ => None
  }

  /** The process that `h` is waiting for, if any. */
  function Blocker(s: State, h: nat): Option<nat>
    requires h < |s.ps|
  {
    if Needs(s, h).Some? && Needs(s, h).value < |s.ps| && OwnLock(s.ps[Needs(s, h).value].pc) then Needs(s, h) else None
  }

  function BlockRank(s: State, h: nat): nat
    requires h < |s.ps|
  {
    if Blocker(s, h).Some? then OwnRank(s.ps[Blocker(s, h).value].pc) else 0
  }

  /** The process that the one with wait_lock waits for can take its next step, and holds neither
      wait_lock nor the lock of an unfinished child. */
  lemma BlockerReady(s: State, h: nat)
    requires Tables(s) && s.wait == Some(h) && h < |s.ps| && Blocker(s, h).Some?
    ensures var x := Blocker(s, h).value; x != h && Ready(s, x) && OwnRank(s.ps[x].pc) > 0
  {
    var x := Blocker(s, h).value;
    assert Fine(s.wait, h, s.ps[h]) && Fine(s.wait, x, s.ps[x]);
    if s.ps[h].pc.WakeParent? {
      assert Family(s, h);
    } else if s.ps[h].pc.Scan? {
      assert Family(s, x);
    } else {
      assert Fine(s.wait, 0, s.ps[0]);
    }
  }

  lemma HolderReady(s: State, h: nat)
    requires Slots(s) && s.wait == Some(h) && h < |s.ps| && Blocker(s, h).None?
    ensures Ready(s, h)
  {
    assert Fine(s.wait, h, s.ps[h]);
  }

  /** Outside these functions, or waiting for wait_lock. */
  predicate Resting(pc: Pc) { pc.Out? || pc.ForkWant? || pc.ExitWant? || pc.WaitWant? }

  predicate ZombieOf(q: Slot, p: nat) { q.life.Zombie? && q.parent == Some(p) }

  /** A process at rest stays where it is and is not put to sleep. */
  predicate Rests(q: Slot, r: Slot)
  {
    r.pc == q.pc && r.killed == q.killed && r.xstate == q.xstate && r.pid == q.pid && (r.sleeping ==> q.sleeping)
  }

  /** What is a child of `p` stays what it is; none is added, but for those init inherits. */
  predicate Child(q: Slot, r: Slot, p: nat)
  {
    && (ZombieOf(q, p) ==> ZombieOf(r, p) && r.pid == q.pid && r.xstate == q.xstate)
    && (r.parent == Some(p) ==> q.parent == Some(p) || p == 0)
    && (q.parent == Some(p) && Resting(q.pc) ==> r.parent == Some(p))
    && (q.pc == Made(p) && q.parent == None ==> r == q)
  }

  /** What steps on the way to giving up wait_lock do not undo. */
  predicate Onward(s: State, t: State)
  {
    && |t.ps| == |s.ps| && s.reaps <= t.reaps && s.nextpid == t.nextpid
    && (forall p | 0 <= p < |s.ps| && Resting(s.ps[p].pc) :: Rests(s.ps[p], t.ps[p]))
    && (forall c, p | 0 <= c < |s.ps| && 0 <= p < |s.ps| && Resting(s.ps[p].pc) :: Child(s.ps[c], t.ps[c], p))
  }

  lemma OnwardTrans(s: State, t: State, u: State)
    requires Onward(s, t) && Onward(t, u)
    ensures Onward(s, u)
  {
  }

  lemma OnwardRefl(s: State)
    ensures Onward(s, s)
  {
  }

  lemma StepRests(s: State, r: nat, p: nat)
    requires Tables(s) && r < |s.ps| && Ready(s, r) && p < |s.ps| && p != r && Resting(s.ps[p].pc)
    ensures var t := Apply(s, Go(r)); |t.ps| == |s.ps| && Rests(s.ps[p], t.ps[p])
  {
    var e, ch := Go(r), Effect(s, Go(r));
    assert FineBefore(s, r, ch) && Nest(s, r) && Fine(s.wait, p, s.ps[p]);
    EffectKin(s, e);
    GoOther(s, r);
    hide Tables, Slots, Effect, Nest, FineBefore, Ready;
  }

  lemma StepChild(s: State, r: nat, c: nat, p: nat)
    requires Tables(s) && r < |s.ps| && Ready(s, r) && c < |s.ps| && p < |s.ps| && p != r
    ensures var t := Apply(s, Go(r)); |t.ps| == |s.ps| && Child(s.ps[c], t.ps[c], p)
  {
    var ch := Effect(s, Go(r));
    assert FineBefore(s, r, ch) && Nest(s, r) && Fine(s.wait, c, s.ps[c]);
    EffectKin(s, Go(r));
    GoOther(s, r);
    GoSelf(s, r);
    hide Tables, Slots, Effect, Nest, FineBefore, Ready;
  }

  /** A step of process `r` that is not itself at rest. */
  lemma StepOnward(s: State, r: nat)
    requires Tables(s) && r < |s.ps| && Ready(s, r) && !Resting(s.ps[r].pc)
    ensures Enabled(s, Go(r)) && Onward(s, Apply(s, Go(r)))
  {
    var t := Apply(s, Go(r));
    assert |t.ps| == |s.ps| && s.reaps <= t.reaps && s.nextpid == t.nextpid by { hide Tables, Effect, Ready; }
    hide Tables, Ready, Apply, Child, Rests;
    forall p | 0 <= p < |s.ps| && Resting(s.ps[p].pc) ensures Rests(s.ps[p], t.ps[p]) {
      StepRests(s, r, p);
    }
    forall c, p | 0 <= c < |s.ps| && 0 <= p < |s.ps| && Resting(s.ps[p].pc) ensures Child(s.ps[c], t.ps[c], p) {
      StepChild(s, r, c, p);
    }
  }

  /** What a step does to another slot: a live process keeps its place and identity, a zombie is taken
      by its parent only, and a slot being set up belongs to its maker. */
  lemma GoOther(s: State, r: nat)
    requires r < |s.ps| && Ready(s, r) && Nest(s, r) && FineBefore(s, r, Effect(s, Go(r)))
    ensures var ch := Effect(s, Go(r));
            ch.x < |s.ps| && ch.x != r ==>
              && (s.ps[ch.x].life.Alive? ==> && ch.other.killed == s.ps[ch.x].killed && ch.other.xstate == s.ps[ch.x].xstate
                                             && ch.other.pid == s.ps[ch.x].pid && (ch.other.sleeping ==> s.ps[ch.x].sleeping))
              && (s.ps[ch.x].life.Alive? && ch.other.parent != s.ps[ch.x].parent ==> s.ps[ch.x].parent == Some(r))
              && (s.ps[ch.x].life.Zombie? && s.ps[ch.x].parent != Some(r) ==> ch.other == Woken(s.ps[ch.x]))
              && (s.ps[ch.x].pc.Made? && s.ps[ch.x].parent == None && s.ps[ch.x].pc.maker != r ==>
                    ch.other == Woken(s.ps[ch.x]))
              && (s.ps[ch.x].pc.Made? ==> !s.ps[ch.x].sleeping)
  {
  }

  lemma GoSelf(s: State, r: nat)
    requires r < |s.ps| && Ready(s, r) && FineBefore(s, r, Effect(s, Go(r)))
    ensures var me := Effect(s, Go(r)).me;
            && me.parent == s.ps[r].parent && me.pid == s.ps[r].pid && me.xstate == s.ps[r].xstate
            && (s.ps[r].life.Zombie? ==> me.life.Zombie?) && !s.ps[r].pc.Made?
  {
  }

  predicate SameId(q: Slot, r: Slot) { r.pid == q.pid && r.xstate == q.xstate && r.parent == q.parent }

  /** The process with wait_lock steps: it comes nearer to giving it up. */
  lemma HolderStep(s: State, h: nat)
    requires Slots(s) && s.wait == Some(h) && h < |s.ps| && Ready(s, h)
    ensures var t := Apply(s, Go(h));
            && |t.ps| == |s.ps| && (t.wait.None? || t.wait == s.wait)
            && (t.wait.Some? ==> WaitRank(t.ps[h].pc, |s.ps|) < WaitRank(s.ps[h].pc, |s.ps|))
            && (InExit(s.ps[h].pc) ==> InExit(t.ps[h].pc) && (t.wait.None? ==> t.ps[h].pc.Dying?) && SameId(s.ps[h], t.ps[h]))
            && (KilledScan(s.ps[h]) ==> if t.wait.None? then t.ps[h].pc.Out? else KilledScan(t.ps[h]))
  {
    assert Fine(s.wait, h, s.ps[h]) && Nest(s, h);
  }

  predicate KilledScan(q: Slot) { q.pc.Scan? && q.killed }

  /** In the scan of wait, with a zombie child ahead: it finds one, or leaves this one ahead. */
  lemma ScanStep1(s: State, h: nat, c: nat)
    requires Tables(s) && s.wait == Some(h) && h < |s.ps| && Ready(s, h) && s.ps[h].pc.Scan?
    requires c < |s.ps| && c != h && ZombieOf(s.ps[c], h)
    ensures var t := Apply(s, Go(h));
            && |t.ps| == |s.ps|
            && (t.wait.Some? ==> t.ps[h].pc.Scan? && t.ps[c] == s.ps[c] && t.reaps == s.reaps && SameFamily(s, t))
            && (t.wait.None? ==> Collected(s, t, h))
  {
    assert Fine(s.wait, h, s.ps[h]) && Heard(s, c);
  }

  predicate SameFamily(s: State, t: State)
  {
    |t.ps| == |s.ps| && forall d | 0 <= d < |s.ps| :: t.ps[d].parent == s.ps[d].parent
  }

  /** From `s` to `t`, wait has returned a zombie child to `h`, with its status, and freed it. */
  predicate Collected(s: State, t: State, h: nat)
  {
    exists c ::
      && 0 <= c < |s.ps| && ZombieOf(s.ps[c], h) && t.reaps == s.reaps + [Reap(s.ps[c].pid, s.ps[c].xstate, h)]
      && c < |t.ps| && t.ps[c].life.Unused?
  }

  /** The process that is waited for steps: it comes nearer to giving up its own lock. */
  lemma BlockStep(s: State, h: nat, x: nat)
    requires Tables(s) && s.wait == Some(h) && h < |s.ps| && Blocker(s, h) == Some(x) && Ready(s, x) && x != h
    requires OwnRank(s.ps[x].pc) > 0
    ensures var t := Apply(s, Go(x));
            && |t.ps| == |s.ps| && t.wait == s.wait && t.ps[h] == s.ps[h] && t.reaps == s.reaps
            && BlockRank(t, h) < BlockRank(s, h) && SameFamily(s, t)
            && forall c, p | 0 <= c < |s.ps| && ZombieOf(s.ps[c], p) :: ZombieOf(t.ps[c], p) && t.ps[c].pid == s.ps[c].pid
                                                                        && t.ps[c].xstate == s.ps[c].xstate
  {
    assert Fine(s.wait, x, s.ps[x]) && Fine(s.wait, h, s.ps[h]);
  }

  /** The rank of the state: how far the process with wait_lock is from giving it up. */
  function Rank(s: State): nat
  {
    if s.wait.Some? && s.wait.value < |s.ps| then WaitRank(s.ps[s.wait.value].pc, |s.ps|) + 1 else 0
  }

  function SubRank(s: State): nat
  {
    if s.wait.Some? && s.wait.value < |s.ps| then BlockRank(s, s.wait.value) else 0
  }

  /** A zombie child is ahead of the scan of the process with wait_lock. */
  predicate Ahead(s: State, c: nat)
  {
    && s.wait.Some? && s.wait.value < |s.ps| && s.ps[s.wait.value].pc.Scan?
    && c < |s.ps| && c != s.wait.value && ZombieOf(s.ps[c], s.wait.value)
  }

  /** The step that brings the release of wait_lock nearer. */
  lemma {:induction false} NextStep(s: State) returns (t: State)
    requires Good(s) && s.wait.Some?
    ensures Leads(s, t) && Good(t) && Onward(s, t) && (t.wait.None? || t.wait == s.wait)
    ensures Rank(t) < Rank(s) || (Rank(t) == Rank(s) && SubRank(t) < SubRank(s))
    ensures var h := s.wait.value;
            && h < |s.ps|
            && (InExit(s.ps[h].pc) ==> InExit(t.ps[h].pc) && (t.wait.None? ==> t.ps[h].pc.Dying?) && SameId(s.ps[h], t.ps[h]))
            && (KilledScan(s.ps[h]) ==> if t.wait.None? then t.ps[h].pc.Out? else KilledScan(t.ps[h]))
    ensures forall c | 0 <= c < |s.ps| && Ahead(s, c) ::
              if t.wait.Some? then Ahead(t, c) && t.reaps == s.reaps && SameId(s.ps[c], t.ps[c]) && SameFamily(s, t)
              else Collected(s, t, s.wait.value)
  {
    var h := s.wait.value;
    LeadsSelf(s);
    assert Slots(s) && !Resting(s.ps[h].pc) by { assert Fine(s.wait, h, s.ps[h]); }
    if Blocker(s, h).Some? {
      var x := Blocker(s, h).value;
      BlockerReady(s, h);
      BlockStep(s, h, x);
      StepOnward(s, x);
      t := Then(s, s, Go(x));
      hide Good, Onward, Enabled, Apply;
    } else {
      HolderReady(s, h);
      HolderStep(s, h);
      StepOnward(s, h);
      forall c | 0 <= c < |s.ps| && Ahead(s, c)
        ensures var t := Apply(s, Go(h));
                if t.wait.Some? then Ahead(t, c) && t.reaps == s.reaps && SameId(s.ps[c], t.ps[c]) && SameFamily(s, t)
                else Collected(s, t, h)
      {
        ScanStep1(s, h, c);
      }
      t := Then(s, s, Go(h));
      hide Good, Onward, Enabled, Apply;
    }
  }

  /** Slot `c` is the only child of `h`. */
  predicate OnlyChild(s: State, h: nat, c: nat) { forall d | 0 <= d < |s.ps| :: s.ps[d].parent == Some(h) ==> d == c }

  /** wait has returned one more process, to `h`; the only child it can be is `c`. */
  predicate Reaped(s: State, t: State, h: nat, c: nat)
    requires c < |s.ps|
  {
    && |t.reaps| == |s.reaps| + 1 && t.reaps[..|s.reaps|] == s.reaps && t.reaps[|s.reaps|].to == h
    && (OnlyChild(s, h, c) ==> t.reaps[|s.reaps|] == Reap(s.ps[c].pid, s.ps[c].xstate, h))
  }

  lemma ReapedNow(s: State, t: State, h: nat, c: nat)
    requires Collected(s, t, h) && c < |s.ps| && ZombieOf(s.ps[c], h)
    ensures Reaped(s, t, h, c)
  {
  }

  lemma ReapedLater(s: State, u: State, t: State, h: nat, c: nat)
    requires c < |s.ps| == |u.ps| && u.reaps == s.reaps && SameId(s.ps[c], u.ps[c]) && SameFamily(s, u) && Reaped(u, t, h, c)
    ensures Reaped(s, t, h, c)
  {
    assert OnlyChild(s, h, c) ==> OnlyChild(u, h, c);
  }

  /** wait_lock can be given up from every state.  If its holder is in exit, it is past its last use of
      it then; if it is in wait with a zombie child, it has collected one. */
  lemma {:induction false} WaitFreed(s: State) returns (t: State)
    requires Good(s)
    ensures Leads(s, t) && Good(t) && Onward(s, t) && t.wait.None? && (s.wait.None? ==> t == s)
    ensures s.wait.Some? && s.wait.value < |s.ps| && InExit(s.ps[s.wait.value].pc) ==>
              t.ps[s.wait.value].pc.Dying? && SameId(s.ps[s.wait.value], t.ps[s.wait.value])
    ensures s.wait.Some? && s.wait.value < |s.ps| && KilledScan(s.ps[s.wait.value]) ==> t.ps[s.wait.value].pc.Out?
    ensures forall c | 0 <= c < |s.ps| && Ahead(s, c) :: Reaped(s, t, s.wait.value, c)
    decreases Rank(s), SubRank(s)
  {
    LeadsSelf(s);
    OnwardRefl(s);
    if s.wait.None? {
      t := s;
    } else {
      var u := NextStep(s);
      t := WaitFreed(u);
      hide Good, Rank, SubRank;
      LeadsTrans(s, u, t);
      OnwardTrans(s, u, t);
      forall c | 0 <= c < |s.ps| && Ahead(s, c) ensures Reaped(s, t, s.wait.value, c) {
        if u.wait.Some? {
          ReapedLater(s, u, t, s.wait.value, c);
        } else {
          ReapedNow(s, u, s.wait.value, c);
        }
      }
    }
  }

  // ---------------------------------------------------------------------------
  // The theorems
  // ---------------------------------------------------------------------------

  /** The process with wait_lock is in exit: it can finish. */
  lemma {:induction false} ExitHolder(s: State, p: nat) returns (t: State)
    requires Good(s) && p < |s.ps| && s.wait == Some(p) && InExit(s.ps[p].pc)
    ensures Leads(s, t) && Good(t) && Onward(s, t) && t.wait.None?
    ensures t.ps[p].pc.Dead? && t.ps[p].life.Zombie? && SameId(s.ps[p], t.ps[p])
  {
    var u := WaitFreed(s);
    assert Tables(u) && Slots(u) && Fine(u.wait, p, u.ps[p]);
    StepOnward(u, p);
    hide Good;
    t := Then(s, u, Go(p));
    hide Onward;
    OnwardTrans(s, u, t);
  }

  /** A process that waits for wait_lock at the start of exit can finish. */
  lemma {:induction false} ExitStart(s: State, p: nat) returns (t: State)
    requires Good(s) && p < |s.ps| && s.ps[p].pc.ExitWant?
    ensures Leads(s, t) && Good(t) && |t.ps| == |s.ps| && t.wait.None? && t.ps[p].pc.Dead?
    ensures t.ps[p].pid == s.ps[p].pid && t.ps[p].xstate == s.ps[p].xstate
  {
    var u := WaitFreed(s);
    hide Good, Onward;
    var v := ExitLocked(s, u, p);
    t := ExitHolder(v, p);
    LeadsTrans(s, v, t);
    OnwardSize(v, t);
  }

  lemma {:induction false} ExitLocked(s: State, u: State, p: nat) returns (v: State)
    requires Leads(s, u) && Good(u) && Onward(s, u) && p < |s.ps| && s.ps[p].pc.ExitWant? && u.wait.None?
    ensures Leads(s, v) && Good(v) && |v.ps| == |s.ps| && v.wait == Some(p) && InExit(v.ps[p].pc)
    ensures v.ps[p].pid == s.ps[p].pid && v.ps[p].xstate == s.ps[p].xstate
  {
    assert Rests(s.ps[p], u.ps[p]);
    hide Good, Onward;
    v := Then(s, u, Go(p));
  }

  lemma OnwardSize(s: State, t: State)
    requires Onward(s, t)
    ensures |t.ps| == |s.ps|
  {
  }

  /** From every state of every run, a process in exit can finish: it ends as a zombie with the status
      it was given. */
  lemma {:induction false} ExitCanFinish(n: nat, es: seq<Event>, s: State, p: nat) returns (t: State)
    requires Reached(n, es, s) && p < |s.ps| && InExit(s.ps[p].pc)
    ensures Leads(s, t) && |t.ps| == |s.ps| && t.ps[p].pc.Dead?
    ensures t.ps[p].pid == s.ps[p].pid && t.ps[p].xstate == s.ps[p].xstate
  {
    ReachedInv(n, es, s);
    assert Good(s) && Slots(s) && Fine(s.wait, p, s.ps[p]);
    LeadsSelf(s);
    hide Reached, Good, Slots;
    if s.ps[p].pc.ExitWant? {
      t := ExitStart(s, p);
    } else if s.ps[p].pc.Dying? {
      t := Then(s, s, Go(p));
    } else {
      t := ExitHolder(s, p);
    }
  }

  /** From every state of every run, a process outside that has a zombie child can call wait and get one. */
  lemma {:induction false} WaitCanCollect(n: nat, es: seq<Event>, s: State, p: nat, c: nat) returns (t: State)
    requires Reached(n, es, s) && p < |s.ps| && c < |s.ps| && s.ps[p].pc.Out? && !s.ps[p].sleeping && ZombieOf(s.ps[c], p)
    ensures Leads(s, t) && |t.reaps| > |s.reaps| && t.reaps[|t.reaps| - 1].to == p
    ensures p != 0 && OnlyChild(s, p, c) ==> t.reaps[|t.reaps| - 1] == Reap(s.ps[c].pid, s.ps[c].xstate, p)
  {
    ReachedInv(n, es, s);
    assert Good(s);
    hide Reached;
    t := Collects(s, p, c);
  }

  /** In every run, while wait_lock is free, a process in the sleep of wait that has a zombie child can go
      on and get one. */
  lemma {:induction false} SleeperCanCollect(n: nat, es: seq<Event>, s: State, p: nat, c: nat) returns (t: State)
    requires Reached(n, es, s) && s.wait.None? && p < |s.ps| && c < |s.ps| && s.ps[p].pc.Gone? && ZombieOf(s.ps[c], p)
    ensures Leads(s, t) && |t.reaps| > |s.reaps| && t.reaps[|t.reaps| - 1].to == p
    ensures p != 0 && OnlyChild(s, p, c) ==> t.reaps[|t.reaps| - 1] == Reap(s.ps[c].pid, s.ps[c].xstate, p)
  {
    NoSleepingParent(n, es, s, c);
    ReachedInv(n, es, s);
    assert Good(s) && Family(s, c) && Slots(s) && Fine(s.wait, p, s.ps[p]);
    hide Reached, Good, Slots, Family;
    var u := WakesUp(s, p, c);
    hide Leads, ZombieOf, SameId, SameFamily, OnlyChild;
    t := CollectsFrom(s, u, p, c);
  }

  lemma {:induction false} WakesUp(s: State, p: nat, c: nat) returns (u: State)
    requires Good(s) && p < |s.ps| && c < |s.ps| && s.ps[p].pc.Gone? && !s.ps[p].sleeping && c != p && ZombieOf(s.ps[c], p)
    ensures Leads(s, u) && Good(u) && |u.ps| == |s.ps| && u.ps[p].pc.WaitWant? && ZombieOf(u.ps[c], p)
    ensures u.reaps == s.reaps && SameId(s.ps[c], u.ps[c]) && SameFamily(s, u)
  {
    LeadsSelf(s);
    NapsEnd(s, p);
    hide Good, Apply, Enabled;
    var m := Then(s, s, Go(p));
    u := Then(s, m, Go(p));
  }

  /** Roused, a process in the sleep of wait goes back to waiting for wait_lock. */
  lemma NapsEnd(s: State, p: nat)
    requires p < |s.ps| && s.ps[p].pc.Gone? && !s.ps[p].sleeping
    ensures Enabled(s, Go(p))
    ensures var m := Apply(s, Go(p));
            && Enabled(m, Go(p))
            && Apply(m, Go(p)) == s.(ps := s.ps[p := s.ps[p].(pc := WaitWant, chan := NoChan)])
  {
    var m := Apply(s, Go(p));
    assert m == s.(ps := s.ps[p := s.ps[p].(pc := Wake)]);
    assert Apply(m, Go(p)).ps == s.ps[p := s.ps[p].(pc := WaitWant, chan := NoChan)];
  }

  /** In wait, without wait_lock. */
  predicate Waiting(pc: Pc) { pc.WaitWant? || pc.Mark? || pc.Doze? || pc.Sched? || pc.Gone? || pc.Wake? }

  /** In every run, while wait_lock is free, a kill gets a process out of wait: there is a point from which
      it can be killed and return. */
  lemma {:induction false} KillEndsWait(n: nat, es: seq<Event>, s: State, p: nat) returns (u: State, t: State)
    requires Reached(n, es, s) && s.wait.None? && p < |s.ps| && Waiting(s.ps[p].pc)
    ensures Leads(s, u) && Enabled(u, Kill(p)) && Leads(Apply(u, Kill(p)), t) && p < |t.ps| && t.ps[p].pc.Out?
  {
    ReachedInv(n, es, s);
    assert Good(s);
    hide Reached, Good;
    LeadsSelf(s);
    u := Settles(s, s, p);
    KillIs(u, p);
    var k := Apply(u, Kill(p));
    LeadsSelf(k);
    assert Good(k) by { GoodStep(u, Kill(p)); }
    hide Enabled, Apply;
    var w := Resumes(k, p);
    hide Leads;
    t := WaitFreed(w);
    LeadsTrans(k, w, t);
  }

  lemma GoodStep(s: State, e: Event)
    requires Good(s) && Enabled(s, e)
    ensures Good(Apply(s, e))
  {
    hide Enabled, Apply;
    TablesStep(s, e);
    PidsStep(s, e);
  }

  lemma KillIs(s: State, p: nat)
    requires p < |s.ps| && (s.ps[p].pc.WaitWant? || s.ps[p].pc.Gone?)
    ensures Enabled(s, Kill(p)) && Apply(s, Kill(p)) == s.(ps := s.ps[p := s.ps[p].(killed := true, sleeping := false)])
  {
  }

  /** A process on its way to sleep gets there, one on its way back waits for wait_lock. */
  lemma {:induction false} Settles(s: State, t: State, p: nat) returns (u: State)
    requires Leads(s, t) && Good(t) && t.wait.None? && p < |t.ps| && Waiting(t.ps[p].pc)
    ensures Leads(s, u) && Good(u) && |u.ps| == |t.ps| && u.wait.None? && (u.ps[p].pc.WaitWant? || u.ps[p].pc.Gone?)
    decreases OwnRank(t.ps[p].pc)
  {
    hide Good;
    if t.ps[p].pc.WaitWant? || t.ps[p].pc.Gone? {
      u := t;
    } else {
      NapIs(t, p);
      hide Apply, Enabled;
      var m := Then(s, t, Go(p));
      u := Settles(s, m, p);
    }
  }

  lemma NapIs(t: State, p: nat)
    requires p < |t.ps| && Waiting(t.ps[p].pc) && !t.ps[p].pc.WaitWant? && !t.ps[p].pc.Gone?
    ensures Enabled(t, Go(p))
    ensures var m := Apply(t, Go(p));
            && |m.ps| == |t.ps| && m.wait == t.wait && Waiting(m.ps[p].pc) && OwnRank(m.ps[p].pc) < OwnRank(t.ps[p].pc)
  {
  }

  /** Killed and awake, it takes wait_lock and begins a scan. */
  lemma {:induction false} Resumes(s: State, p: nat) returns (t: State)
    requires Good(s) && s.wait.None? && p < |s.ps| && s.ps[p].killed && !s.ps[p].sleeping
    requires s.ps[p].pc.WaitWant? || s.ps[p].pc.Gone?
    ensures Leads(s, t) && Good(t) && t.wait == Some(p) && p < |t.ps| && KilledScan(t.ps[p])
  {
    LeadsSelf(s);
    hide Good, Apply, Enabled;
    t := s;
    if s.ps[p].pc.Gone? {
      NapsEnd(s, p);
      var m := Then(s, s, Go(p));
      t := Then(s, m, Go(p));
    }
    TakesWait(t, p);
    t := Then(s, t, Go(p));
  }

  lemma {:induction false} Collects(s: State, p: nat, c: nat) returns (t: State)
    requires Good(s) && p < |s.ps| && c < |s.ps| && s.ps[p].pc.Out? && !s.ps[p].sleeping && ZombieOf(s.ps[c], p)
    ensures Leads(s, t) && Good(t) && |t.reaps| > |s.reaps| && t.reaps[|t.reaps| - 1].to == p
    ensures p != 0 && OnlyChild(s, p, c) ==> t.reaps[|t.reaps| - 1] == Reap(s.ps[c].pid, s.ps[c].xstate, p)
  {
    var u := CallsWait(s, p, c);
    hide Good, Leads, ZombieOf, SameId, SameFamily, OnlyChild;
    t := CollectsFrom(s, u, p, c);
  }

  /** Waiting for wait_lock in wait, a process with a zombie child gets one. */
  lemma {:induction false} CollectsFrom(s: State, u: State, p: nat, c: nat) returns (t: State)
    requires Leads(s, u) && Good(u) && p < |s.ps| == |u.ps| && c < |s.ps| && u.ps[p].pc.WaitWant? && c != p
    requires ZombieOf(u.ps[c], p) && u.reaps == s.reaps && SameId(s.ps[c], u.ps[c]) && SameFamily(s, u)
    ensures Leads(s, t) && Good(t) && |t.reaps| > |s.reaps| && t.reaps[|t.reaps| - 1].to == p
    ensures p != 0 && OnlyChild(s, p, c) ==> t.reaps[|t.reaps| - 1] == Reap(s.ps[c].pid, s.ps[c].xstate, p)
  {
    hide Good, Onward, Leads, Ahead, ZombieOf, SameId, SameFamily, OnlyChild;
    var v := WaitFreed(u);
    LeadsTrans(s, u, v);
    var w := ScanStarts(s, u, v, p, c);
    t := WaitFreed(w);
    LeadsTrans(s, w, t);
    LastReap(s, w, t, p, c);
  }

  lemma LastReap(s: State, w: State, t: State, p: nat, c: nat)
    requires c < |s.ps| == |w.ps| && Reaped(w, t, p, c) && s.reaps <= w.reaps
    requires w.ps[c].pid == s.ps[c].pid && w.ps[c].xstate == s.ps[c].xstate
    ensures |t.reaps| > |s.reaps| && t.reaps[|t.reaps| - 1].to == p
    ensures OnlyChild(w, p, c) ==> t.reaps[|t.reaps| - 1] == Reap(s.ps[c].pid, s.ps[c].xstate, p)
  {
    hide OnlyChild;
  }

  lemma {:induction false} CallsWait(s: State, p: nat, c: nat) returns (u: State)
    requires Good(s) && p < |s.ps| && c < |s.ps| && s.ps[p].pc.Out? && !s.ps[p].sleeping && ZombieOf(s.ps[c], p)
    ensures Leads(s, u) && Good(u) && |u.ps| == |s.ps| && u.ps[p].pc.WaitWant? && c != p && ZombieOf(u.ps[c], p)
    ensures u.reaps == s.reaps && SameId(s.ps[c], u.ps[c]) && SameFamily(s, u)
  {
    LeadsSelf(s);
    assert Family(s, c);
    u := Then(s, s, Wait(p));
    hide Good, Family;
  }

  lemma {:induction false} ScanStarts(s: State, u: State, v: State, p: nat, c: nat) returns (w: State)
    requires Leads(s, v) && Good(v) && Onward(u, v) && v.wait.None? && p < |u.ps| && c < |u.ps| && u.ps[p].pc.WaitWant?
    requires c != p && ZombieOf(u.ps[c], p) && |s.ps| == |u.ps| && u.reaps == s.reaps && SameId(s.ps[c], u.ps[c])
    requires SameFamily(s, u)
    ensures Leads(s, w) && Good(w) && |w.ps| == |s.ps| && w.wait == Some(p) && Ahead(w, c) && s.reaps <= w.reaps
    ensures w.ps[c].pid == s.ps[c].pid && w.ps[c].xstate == s.ps[c].xstate
    ensures p != 0 && OnlyChild(s, p, c) ==> OnlyChild(w, p, c)
  {
    assert Rests(u.ps[p], v.ps[p]) && Child(u.ps[c], v.ps[c], p) && u.reaps <= v.reaps && |v.ps| == |u.ps|;
    if p != 0 && OnlyChild(s, p, c) {
      StillOnly(s, u, v, p, c);
    }
    TakesWait(v, p);
    hide Good, Onward, Apply, Enabled;
    w := Then(s, v, Go(p));
  }

  lemma TakesWait(v: State, p: nat)
    requires p < |v.ps| && v.ps[p].pc.WaitWant? && v.wait.None?
    ensures Enabled(v, Go(p))
    ensures Apply(v, Go(p)) == v.(ps := v.ps[p := v.ps[p].(pc := Scan(0, false))], wait := Some(p))
  {
  }

  lemma StillOnly(s: State, u: State, v: State, p: nat, c: nat)
    requires Onward(u, v) && p != 0 && OnlyChild(s, p, c) && SameFamily(s, u) && p < |u.ps| && Resting(u.ps[p].pc)
    ensures OnlyChild(v, p, c)
  {
    forall d | 0 <= d < |v.ps| && v.ps[d].parent == Some(p) ensures d == c {
      assert Child(u.ps[d], v.ps[d], p) && u.ps[d].parent == s.ps[d].parent;
    }
  }

  // --- fork, exit and wait together ---

  /** fork up to the wait for wait_lock. */
  lemma {:induction false} ForkStarts(s: State, p: nat, np: nat) returns (t: State)
    requires Good(s) && p < |s.ps| && np < |s.ps| && s.ps[p].pc.Out? && !s.ps[p].sleeping && s.ps[np].pc.Free?
    ensures Leads(s, t) && Good(t) && p != np && |t.ps| == |s.ps| && t.reaps == s.reaps && t.nextpid == s.nextpid + 1
    ensures t.ps[p] == s.ps[p].(pc := ForkWant(np))
    ensures t.ps[np].pc == Made(p) && t.ps[np].parent == None && t.ps[np].pid == s.nextpid && !t.ps[np].sleeping
    ensures forall c | 0 <= c < |s.ps| && c != p && c != np :: t.ps[c] == s.ps[c]
  {
    LeadsSelf(s);
    assert Slots(s) && Fine(s.wait, np, s.ps[np]);
    var u := Then(s, s, Fork(p, np));
    hide Good, Slots;
    t := Then(s, u, Go(p));
  }

  /** The rest of fork. */
  lemma {:induction false} ForkEnds(s: State, p: nat, np: nat) returns (t: State)
    requires Good(s) && p < |s.ps| && np < |s.ps| && s.wait.None? && s.ps[p].pc == ForkWant(np) && p != np
    requires s.ps[np].pc == Made(p) && s.ps[np].parent == None
    ensures Leads(s, t) && Good(t) && |t.ps| == |s.ps| && t.wait.None? && t.reaps == s.reaps && t.nextpid == s.nextpid
    ensures t.ps[p] == s.ps[p].(pc := Out) && t.ps[np] == s.ps[np].(pc := Out, life := Alive, parent := Some(p))
    ensures forall c | 0 <= c < |s.ps| && c != p && c != np :: t.ps[c] == s.ps[c]
  {
    LeadsSelf(s);
    hide Good, Enabled, Apply;
    ForkTakes(s, p, np);
    var u := Then(s, s, Go(p));
    ForkSets(u, p, np);
    var v := Then(s, u, Go(p));
    ForkDrops(v, p, np);
    var w := Then(s, v, Go(p));
    ForkRuns(w, p, np);
    t := Then(s, w, Go(p));
  }

  lemma ForkTakes(s: State, p: nat, np: nat)
    requires p < |s.ps| && s.wait.None? && s.ps[p].pc == ForkWant(np)
    ensures Enabled(s, Go(p))
    ensures Apply(s, Go(p)) == s.(ps := s.ps[p := s.ps[p].(pc := ForkSet(np))], wait := Some(p))
  {
  }

  lemma ForkSets(s: State, p: nat, np: nat)
    requires p < |s.ps| && np < |s.ps| && p != np && s.ps[p].pc == ForkSet(np)
    ensures Enabled(s, Go(p))
    ensures Apply(s, Go(p))
            == s.(ps := s.ps[np := s.ps[np].(parent := Some(p))][p := s.ps[p].(pc := ForkDrop(np))])
  {
  }

  lemma ForkDrops(s: State, p: nat, np: nat)
    requires p < |s.ps| && s.ps[p].pc == ForkDrop(np)
    ensures Enabled(s, Go(p))
    ensures Apply(s, Go(p)) == s.(ps := s.ps[p := s.ps[p].(pc := ForkRun(np))], wait := None)
  {
  }

  lemma ForkRuns(s: State, p: nat, np: nat)
    requires p < |s.ps| && np < |s.ps| && p != np && s.ps[p].pc == ForkRun(np) && s.ps[np].pc == Made(p)
    ensures Enabled(s, Go(p))
    ensures Apply(s, Go(p))
            == s.(ps := s.ps[np := s.ps[np].(pc := Out, life := Alive)][p := s.ps[p].(pc := Out)])
  {
  }

  predicate NoChild(s: State, p: nat) { forall d | 0 <= d < |s.ps| :: s.ps[d].parent != Some(p) }

  /** A fork can finish: the child is alive, its parent is the caller, and its pid is new. */
  lemma {:induction false} ForkDone(s: State, p: nat, np: nat) returns (t: State)
    requires Good(s) && p < |s.ps| && np < |s.ps| && s.ps[p].pc.Out? && !s.ps[p].sleeping && s.ps[np].pc.Free?
    ensures Leads(s, t) && Good(t) && |t.ps| == |s.ps| && t.wait.None? && s.reaps <= t.reaps && p != np
    ensures t.ps[p].pc.Out? && !t.ps[p].sleeping
    ensures t.ps[np].pc.Out? && !t.ps[np].sleeping && t.ps[np].parent == Some(p) && t.ps[np].pid == s.nextpid
    ensures p != 0 && NoChild(s, p) ==> OnlyChild(t, p, np)
  {
    hide Good, Onward, Leads;
    var u := ForkStarts(s, p, np);
    var v := WaitFreed(u);
    OnwardAt(u, v, np, p);
    if p != 0 && NoChild(s, p) {
      StillNone(u, v, p);
    }
    LeadsTrans(s, u, v);
    t := ForkEnds(v, p, np);
    LeadsTrans(s, v, t);
  }

  lemma OnwardAt(s: State, t: State, c: nat, p: nat)
    requires Onward(s, t) && c < |s.ps| && p < |s.ps| && Resting(s.ps[p].pc)
    ensures |t.ps| == |s.ps| && s.reaps <= t.reaps && Rests(s.ps[p], t.ps[p]) && Child(s.ps[c], t.ps[c], p)
  {
  }

  lemma StillNone(u: State, v: State, p: nat)
    requires Onward(u, v) && p != 0 && NoChild(u, p) && p < |u.ps| && Resting(u.ps[p].pc)
    ensures NoChild(v, p)
  {
    forall d | 0 <= d < |v.ps| ensures v.ps[d].parent != Some(p) {
      assert Child(u.ps[d], v.ps[d], p);
    }
  }

  /** The whole life of a child, possible from every state of every run: `p` forks it, it exits with
      `status`, and `p` gets its pid and that status from wait. */
  lemma {:induction false} ChildCanBeReaped(n: nat, es: seq<Event>, s: State, p: nat, np: nat, status: int)
    returns (t: State)
    requires Reached(n, es, s) && p < |s.ps| && np < |s.ps| && s.ps[p].pc.Out? && !s.ps[p].sleeping
    requires s.ps[np].pc.Free? && p != 0 && np != 0 && NoChild(s, p)
    ensures Leads(s, t) && t.reaps != [] && t.reaps[|t.reaps| - 1] == Reap(s.nextpid, status, p)
  {
    ReachedInv(n, es, s);
    assert Good(s);
    hide Reached, Good;
    var u := ForkDone(s, p, np);
    var v := ChildExits(u, p, np, status);
    LeadsTrans(s, u, v);
    t := Collects(v, p, np);
    LeadsTrans(s, v, t);
  }

  lemma {:induction false} ChildExits(s: State, p: nat, c: nat, status: int) returns (t: State)
    requires Good(s) && p < |s.ps| && c < |s.ps| && p != c && c != 0 && p != 0 && s.wait.None?
    requires s.ps[p].pc.Out? && !s.ps[p].sleeping && s.ps[c].pc.Out? && !s.ps[c].sleeping
    requires s.ps[c].parent == Some(p) && OnlyChild(s, p, c)
    ensures Leads(s, t) && Good(t) && |t.ps| == |s.ps| && t.ps[p].pc.Out? && !t.ps[p].sleeping && OnlyChild(t, p, c)
    ensures ZombieOf(t.ps[c], p) && t.ps[c].pid == s.ps[c].pid && t.ps[c].xstate == status
  {
    LeadsSelf(s);
    hide Good;
    ExitCalled(s, c, status);
    ExitTakes(Apply(s, Exit(c, status)), c);
    var u := Then(s, s, Exit(c, status));
    var v := Then(s, u, Go(c));
    hide Enabled, Apply;
    assert v.ps == s.ps[c := v.ps[c]];
    t := ExitHolder(v, c);
    LeadsTrans(s, v, t);
    assert Rests(v.ps[p], t.ps[p]);
    forall d | 0 <= d < |t.ps| && t.ps[d].parent == Some(p) ensures d == c {
      assert Child(v.ps[d], t.ps[d], p);
    }
  }

  lemma ExitCalled(s: State, c: nat, status: int)
    requires c < |s.ps| && s.ps[c].pc.Out? && !s.ps[c].sleeping && c != 0
    ensures Enabled(s, Exit(c, status))
    ensures Apply(s, Exit(c, status)) == s.(ps := s.ps[c := s.ps[c].(pc := ExitWant, xstate := status)])
  {
  }

  lemma ExitTakes(s: State, c: nat)
    requires c < |s.ps| && s.ps[c].pc.ExitWant? && s.wait.None?
    ensures Enabled(s, Go(c)) && Apply(s, Go(c)) == s.(ps := s.ps[c := s.ps[c].(pc := Reparent(0))], wait := Some(c))
  {
  }
}
