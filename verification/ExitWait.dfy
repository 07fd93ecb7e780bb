/** fork, exit, reparent and wait of kernel/proc.c: processes come and go in a table of slots,
    interleaved at every point where the next step needs no spin lock another process holds.  Slot 0
    is initproc.  A critical section of one p->lock that touches nothing else is one step; wakeup of
    a process that sleeps in wait looks at that process only, because nobody else sleeps on its
    channel. */
module ExitWait {
  import opened Common

  datatype Pc =
    | Free                          // the slot is unused
    | Held(maker: nat)                // allocated by fork, its lock held by the parent
    | Made(maker: nat)                // still being set up by fork, its lock released
    | Out                           // running outside these functions
    | ForkHold(np: nat)             // in fork: has np->lock
    | ForkWant(np: nat)             // waiting for wait_lock
    | ForkSet(np: nat)              // has wait_lock, about to set np->parent
    | ForkDrop(np: nat)             // about to release wait_lock
    | ForkRun(np: nat)              // about to make np runnable
    | ExitWant                      // in exit: waiting for wait_lock
    | Reparent(j: nat)              // has wait_lock, at slot j
    | WakeInit(j: nat)              // has given slot j to init
    | WakeParent
    | ExitLock                      // about to take p->lock
    | ExitZombie                    // has p->lock, about to become a zombie
    | ExitDrop                      // about to release wait_lock
    | Dying                         // on its way to the scheduler, p->lock still held
    | Dead
    | WaitWant                      // in wait: waiting for wait_lock
    | Scan(j: nat, kids: bool)      // has wait_lock, at slot j
    | Enter                         // in sleep: about to take p->lock
    | Drop                          // has p->lock, about to release wait_lock
    | Mark                          // about to set p->chan
    | Doze                          // about to set p->state to SLEEPING
    | Sched                         // on its way to the scheduler, p->lock still held
    | Gone                          // given up the CPU
    | Wake                          // on a CPU again, with p->lock

  datatype Life = Unused | Used | Alive | Zombie

  /** What a process sleeps on: nothing, its own channel in wait, or something else. */
  datatype Chan = NoChan | InWait | Elsewhere

  datatype Slot = Slot(pc: Pc, life: Life, sleeping: bool, chan: Chan, parent: Option<nat>,
                       pid: nat, killed: bool, xstate: int)

  /** One return of wait: whose pid and exit status, to which process. */
  datatype Reap = Reap(pid: nat, status: int, to: nat)

  /** `exited` is the status each process has exited with, `reaps` what wait has returned so far. */
  datatype State = State(ps: seq<Slot>, wait: Option<nat>, nextpid: nat, exited: map<nat, int>, reaps: seq<Reap>)

  predicate OwnLock(pc: Pc)
  {
    pc.Held? || pc.ExitZombie? || pc.ExitDrop? || pc.Dying? || pc.Drop? || pc.Mark? || pc.Doze? || pc.Sched? || pc.Wake?
  }

  predicate HasWait(pc: Pc)
  {
    || pc.ForkSet? || pc.ForkDrop? || pc.Reparent? || pc.WakeInit? || pc.WakeParent? || pc.ExitLock?
    || pc.ExitZombie? || pc.ExitDrop? || pc.Scan? || pc.Enter? || pc.Drop?
  }

  datatype Event =
    | Go(p: nat)                       // the next statement of process p
    | Fork(p: nat, np: nat)            // p calls fork, allocproc finds np
    | ForkFail(p: nat)                 // the copy of the address space fails
    | Exit(p: nat, status: int)
    | Wait(p: nat)
    | CopyFail(p: nat)                 // copyout of the exit status fails
    | Kill(p: nat)
    | SleepElsewhere(p: nat)
    | WakeElsewhere(p: nat)

  function Empty(): Slot { Slot(Free, Unused, false, NoChan, None, 0, false, 0) }

  predicate Free1(s: State, q: nat) { q < |s.ps| ==> !OwnLock(s.ps[q].pc) }

  /** At slot `j` of the scan in wait there is a zombie child. */
  predicate Found(s: State, p: nat, j: nat)
  {
    j < |s.ps| && s.ps[j].parent == Some(p) && s.ps[j].life == Zombie
  }

  /** Whether the next statement of `p` can run. */
  predicate Ready(s: State, p: nat)
    requires p < |s.ps|
  {
    match s.ps[p].pc
    case Free | Held(_) | Made(_) | Out | Dead => false
    case ForkWant(_) | ExitWant | WaitWant => s.wait.None?
    case ForkRun(np) => Free1(s, np)
    case WakeInit(_) => Free1(s, 0)
    case WakeParent => s.ps[p].parent.Some? ==> Free1(s, s.ps[p].parent.value)
    case Scan(j, _) => j < |s.ps| && s.ps[j].parent == Some(p) ==> Free1(s, j)
    case Gone => !s.ps[p].sleeping
    case _ => true
  }

  predicate Enabled(s: State, e: Event)
  {
    e.p < |s.ps| &&
    var q := s.ps[e.p];
    match e
    case Go(p) => Ready(s, p)
    case Fork(p, np) => q.pc.Out? && !q.sleeping && np < |s.ps| && s.ps[np].pc.Free?
    case ForkFail(p) => q.pc.ForkHold?
    case Exit(p, _) => q.pc.Out? && !q.sleeping && p != 0
    case Wait(p) => q.pc.Out? && !q.sleeping
    case CopyFail(p) => q.pc.Scan? && Found(s, p, q.pc.j) && Free1(s, q.pc.j)
    case Kill(p) => !OwnLock(q.pc)
    case SleepElsewhere(p) => q.pc.Out? && !q.sleeping
    case WakeElsewhere(p) => q.sleeping && q.chan == Elsewhere
  }

  /** A step of `p` changes its own slot, at most one other slot (`x`, if that is not `p`) and who has
      wait_lock. */
  datatype Change = Change(me: Slot, x: nat, other: Slot, wait: Option<nat>)

  function Only(s: State, p: nat, me: Slot): Change
    requires p < |s.ps|
  {
    Change(me, p, me, s.wait)
  }

  /** wakeup(x), as it changes the slot of x. */
  function Woken(q: Slot): Slot { if q.sleeping && q.chan == InWait then q.(sleeping := false) else q }

  predicate InFork(pc: Pc) { pc.ForkHold? || pc.ForkWant? || pc.ForkSet? || pc.ForkDrop? || pc.ForkRun? }

  predicate Exiting(pc: Pc)
  {
    pc.Reparent? || pc.WakeInit? || pc.WakeParent? || pc.ExitLock? || pc.ExitZombie?
  }

  predicate InExit(pc: Pc) { Exiting(pc) || pc.ExitWant? || pc.ExitDrop? || pc.Dying? }

  function ForkStep(s: State, p: nat): Change
    requires p < |s.ps|
  {
    var q := s.ps[p];
    match q.pc
    case ForkHold(np) =>
      if np < |s.ps| then Change(q.(pc := ForkWant(np)), np, s.ps[np].(pc := Made(p)), s.wait) else Only(s, p, q)
    case ForkWant(np) => Only(s, p, q.(pc := ForkSet(np))).(wait := Some(p))
    case ForkSet(np) =>
      if np < |s.ps| then Change(q.(pc := ForkDrop(np)), np, s.ps[np].(parent := Some(p)), s.wait) else Only(s, p, q)
    case ForkDrop(np) => Only(s, p, q.(pc := ForkRun(np))).(wait := None)
    case ForkRun(np) =>
      if np < |s.ps| then Change(q.(pc := Out), np, s.ps[np].(pc := Out, life := Alive), s.wait) else Only(s, p, q)
    case _ => Only(s, p, q)
  }

  function ExitStep(s: State, p: nat): Change
    requires p < |s.ps|
  {
    var q := s.ps[p];
    match q.pc
    case ExitWant => Only(s, p, q.(pc := Reparent(0))).(wait := Some(p))
    case Reparent(j) =>
      if j >= |s.ps| then Only(s, p, q.(pc := WakeParent))
      else if s.ps[j].parent == Some(p) then Change(q.(pc := WakeInit(j)), j, s.ps[j].(parent := Some(0)), s.wait)
      else Only(s, p, q.(pc := Reparent(j + 1)))
    case WakeInit(j) => Change(q.(pc := Reparent(j + 1)), 0, Woken(s.ps[0]), s.wait)
    case WakeParent =>
      if q.parent.Some? && q.parent.value < |s.ps| then
        Change(q.(pc := ExitLock), q.parent.value, Woken(s.ps[q.parent.value]), s.wait)
      else Only(s, p, q.(pc := ExitLock))
    case ExitLock => Only(s, p, q.(pc := ExitZombie))
    case ExitZombie => Only(s, p, q.(pc := ExitDrop, life := Zombie))
    case ExitDrop => Only(s, p, q.(pc := Dying)).(wait := None)
    case Dying => Only(s, p, q.(pc := Dead))
    case _ => Only(s, p, q)
  }

  function WaitStep(s: State, p: nat): Change
    requires p < |s.ps|
  {
    var q := s.ps[p];
    match q.pc
    case WaitWant => Only(s, p, q.(pc := Scan(0, false))).(wait := Some(p))
    case Scan(j, kids) =>
      if j >= |s.ps| then
        if !kids || q.killed then Only(s, p, q.(pc := Out)).(wait := None) else Only(s, p, q.(pc := Enter))
      else if Found(s, p, j) then Change(q.(pc := Out), j, Empty(), None)
      else Only(s, p, q.(pc := Scan(j + 1, kids || s.ps[j].parent == Some(p))))
    case _ => Only(s, p, q)
  }

  /** sleep(p, &wait_lock), and being scheduled again. */
  function SleepStep(s: State, p: nat): Change
    requires p < |s.ps|
  {
    var q := s.ps[p];
    match q.pc
    case Enter => Only(s, p, q.(pc := Drop))
    case Drop => Only(s, p, q.(pc := Mark)).(wait := None)
    case Mark => Only(s, p, q.(pc := Doze, chan := InWait))
    case Doze => Only(s, p, q.(pc := Sched, sleeping := true))
    case Sched => Only(s, p, q.(pc := Gone))
    case Gone => Only(s, p, q.(pc := Wake))
    case Wake => Only(s, p, q.(pc := WaitWant, chan := NoChan))
    case _ => Only(s, p, q)
  }

  /** The other events: calls, failures, kill and sleeping on other channels. */
  function CallStep(s: State, e: Event): Change
    requires Enabled(s, e)
  {
    var q := s.ps[e.p];
    match e
    case Go(p) => Only(s, p, q)
    case Fork(p, np) =>
      Change(q.(pc := ForkHold(np)), np, s.ps[np].(pc := Held(p), life := Used, pid := s.nextpid), s.wait)
    case ForkFail(p) => Change(q.(pc := Out), q.pc.np, Empty(), s.wait)
    case Exit(p, status) => Only(s, p, q.(pc := ExitWant, xstate := status))
    case Wait(p) => Only(s, p, q.(pc := WaitWant))
    case CopyFail(p) => Only(s, p, q.(pc := Out)).(wait := None)
    case Kill(p) => Only(s, p, q.(killed := true, sleeping := false))
    case SleepElsewhere(p) => Only(s, p, q.(sleeping := true, chan := Elsewhere))
    case WakeElsewhere(p) => Only(s, p, q.(sleeping := false))
  }

  function Effect(s: State, e: Event): Change
    requires Enabled(s, e)
  {
    var pc := s.ps[e.p].pc;
    if !e.Go? then CallStep(s, e)
    else if InFork(pc) then ForkStep(s, e.p)
    else if InExit(pc) then ExitStep(s, e.p)
    else if pc.WaitWant? || pc.Scan? then WaitStep(s, e.p)
    else SleepStep(s, e.p)
  }

  function Put(ps: seq<Slot>, i: nat, q: Slot): seq<Slot> { if i < |ps| then ps[i := q] else ps }

  /** Whether this step of wait frees the zombie it is at. */
  predicate Frees(s: State, e: Event)
    requires Enabled(s, e)
  {
    e.Go? && s.ps[e.p].pc.Scan? && Found(s, e.p, s.ps[e.p].pc.j)
  }

  function Apply(s: State, e: Event): State
    requires Enabled(s, e)
  {
    var ch, q := Effect(s, e), s.ps[e.p];
    State(Put(Put(s.ps, ch.x, ch.other), e.p, ch.me), ch.wait,
          if e.Fork? then s.nextpid + 1 else s.nextpid,
          if e.Go? && q.pc.ExitZombie? then s.exited[q.pid := q.xstate] else s.exited,
          if Frees(s, e) then s.reaps + [Reap(s.ps[q.pc.j].pid, s.ps[q.pc.j].xstate, e.p)] else s.reaps)
  }

  predicate Runs(s: State, es: seq<Event>)
    decreases es
  {
    es == [] || (Enabled(s, es[0]) && Runs(Apply(s, es[0]), es[1..]))
  }

  function Run(s: State, es: seq<Event>): State
    requires Runs(s, es)
    decreases es
  {
    if es == [] then s else Run(Apply(s, es[0]), es[1..])
  }

  /** After userinit: only initproc, with pid 1. */
  function Boot(n: nat): State
  {
    State(seq(n, i requires 0 <= i < n => BootSlot(i)), None, 2, map[], [])
  }

  function BootSlot(i: nat): Slot
  {
    if i == 0 then Slot(Out, Alive, false, NoChan, None, 1, false, 0) else Empty()
  }

  // ---------------------------------------------------------------------------
  // The invariant
  // ---------------------------------------------------------------------------

  /** In wait, past the scan: on its way to sleep, or asleep. */
  predicate Committed(q: Slot)
  {
    q.pc.Mark? || q.pc.Doze? || ((q.pc.Sched? || q.pc.Gone?) && q.sleeping)
  }

  /** What the place in the code says about the fields of a slot. */
  predicate Fine(wait: Option<nat>, p: nat, q: Slot)
  {
    && (HasWait(q.pc) <==> wait == Some(p))
    && q.life == LifeAt(q.pc)
    && (q.chan == InWait <==> q.pc.Doze? || q.pc.Sched? || q.pc.Gone? || q.pc.Wake?)
    && (q.sleeping ==> (q.pc.Out? && q.chan == Elsewhere) || q.pc.Sched? || q.pc.Gone?)
    && (q.pc.Free? || q.pc.Held? ==> q.parent == None)
    && (q.life == Alive || q.life == Zombie ==> p == 0 || q.parent.Some?)
    && (p == 0 ==> q.life == Alive && !InExit(q.pc) && q.parent == None)
  }

  function LifeAt(pc: Pc): Life
  {
    match pc
    case Free => Unused
    case Held(_) | Made(_) => Used
    case ExitDrop | Dying | Dead => Zombie
    case _ => Alive
  }

  /** The slot fork is setting up belongs to it. */
  predicate Nest(s: State, p: nat)
    requires p < |s.ps|
  {
    match s.ps[p].pc
    case ForkHold(np) => np < |s.ps| && s.ps[np].pc == Held(p)
    case ForkWant(np) => np < |s.ps| && s.ps[np].pc == Made(p)
    case ForkSet(np) => np < |s.ps| && s.ps[np].pc == Made(p)
    case ForkDrop(np) => np < |s.ps| && s.ps[np].pc == Made(p) && s.ps[np].parent.Some?
    case ForkRun(np) => np < |s.ps| && s.ps[np].pc == Made(p) && s.ps[np].parent.Some?
    case _ => true
  }

  /** The parent at `pc` may still have the child in slot `c`. */
  predicate NotPassed(pc: Pc, c: nat)
  {
    match pc
    case Reparent(j) => j <= c
    case WakeInit(j) => j < c
    case WakeParent | ExitLock | ExitZombie => false
    case _ => true
  }

  /** A parent is alive, and if it is in reparent has not come to this child yet. */
  predicate Family(s: State, c: nat)
    requires c < |s.ps|
  {
    s.ps[c].parent.Some? ==>
      var p := s.ps[c].parent.value;
      p < |s.ps| && p != c && s.ps[p].life == Alive && NotPassed(s.ps[p].pc, c)
  }

  /** init is about to be woken. */
  predicate InitPending(s: State)
  {
    s.wait.Some? && s.wait.value < |s.ps| && s.ps[s.wait.value].pc.WakeInit?
  }

  /** A zombie's parent has not yet scanned it, or is not going to sleep. */
  predicate Heard(s: State, c: nat)
    requires c < |s.ps|
  {
    s.ps[c].life.Zombie? && s.ps[c].parent.Some? && s.ps[c].parent.value < |s.ps| ==>
      var p := s.ps[c].parent.value;
      var q := s.ps[p];
      && (Committed(q) ==> p == 0 && InitPending(s))
      && !q.pc.Enter? && !q.pc.Drop? && (q.pc.Scan? ==> q.pc.j <= c)
  }

  /** Nor does the parent of a process that is about to become a zombie sleep. */
  predicate Warned(s: State, c: nat)
    requires c < |s.ps|
  {
    (s.ps[c].pc.ExitLock? || s.ps[c].pc.ExitZombie?) && s.ps[c].parent.Some? && s.ps[c].parent.value < |s.ps| ==>
      !Committed(s.ps[s.ps[c].parent.value])
  }

  ghost predicate Slots(s: State)
  {
    && 0 < |s.ps| && (s.wait.Some? ==> s.wait.value < |s.ps|)
    && (forall p | 0 <= p < |s.ps| :: Fine(s.wait, p, s.ps[p]))
    && (forall p | 0 <= p < |s.ps| :: Nest(s, p))
  }

  /** A change that respects the two slots it touches. */
  predicate Proper(s: State, p: nat, ch: Change)
    requires p < |s.ps|
  {
    && ch.x < |s.ps|
    && (ch.wait == s.wait || (s.wait == None && ch.wait == Some(p)) || (s.wait == Some(p) && ch.wait == None))
    && Fine(ch.wait, p, ch.me)
    && (ch.x != p ==> Fine(ch.wait, ch.x, ch.other))
  }

  /** What is known of the two slots before the change. */
  predicate FineBefore(s: State, p: nat, ch: Change)
  {
    p < |s.ps| && Fine(s.wait, p, s.ps[p]) && (ch.x < |s.ps| ==> Fine(s.wait, ch.x, s.ps[ch.x]))
  }

  /** Steps of fork on wait_lock. */
  lemma ForkLockProper(s: State, p: nat)
    requires p < |s.ps| && FineBefore(s, p, ForkStep(s, p)) && Ready(s, p)
    requires s.ps[p].pc.ForkWant? || s.ps[p].pc.ForkDrop?
    ensures Proper(s, p, ForkStep(s, p))
  {
  }

  /** Steps of fork on the slot of the child. */
  lemma ForkChildProper(s: State, p: nat)
    requires p < |s.ps| && FineBefore(s, p, ForkStep(s, p)) && Nest(s, p)
    requires s.ps[p].pc.ForkHold? || s.ps[p].pc.ForkSet? || s.ps[p].pc.ForkRun?
    ensures Proper(s, p, ForkStep(s, p))
  {
  }

  lemma ForkProper(s: State, p: nat)
    requires p < |s.ps| && FineBefore(s, p, ForkStep(s, p)) && Ready(s, p) && Nest(s, p) && InFork(s.ps[p].pc)
    ensures Proper(s, p, ForkStep(s, p))
  {
    hide Fine, Nest, FineBefore, Proper, ForkStep, Ready;
    if s.ps[p].pc.ForkWant? || s.ps[p].pc.ForkDrop? {
      ForkLockProper(s, p);
    } else {
      ForkChildProper(s, p);
    }
  }

  /** Steps of exit on another slot. */
  lemma ExitOtherProper(s: State, p: nat)
    requires p < |s.ps| && FineBefore(s, p, ExitStep(s, p)) && Ready(s, p)
    requires s.ps[p].pc.Reparent? || s.ps[p].pc.WakeInit? || s.ps[p].pc.WakeParent?
    ensures Proper(s, p, ExitStep(s, p))
  {
  }

  /** Steps of exit on its own slot and on wait_lock. */
  lemma ExitOwnProper(s: State, p: nat)
    requires p < |s.ps| && FineBefore(s, p, ExitStep(s, p)) && Ready(s, p)
    requires !s.ps[p].pc.Reparent? && !s.ps[p].pc.WakeInit? && !s.ps[p].pc.WakeParent?
    ensures Proper(s, p, ExitStep(s, p))
  {
  }

  lemma ExitProper(s: State, p: nat)
    requires p < |s.ps| && FineBefore(s, p, ExitStep(s, p)) && Ready(s, p)
    ensures Proper(s, p, ExitStep(s, p))
  {
    hide Fine, FineBefore, Proper, ExitStep, Ready;
    if s.ps[p].pc.Reparent? || s.ps[p].pc.WakeInit? || s.ps[p].pc.WakeParent? {
      ExitOtherProper(s, p);
    } else {
      ExitOwnProper(s, p);
    }
  }

  lemma WaitProper(s: State, p: nat)
    requires p < |s.ps| && FineBefore(s, p, WaitStep(s, p)) && Ready(s, p)
    ensures Proper(s, p, WaitStep(s, p))
  {
  }

  lemma ForkCallProper(s: State, e: Event)
    requires Enabled(s, e) && FineBefore(s, e.p, CallStep(s, e)) && Nest(s, e.p) && (e.Fork? || e.ForkFail?)
    ensures Proper(s, e.p, CallStep(s, e))
  {
  }

  lemma OwnCallProper(s: State, e: Event)
    requires Enabled(s, e) && FineBefore(s, e.p, CallStep(s, e)) && !e.Go? && !e.Fork? && !e.ForkFail?
    ensures Proper(s, e.p, CallStep(s, e))
  {
  }

  lemma CallProper(s: State, e: Event)
    requires Enabled(s, e) && FineBefore(s, e.p, CallStep(s, e)) && Nest(s, e.p) && !e.Go?
    ensures Proper(s, e.p, CallStep(s, e))
  {
    hide Fine, FineBefore, Proper, CallStep, Nest, Enabled;
    if e.Fork? || e.ForkFail? {
      ForkCallProper(s, e);
    } else {
      OwnCallProper(s, e);
    }
  }

  lemma SleepProper(s: State, p: nat)
    requires p < |s.ps| && FineBefore(s, p, SleepStep(s, p)) && Ready(s, p)
    ensures Proper(s, p, SleepStep(s, p))
  {
  }

  lemma EffectProper(s: State, e: Event)
    requires Slots(s) && Enabled(s, e)
    ensures Proper(s, e.p, Effect(s, e))
  {
    var p, ch := e.p, Effect(s, e);
    assert FineBefore(s, p, ch) && Nest(s, p);
    hide Slots, Fine, Nest, FineBefore, Proper, ForkStep, ExitStep, WaitStep, SleepStep, CallStep;
    if !e.Go? {
      CallProper(s, e);
    } else if InFork(s.ps[p].pc) {
      ForkProper(s, p);
    } else if InExit(s.ps[p].pc) {
      ExitProper(s, p);
    } else if s.ps[p].pc.WaitWant? || s.ps[p].pc.Scan? {
      WaitProper(s, p);
    } else {
      SleepProper(s, p);
    }
  }

  predicate Egg(pc: Pc) { pc.Held? || pc.Made? }

  /** A slot being set up by fork is changed by nobody else. */
  predicate Respects(s: State, p: nat, ch: Change)
    requires p < |s.ps|
  {
    && (Egg(s.ps[p].pc) ==> ch.me.pc == s.ps[p].pc && ch.me.parent == s.ps[p].parent)
    && (ch.x < |s.ps| && ch.x != p ==>
          && (Egg(s.ps[ch.x].pc) && s.ps[ch.x].pc.maker != p ==>
                ch.other.pc == s.ps[ch.x].pc && (s.ps[ch.x].parent.Some? ==> ch.other.parent.Some?))
          && (InFork(ch.other.pc) ==> ch.other.pc == s.ps[ch.x].pc))
  }

  lemma EffectRespects(s: State, e: Event)
    requires Enabled(s, e) && Nest(s, e.p) && FineBefore(s, e.p, Effect(s, e))
    ensures Respects(s, e.p, Effect(s, e))
  {
  }

  lemma NestFork(s: State, p: nat)
    requires p < |s.ps| && Nest(s, p) && InFork(s.ps[p].pc)
    requires var ch := ForkStep(s, p); ch.x < |s.ps| && (ch.x != p ==> Fine(ch.wait, ch.x, ch.other))
    ensures var ch := ForkStep(s, p);
            Nest(s.(ps := Put(Put(s.ps, ch.x, ch.other), p, ch.me), wait := ch.wait), p)
  {
  }

  lemma CallStaysOut(s: State, e: Event)
    requires Enabled(s, e) && !e.Go? && !e.Fork?
    ensures InFork(Effect(s, e).me.pc) ==> Effect(s, e).me.pc == s.ps[e.p].pc && Effect(s, e).x == e.p
  {
    hide ForkStep, ExitStep, WaitStep, SleepStep;
  }

  lemma GoStaysOut(s: State, e: Event)
    requires Enabled(s, e) && e.Go? && !InFork(s.ps[e.p].pc)
    ensures InFork(Effect(s, e).me.pc) ==> Effect(s, e).me.pc == s.ps[e.p].pc && Effect(s, e).x == e.p
  {
    hide ForkStep, CallStep;
  }

  lemma StaysOut(s: State, e: Event)
    requires Enabled(s, e) && !(e.Go? && InFork(s.ps[e.p].pc)) && !e.Fork?
    ensures InFork(Effect(s, e).me.pc) ==> Effect(s, e).me.pc == s.ps[e.p].pc && Effect(s, e).x == e.p
  {
    hide Effect, Enabled;
    if e.Go? {
      GoStaysOut(s, e);
    } else {
      CallStaysOut(s, e);
    }
  }

  lemma NestSelf(s: State, e: Event)
    requires Enabled(s, e) && Nest(s, e.p) && FineBefore(s, e.p, Effect(s, e)) && Proper(s, e.p, Effect(s, e))
    ensures Nest(Apply(s, e), e.p)
  {
    hide ExitStep, WaitStep, SleepStep, ForkStep, FineBefore;
    if e.Go? && InFork(s.ps[e.p].pc) {
      NestFork(s, e.p);
    } else if !e.Fork? {
      StaysOut(s, e);
      hide Fine;
    }
  }

  lemma NestOther(s: State, e: Event, c: nat)
    requires Enabled(s, e) && c < |s.ps| && c != e.p && Nest(s, c)
    requires Proper(s, e.p, Effect(s, e)) && Respects(s, e.p, Effect(s, e))
    ensures Nest(Apply(s, e), c)
  {
    hide Effect, Fine;
  }

  lemma SlotsStep(s: State, e: Event)
    requires Slots(s) && Enabled(s, e)
    ensures Slots(Apply(s, e))
  {
    var s', p, ch := Apply(s, e), e.p, Effect(s, e);
    assert FineBefore(s, p, ch) && Nest(s, p);
    EffectProper(s, e);
    EffectRespects(s, e);
    forall c | 0 <= c < |s.ps| ensures Nest(s', c) {
      assert Nest(s, c);
      hide Nest, Effect, Slots, FineBefore, Proper, Respects, Enabled;
      if c == p {
        NestSelf(s, e);
      } else {
        NestOther(s, e, c);
      }
    }
    forall c | 0 <= c < |s.ps| ensures Fine(s'.wait, c, s'.ps[c]) {
      assert Fine(s.wait, c, s.ps[c]);
      hide Nest, Effect, Respects;
    }
  }

  /** How a change treats parents: a live process touched by another stays where it is, and a new
      parent is the forking process or init. */
  predicate Kin(s: State, p: nat, ch: Change)
    requires p < |s.ps|
  {
    && ch.me.parent == s.ps[p].parent
    && (ch.x < |s.ps| && ch.x != p ==>
          && (s.ps[ch.x].life.Alive? ==> ch.other.life.Alive? && ch.other.pc == s.ps[ch.x].pc)
          && (ch.other.parent.Some? && ch.other.parent != s.ps[ch.x].parent ==>
                || (ch.other.parent == Some(p) && ch.me.pc.ForkDrop? && ch.me.life.Alive?)
                || (ch.other.parent == Some(0) && ch.x != 0 && p != 0)))
  }

  lemma EffectKin(s: State, e: Event)
    requires Enabled(s, e) && Nest(s, e.p) && FineBefore(s, e.p, Effect(s, e))
    ensures Kin(s, e.p, Effect(s, e))
  {
  }

  lemma StayParent(s: State, e: Event)
    requires Enabled(s, e) && FineBefore(s, e.p, Effect(s, e)) && s.ps[e.p].life.Alive?
    requires !(e.Go? && InExit(s.ps[e.p].pc))
    ensures Effect(s, e).me.life.Alive?
    ensures Exiting(Effect(s, e).me.pc) ==> Effect(s, e).me.pc == s.ps[e.p].pc
  {
    hide ExitStep;
  }

  lemma ExitParent(s: State, p: nat, c: nat)
    requires p < |s.ps| && c < |s.ps| && s.ps[p].life.Alive? && s.ps[p].life == LifeAt(s.ps[p].pc)
    requires s.ps[c].parent == Some(p) && NotPassed(s.ps[p].pc, c) && InExit(s.ps[p].pc)
    requires ExitStep(s, p).x == c ==> ExitStep(s, p).other.parent == Some(p)
    requires p != 0
    ensures ExitStep(s, p).me.life.Alive? && NotPassed(ExitStep(s, p).me.pc, c)
  {
  }

  /** A parent that steps stays alive, and does not pass the child by. */
  lemma EffectParent(s: State, e: Event, c: nat)
    requires Enabled(s, e) && FineBefore(s, e.p, Effect(s, e)) && c < |s.ps| && c != e.p
    requires s.ps[c].parent == Some(e.p) && s.ps[e.p].life.Alive? && NotPassed(s.ps[e.p].pc, c)
    requires Effect(s, e).x == c ==> Effect(s, e).other.parent == Some(e.p)
    ensures Effect(s, e).me.life.Alive? && NotPassed(Effect(s, e).me.pc, c)
  {
    hide ExitStep, ForkStep, WaitStep, SleepStep, CallStep;
    if e.Go? && InExit(s.ps[e.p].pc) {
      ExitParent(s, e.p, c);
    } else {
      StayParent(s, e);
    }
  }

  /** What Family asks for, of the parent's slot. */
  predicate Raises(q: Slot, c: nat) { q.life == Alive && NotPassed(q.pc, c) }

  /** After a step, process `r` is still a parent that has not passed `c` by. */
  lemma ParentStays(s: State, e: Event, c: nat, r: nat)
    requires Enabled(s, e) && Nest(s, e.p) && FineBefore(s, e.p, Effect(s, e)) && c < |s.ps| && r < |s.ps| && r != c
    requires s.ps[c].parent == Some(r) && Raises(s.ps[r], c)
    requires r == e.p && Effect(s, e).x == c ==> Effect(s, e).other.parent == Some(r)
    ensures |Apply(s, e).ps| == |s.ps| && Raises(Apply(s, e).ps[r], c)
  {
    EffectKin(s, e);
    if r == e.p {
      EffectParent(s, e, c);
    }
    hide Effect, Enabled, Nest, FineBefore;
  }

  /** A child that is new to its parent: the fork that made it, or init. */
  lemma ParentIsNew(s: State, e: Event, c: nat)
    requires Enabled(s, e) && Nest(s, e.p) && FineBefore(s, e.p, Effect(s, e)) && c < |s.ps| && 0 < |s.ps|
    requires Fine(s.wait, 0, s.ps[0]) && Apply(s, e).ps[c].parent.Some? && Apply(s, e).ps[c].parent != s.ps[c].parent
    ensures var r := Apply(s, e).ps[c].parent.value; r < |s.ps| && r != c && Raises(Apply(s, e).ps[r], c)
  {
    EffectKin(s, e);
    hide Effect, Enabled, Nest, FineBefore;
  }

  lemma FamilyStep(s: State, e: Event, c: nat)
    requires Slots(s) && Enabled(s, e) && c < |s.ps| && Family(s, c)
    ensures Family(Apply(s, e), c)
  {
    var p, ch, t := e.p, Effect(s, e), Apply(s, e);
    assert FineBefore(s, p, ch) && Nest(s, p) && Fine(s.wait, 0, s.ps[0]);
    assert c == ch.x != p ==> t.ps[c] == ch.other;
    hide Slots, Effect, FineBefore, Nest, Enabled, Fine, Apply;
    if t.ps[c].parent.Some? {
      if t.ps[c].parent == s.ps[c].parent {
        ParentStays(s, e, c, s.ps[c].parent.value);
      } else {
        ParentIsNew(s, e, c);
      }
    }
  }

  /** How a change treats sleepers: only a process that leaves the scan of wait goes to sleep there. */
  predicate Calm(s: State, p: nat, ch: Change)
    requires p < |s.ps|
  {
    var q := s.ps[p];
    && (Committed(ch.me) ==> Committed(q) || q.pc.Drop?)
    && (ch.me.pc.Drop? ==> q.pc.Drop? || q.pc.Enter?)
  }

  lemma CallCalm(s: State, e: Event)
    requires Enabled(s, e) && !e.Go?
    ensures Calm(s, e.p, Effect(s, e))
  {
    hide ForkStep, ExitStep, WaitStep, SleepStep;
  }

  lemma GoCalm(s: State, e: Event)
    requires Enabled(s, e) && e.Go?
    ensures Calm(s, e.p, Effect(s, e))
  {
    hide CallStep;
  }

  lemma EffectCalm(s: State, e: Event)
    requires Enabled(s, e)
    ensures Calm(s, e.p, Effect(s, e))
  {
    hide *;
    if e.Go? {
      GoCalm(s, e);
    } else {
      CallCalm(s, e);
    }
  }

  /** It leaves the scan at the end of the table, having passed no zombie child. */
  predicate Scans(s: State, p: nat, ch: Change)
    requires p < |s.ps|
  {
    var q := s.ps[p];
    && (ch.me.pc.Enter? ==> q.pc.Enter? || (q.pc.Scan? && q.pc.j >= |s.ps|))
    && (ch.me.pc.Scan? ==> ch.me.pc.j == 0 || (q.pc.Scan? && ch.me.pc.j <= q.pc.j + 1))
    && (ch.me.pc.Scan? && q.pc.Scan? && ch.me.pc.j == q.pc.j + 1 ==> !Found(s, p, q.pc.j))
  }

  lemma EffectScans(s: State, e: Event)
    requires Enabled(s, e)
    ensures Scans(s, e.p, Effect(s, e))
  {
  }

  /** A zombie comes about by the last steps of exit. */
  lemma EffectZombie(s: State, e: Event)
    requires Enabled(s, e)
    ensures var q, ch := s.ps[e.p], Effect(s, e);
            && (ch.me.life.Zombie? ==> q.life.Zombie? || q.pc.ExitZombie?)
            && (ch.me.pc.ExitZombie? ==> q.pc.ExitZombie? || q.pc.ExitLock?)
  {
  }

  predicate CalmOther(s: State, p: nat, ch: Change)
    requires p < |s.ps|
  {
    && (ch.x < |s.ps| && ch.x != p ==>
          && (Committed(ch.other) ==> Committed(s.ps[ch.x]))
          && (ch.other.life.Zombie? ==> s.ps[ch.x].life.Zombie?)
          && (ch.other.parent == Some(0) && s.ps[ch.x].parent != Some(0) && ch.other.life.Zombie? ==>
                ch.me.pc.WakeInit? && ch.wait == s.wait && s.ps[p].pc.Reparent?))
    && (ch.me.pc.ExitLock? && !s.ps[p].pc.ExitLock? && s.ps[p].parent.Some? ==>
          s.ps[p].parent.value < |s.ps| ==> ch.x == s.ps[p].parent.value && (ch.x != p ==> !Committed(ch.other)))
    && (s.ps[p].pc.WakeInit? && !ch.me.pc.WakeInit? ==> ch.x == 0 && (p != 0 ==> !Committed(ch.other)))
  }

  lemma CallCalmOther(s: State, e: Event)
    requires Enabled(s, e) && Nest(s, e.p) && FineBefore(s, e.p, Effect(s, e)) && !e.Go?
    ensures CalmOther(s, e.p, Effect(s, e))
  {
    hide ForkStep, ExitStep, WaitStep, SleepStep;
  }

  lemma GoCalmOther(s: State, e: Event)
    requires Enabled(s, e) && Nest(s, e.p) && FineBefore(s, e.p, Effect(s, e)) && e.Go?
    ensures CalmOther(s, e.p, Effect(s, e))
  {
    hide CallStep;
  }

  lemma EffectCalmOther(s: State, e: Event)
    requires Enabled(s, e) && Nest(s, e.p) && FineBefore(s, e.p, Effect(s, e))
    ensures CalmOther(s, e.p, Effect(s, e))
  {
    hide *;
    if e.Go? {
      GoCalmOther(s, e);
    } else {
      CallCalmOther(s, e);
    }
  }

  /** Some slot below `j` has `p` as parent. */
  ghost predicate ChildBelow(s: State, p: nat, j: nat)
  {
    exists c :: 0 <= c < j && c < |s.ps| && s.ps[c].parent == Some(p)
  }

  /** havekids says whether the scan of wait has come across a child. */
  ghost predicate KidsOk(s: State, p: nat)
    requires p < |s.ps|
  {
    s.ps[p].pc.Scan? ==> (s.ps[p].pc.kids <==> ChildBelow(s, p, s.ps[p].pc.j))
  }

  /** A process without wait_lock changes no parent while somebody has it. */
  predicate SameParents(s: State, p: nat, ch: Change)
    requires p < |s.ps|
  {
    ch.me.parent == s.ps[p].parent && (ch.x < |s.ps| ==> ch.other.parent == s.ps[ch.x].parent)
  }

  lemma CallSameParents(s: State, e: Event)
    requires Enabled(s, e) && !e.Go? && Nest(s, e.p) && FineBefore(s, e.p, Effect(s, e))
    ensures SameParents(s, e.p, Effect(s, e))
  {
    hide ForkStep, ExitStep, WaitStep, SleepStep;
  }

  lemma GoSameParents(s: State, e: Event)
    requires Enabled(s, e) && e.Go? && FineBefore(s, e.p, Effect(s, e)) && s.wait.Some? && s.wait != Some(e.p)
    ensures SameParents(s, e.p, Effect(s, e))
  {
    hide CallStep;
  }

  /** The next slot of the scan, or the first one. */
  lemma ScanStep(s: State, e: Event)
    requires Enabled(s, e) && Effect(s, e).me.pc.Scan? && Effect(s, e).me.pc != s.ps[e.p].pc
    ensures var pc, now := s.ps[e.p].pc, Effect(s, e).me.pc;
            && Effect(s, e).x == e.p && Effect(s, e).me.parent == s.ps[e.p].parent
            && (now == Scan(0, false)
                || (pc.Scan? && pc.j < |s.ps| && now == Scan(pc.j + 1, pc.kids || s.ps[pc.j].parent == Some(e.p))))
  {
  }

  lemma KidsSame(s: State, t: State, p: nat)
    requires p < |s.ps| == |t.ps| && KidsOk(s, p) && t.ps[p].pc == s.ps[p].pc
    requires forall c | 0 <= c < |s.ps| :: t.ps[c].parent == s.ps[c].parent
    ensures KidsOk(t, p)
  {
    forall j: nat ensures ChildBelow(t, p, j) <==> ChildBelow(s, p, j) {
      if ChildBelow(s, p, j) {
        var c :| 0 <= c < j && c < |s.ps| && s.ps[c].parent == Some(p);
        assert t.ps[c].parent == Some(p);
      }
    }
  }

  lemma KidsNext(s: State, t: State, p: nat)
    requires p < |s.ps| == |t.ps| && KidsOk(s, p) && s.ps[p].pc.Scan? && s.ps[p].pc.j < |s.ps|
    requires forall c | 0 <= c < |s.ps| :: t.ps[c].parent == s.ps[c].parent
    requires t.ps[p].pc == Scan(s.ps[p].pc.j + 1, s.ps[p].pc.kids || s.ps[s.ps[p].pc.j].parent == Some(p))
    ensures KidsOk(t, p)
  {
    var j := s.ps[p].pc.j;
    if ChildBelow(s, p, j) {
      var c :| 0 <= c < j && c < |s.ps| && s.ps[c].parent == Some(p);
      assert t.ps[c].parent == Some(p);
    }
    if s.ps[j].parent == Some(p) {
      assert t.ps[j].parent == Some(p);
    }
    if ChildBelow(t, p, j + 1) {
      var c :| 0 <= c < j + 1 && c < |t.ps| && t.ps[c].parent == Some(p);
      assert s.ps[c].parent == Some(p);
    }
  }

  lemma KidsSelf(s: State, e: Event)
    requires Enabled(s, e) && KidsOk(s, e.p) && Nest(s, e.p) && FineBefore(s, e.p, Effect(s, e))
    ensures |Apply(s, e).ps| == |s.ps| && KidsOk(Apply(s, e), e.p)
  {
    var p, t, ch := e.p, Apply(s, e), Effect(s, e);
    if ch.me.pc.Scan? {
      if ch.me.pc == s.ps[p].pc {
        if e.Go? {
          StillScan(s, e);
        }
        CallSameParents(s, e);
        hide Effect, Enabled, FineBefore, Nest;
        KidsSame(s, t, p);
      } else {
        ScanStep(s, e);
        hide Effect, Enabled, FineBefore, Nest;
        if s.ps[p].pc.Scan? && ch.me.pc != Scan(0, false) {
          KidsNext(s, t, p);
        }
      }
    }
  }

  lemma StillScan(s: State, e: Event)
    requires Enabled(s, e) && e.Go? && s.ps[e.p].pc.Scan?
    ensures Effect(s, e).me.pc != s.ps[e.p].pc
  {
  }

  lemma KidsOther(s: State, e: Event, p: nat)
    requires Slots(s) && Enabled(s, e) && p < |s.ps| && p != e.p && KidsOk(s, p)
    ensures KidsOk(Apply(s, e), p)
  {
    var t, ch := Apply(s, e), Effect(s, e);
    assert FineBefore(s, e.p, ch) && Nest(s, e.p) && Fine(s.wait, p, s.ps[p]);
    if s.ps[p].pc.Scan? {
      EffectKin(s, e);
      if e.Go? {
        GoSameParents(s, e);
      } else {
        CallSameParents(s, e);
      }
      hide Slots, Effect, Enabled, FineBefore, Nest;
      KidsSame(s, t, p);
    } else if ch.x == p {
      NoNewScan(s, e);
    }
  }

  /** Nobody puts another process into the scan. */
  lemma NoNewScan(s: State, e: Event)
    requires Enabled(s, e) && Effect(s, e).x != e.p && Effect(s, e).x < |s.ps|
    ensures Effect(s, e).other.pc.Scan? ==> s.ps[Effect(s, e).x].pc.Scan?
  {
  }

  /** The whole invariant but for the pids. */
  ghost predicate Tables(s: State)
  {
    && Slots(s)
    && (forall c | 0 <= c < |s.ps| :: Family(s, c))
    && (forall c | 0 <= c < |s.ps| :: Warned(s, c))
    && (forall c | 0 <= c < |s.ps| :: Heard(s, c))
    && (forall p | 0 <= p < |s.ps| :: KidsOk(s, p))
  }

  lemma WarnedSelf(s: State, e: Event)
    requires Slots(s) && Enabled(s, e) && Family(s, e.p) && Warned(s, e.p)
    ensures Warned(Apply(s, e), e.p)
  {
    var p, ch := e.p, Effect(s, e);
    assert FineBefore(s, p, ch) && Nest(s, p);
    EffectKin(s, e);
    EffectZombie(s, e);
    EffectCalmOther(s, e);
    EffectProper(s, e);
    hide Slots, Effect, FineBefore, Nest, Enabled;
  }

  lemma WarnedStill(s: State, e: Event, c: nat)
    requires Slots(s) && Enabled(s, e) && c < |s.ps| && Family(s, c) && Warned(s, c) && c != e.p
    ensures Warned(Apply(s, e), c)
  {
    var p, ch := e.p, Effect(s, e);
    assert FineBefore(s, p, ch) && Nest(s, p) && Fine(s.wait, c, s.ps[c]);
    EffectKin(s, e);
    EffectCalm(s, e);
    EffectCalmOther(s, e);
    EffectProper(s, e);
    hide Slots, Effect, FineBefore, Nest, Enabled;
  }

  lemma WarnedStep(s: State, e: Event, c: nat)
    requires Slots(s) && Enabled(s, e) && c < |s.ps| && Family(s, c) && Warned(s, c)
    ensures Warned(Apply(s, e), c)
  {
    hide Slots, Effect, Enabled, Warned, Family;
    if c == e.p {
      WarnedSelf(s, e);
    } else {
      WarnedStill(s, e, c);
    }
  }

  /** A zombie that steps is still on its way to the scheduler. */
  lemma HeardSelf(s: State, e: Event)
    requires Slots(s) && Enabled(s, e) && Family(s, e.p) && Heard(s, e.p) && Warned(s, e.p)
    ensures Heard(Apply(s, e), e.p)
  {
    var p, ch := e.p, Effect(s, e);
    assert FineBefore(s, p, ch) && Nest(s, p);
    EffectKin(s, e);
    EffectZombie(s, e);
    EffectCalmOther(s, e);
    EffectProper(s, e);
    var a := if s.ps[p].parent.Some? then s.ps[p].parent.value else 0;
    assert a < |s.ps| ==> Fine(s.wait, a, s.ps[a]);
    hide Slots, Effect, FineBefore, Nest, Enabled;
  }

  /** A zombie given to init: init is about to be woken. */
  lemma HeardGiven(s: State, e: Event, c: nat)
    requires Slots(s) && Enabled(s, e) && c < |s.ps| && Family(s, c) && Heard(s, c) && c != e.p && c == Effect(s, e).x
    ensures Heard(Apply(s, e), c)
  {
    var p, ch := e.p, Effect(s, e);
    assert FineBefore(s, p, ch) && Nest(s, p) && Fine(s.wait, 0, s.ps[0]);
    EffectKin(s, e);
    EffectCalm(s, e);
    EffectCalmOther(s, e);
    EffectProper(s, e);
    hide Slots, Effect, FineBefore, Nest, Enabled;
  }

  /** The parent steps. */
  lemma HeardByParent(s: State, e: Event, c: nat)
    requires Slots(s) && Enabled(s, e) && c < |s.ps| && Family(s, c) && Heard(s, c) && c != e.p && c != Effect(s, e).x
    requires s.ps[c].parent == Some(e.p)
    ensures Heard(Apply(s, e), c)
  {
    var p, ch := e.p, Effect(s, e);
    assert FineBefore(s, p, ch) && Nest(s, p);
    EffectKin(s, e);
    EffectCalm(s, e);
    EffectScans(s, e);
    EffectProper(s, e);
    hide Slots, Effect, FineBefore, Nest, Enabled, Respects;
  }

  /** Some other process steps. */
  lemma HeardStill(s: State, e: Event, c: nat)
    requires Slots(s) && Enabled(s, e) && c < |s.ps| && Family(s, c) && Heard(s, c) && c != e.p && c != Effect(s, e).x
    requires s.ps[c].parent != Some(e.p)
    ensures Heard(Apply(s, e), c)
  {
    var p, ch := e.p, Effect(s, e);
    assert FineBefore(s, p, ch) && Nest(s, p);
    EffectKin(s, e);
    EffectCalmOther(s, e);
    EffectProper(s, e);
    hide Slots, Effect, FineBefore, Nest, Enabled;
  }

  lemma HeardStep(s: State, e: Event, c: nat)
    requires Slots(s) && Enabled(s, e) && c < |s.ps| && Family(s, c) && Heard(s, c) && Warned(s, c)
    ensures Heard(Apply(s, e), c)
  {
    hide Slots, Effect, Enabled, Heard, Warned, Family;
    if c == e.p {
      HeardSelf(s, e);
    } else if c == Effect(s, e).x {
      HeardGiven(s, e, c);
    } else if s.ps[c].parent == Some(e.p) {
      HeardByParent(s, e, c);
    } else {
      HeardStill(s, e, c);
    }
  }

  lemma KidsStep(s: State, e: Event, c: nat)
    requires Tables(s) && Enabled(s, e) && c < |s.ps|
    ensures |Apply(s, e).ps| == |s.ps| && KidsOk(Apply(s, e), c)
  {
    assert KidsOk(s, c) && FineBefore(s, e.p, Effect(s, e)) && Nest(s, e.p);
    hide Slots, Effect, Enabled, FineBefore, Nest, KidsOk;
    if c == e.p {
      KidsSelf(s, e);
    } else {
      KidsOther(s, e, c);
    }
  }

  lemma TablesStep(s: State, e: Event)
    requires Tables(s) && Enabled(s, e)
    ensures Tables(Apply(s, e)) && |Apply(s, e).ps| == |s.ps|
  {
    var s' := Apply(s, e);
    SlotsStep(s, e);
    forall c | 0 <= c < |s'.ps| ensures KidsOk(s', c) {
      KidsStep(s, e, c);
    }
    hide Slots, Family, Heard, Warned, Effect, KidsOk;
    forall c | 0 <= c < |s'.ps| ensures Family(s', c) && Warned(s', c) && Heard(s', c) {
      assert Family(s, c) && Warned(s, c) && Heard(s, c);
      FamilyStep(s, e, c);
      WarnedStep(s, e, c);
      HeardStep(s, e, c);
    }
  }

  // ---------------------------------------------------------------------------
  // Pids and what wait returns
  // ---------------------------------------------------------------------------

  /** Every process has a pid of its own, below the next one to be given out. */
  ghost predicate Distinct(s: State)
  {
    && (forall p | 0 <= p < |s.ps| && !s.ps[p].life.Unused? :: s.ps[p].pid < s.nextpid)
    && forall p, r | 0 <= p < |s.ps| && 0 <= r < |s.ps| && p != r && !s.ps[p].life.Unused? && !s.ps[r].life.Unused? ::
         s.ps[p].pid != s.ps[r].pid
  }

  /** A zombie's status is the one it exited with; nobody else has exited. */
  ghost predicate Exits(s: State)
  {
    && (forall x | x in s.exited :: x < s.nextpid)
    && forall p | 0 <= p < |s.ps| && !s.ps[p].life.Unused? ::
         if s.ps[p].life.Zombie? then s.ps[p].pid in s.exited && s.exited[s.ps[p].pid] == s.ps[p].xstate
         else s.ps[p].pid !in s.exited
  }

  ghost predicate Told(s: State, r: Reap) { r.pid in s.exited && s.exited[r.pid] == r.status }

  /** What wait returned are pids of processes that are gone, each once, with their status. */
  ghost predicate Returned(s: State)
  {
    && (forall i | 0 <= i < |s.reaps| :: Told(s, s.reaps[i]))
    && (forall i, p | 0 <= i < |s.reaps| && 0 <= p < |s.ps| && !s.ps[p].life.Unused? :: s.reaps[i].pid != s.ps[p].pid)
    && (forall i, j | 0 <= i < j < |s.reaps| :: s.reaps[i].pid != s.reaps[j].pid)
  }

  ghost predicate Pids(s: State) { Distinct(s) && Exits(s) && Returned(s) }

  /** The slot is used as before, by the same process. */
  predicate SameProcess(q: Slot, r: Slot)
  {
    r.pid == q.pid && (r.life.Unused? <==> q.life.Unused?) && (r.life.Zombie? <==> q.life.Zombie?)
    && (q.life.Zombie? ==> r.xstate == q.xstate)
  }

  /** What a change does to pids: one process at most comes, goes or becomes a zombie. */
  predicate Ids(s: State, e: Event, ch: Change)
    requires Enabled(s, e)
  {
    var q := s.ps[e.p];
    && (if e.Go? && q.pc.ExitZombie? then q.life.Alive? && ch.me == q.(pc := ExitDrop, life := Zombie)
        else SameProcess(q, ch.me))
    && (ch.x < |s.ps| && ch.x != e.p ==>
          if e.Fork? then s.ps[ch.x].life.Unused? && ch.other.life.Used? && ch.other.pid == s.nextpid
          else if Frees(s, e) then s.ps[ch.x].life.Zombie? && ch.x == q.pc.j && ch.other.life.Unused?
          else if e.ForkFail? then ch.other.life.Unused?
          else SameProcess(s.ps[ch.x], ch.other))
    && (Frees(s, e) ==> ch.x == q.pc.j && ch.x != e.p && ch.x < |s.ps|)
    && (e.Fork? ==> ch.x != e.p)
  }

  lemma CallIds(s: State, e: Event)
    requires Enabled(s, e) && Nest(s, e.p) && FineBefore(s, e.p, Effect(s, e)) && !e.Go?
    ensures Ids(s, e, Effect(s, e))
  {
    hide ForkStep, ExitStep, WaitStep, SleepStep;
  }

  lemma GoIds(s: State, e: Event)
    requires Enabled(s, e) && Nest(s, e.p) && FineBefore(s, e.p, Effect(s, e)) && e.Go?
    ensures Ids(s, e, Effect(s, e))
  {
    hide CallStep;
  }

  lemma EffectIds(s: State, e: Event)
    requires Enabled(s, e) && Nest(s, e.p) && FineBefore(s, e.p, Effect(s, e))
    ensures Ids(s, e, Effect(s, e))
  {
    hide *;
    if e.Go? {
      GoIds(s, e);
    } else {
      CallIds(s, e);
    }
  }

  lemma PidBelow(s: State, e: Event, p: nat)
    requires Distinct(s) && Enabled(s, e) && Ids(s, e, Effect(s, e)) && p < |s.ps| && !Apply(s, e).ps[p].life.Unused?
    ensures Apply(s, e).ps[p].pid < Apply(s, e).nextpid
    ensures Apply(s, e).ps[p].pid == if e.Fork? && p == Effect(s, e).x then s.nextpid else s.ps[p].pid
    ensures s.ps[p].life.Unused? ==> e.Fork? && p == Effect(s, e).x
  {
    hide Effect;
  }

  lemma DistinctStep(s: State, e: Event)
    requires Distinct(s) && Enabled(s, e) && Ids(s, e, Effect(s, e))
    ensures Distinct(Apply(s, e))
  {
    hide Effect;
    var s' := Apply(s, e);
    assert |s'.ps| == |s.ps|;
    forall p | 0 <= p < |s.ps| && !s'.ps[p].life.Unused?
      ensures s'.ps[p].pid < s'.nextpid
      ensures s'.ps[p].pid == if e.Fork? && p == Effect(s, e).x then s.nextpid else s.ps[p].pid
      ensures s.ps[p].life.Unused? ==> e.Fork? && p == Effect(s, e).x
    {
      PidBelow(s, e, p);
    }
    hide Apply, Ids;
  }

  lemma ExitsStep(s: State, e: Event)
    requires Distinct(s) && Exits(s) && Enabled(s, e) && Ids(s, e, Effect(s, e))
    ensures Exits(Apply(s, e))
  {
    hide Effect;
  }

  lemma ReturnedStep(s: State, e: Event)
    requires Distinct(s) && Exits(s) && Returned(s) && Enabled(s, e) && Ids(s, e, Effect(s, e))
    ensures Returned(Apply(s, e))
  {
    hide Effect;
  }

  lemma PidsStep(s: State, e: Event)
    requires Slots(s) && Pids(s) && Enabled(s, e)
    ensures Pids(Apply(s, e))
  {
    var p, ch := e.p, Effect(s, e);
    assert FineBefore(s, p, ch) && Nest(s, p);
    EffectIds(s, e);
    hide Slots, Effect, FineBefore, Nest, Ids, Distinct, Exits, Returned;
    DistinctStep(s, e);
    ExitsStep(s, e);
    ReturnedStep(s, e);
  }

  // ---------------------------------------------------------------------------
  // The theorems
  // ---------------------------------------------------------------------------

  lemma BootInv(n: nat)
    requires 0 < n
    ensures Tables(Boot(n)) && Pids(Boot(n))
  {
    var s := Boot(n);
    assert forall i | 0 <= i < n :: s.ps[i] == BootSlot(i);
    hide Boot;
  }

  lemma {:induction false} RunInv(s: State, es: seq<Event>)
    requires Tables(s) && Pids(s) && Runs(s, es)
    ensures Tables(Run(s, es)) && Pids(Run(s, es))
    decreases es
  {
    hide Slots, Family, Heard, Warned, Pids, Enabled, Apply;
    if es != [] {
      TablesStep(s, es[0]);
      PidsStep(s, es[0]);
      RunInv(Apply(s, es[0]), es[1..]);
    }
  }

  /** `s` is a state of some run with `n` slots. */
  ghost predicate Reached(n: nat, es: seq<Event>, s: State) { 0 < n && Runs(Boot(n), es) && s == Run(Boot(n), es) }

  lemma ReachedInv(n: nat, es: seq<Event>, s: State)
    requires Reached(n, es, s)
    ensures Tables(s) && Pids(s)
  {
    hide Tables, Pids;
    BootInv(n);
    RunInv(Boot(n), es);
  }

  /** No child has a parent that is a zombie or whose slot is unused. */
  lemma ParentsAlive(n: nat, es: seq<Event>, s: State, c: nat)
    requires Reached(n, es, s) && c < |s.ps| && s.ps[c].parent.Some?
    ensures s.ps[c].parent.value < |s.ps| && s.ps[s.ps[c].parent.value].life == Alive && s.ps[c].parent.value != c
  {
    ReachedInv(n, es, s);
    assert Family(s, c);
  }

  /** No process is ever without somebody to wait for it: every process but init has a parent. */
  lemma EveryoneHasParent(n: nat, es: seq<Event>, s: State, c: nat)
    requires Reached(n, es, s) && 0 < c < |s.ps| && (s.ps[c].life == Alive || s.ps[c].life == Zombie)
    ensures s.ps[c].parent.Some?
  {
    ReachedInv(n, es, s);
    assert Fine(s.wait, c, s.ps[c]);
  }

  /** wait returns each process at most once, after it has exited, with the status it exited with. */
  lemma ReapedOnce(n: nat, es: seq<Event>, s: State, i: nat, j: nat)
    requires Reached(n, es, s) && i < |s.reaps| && j < |s.reaps|
    ensures Told(s, s.reaps[i])
    ensures i != j ==> s.reaps[i].pid != s.reaps[j].pid
  {
    ReachedInv(n, es, s);
    hide Tables;
    assert i < j ==> s.reaps[i].pid != s.reaps[j].pid;
    assert j < i ==> s.reaps[j].pid != s.reaps[i].pid;
  }

  /** While wait_lock is free, no process sleeps in wait with a zombie child. */
  lemma NoSleepingParent(n: nat, es: seq<Event>, s: State, c: nat)
    requires Reached(n, es, s) && c < |s.ps| && s.wait == None && s.ps[c].life == Zombie
    ensures s.ps[c].parent.Some? && s.ps[c].parent.value < |s.ps|
    ensures !(s.ps[s.ps[c].parent.value].sleeping && s.ps[s.ps[c].parent.value].chan == InWait)
  {
    ReachedInv(n, es, s);
    assert Family(s, c) && Heard(s, c) && Fine(s.wait, c, s.ps[c]);
    assert Fine(s.wait, s.ps[c].parent.value, s.ps[s.ps[c].parent.value]);
  }

  /** How wait ends a scan that has come to the end of the table: there is no zombie child, and it
      returns -1 exactly if the process is killed or has no child at all, and otherwise goes to sleep. */
  lemma WaitOutcome(n: nat, es: seq<Event>, s: State, p: nat)
    requires Reached(n, es, s) && p < |s.ps| && s.ps[p].pc.Scan? && s.ps[p].pc.j >= |s.ps|
    ensures Enabled(s, Go(p)) && forall c | 0 <= c < |s.ps| :: !Found(s, p, c)
    ensures var t := Apply(s, Go(p));
            && t.reaps == s.reaps
            && (s.ps[p].killed || !ChildBelow(s, p, |s.ps|) ==> t.ps[p].pc == Out && t.wait == None)
            && (!s.ps[p].killed && ChildBelow(s, p, |s.ps|) ==> t.ps[p].pc == Enter)
  {
    ReachedInv(n, es, s);
    assert KidsOk(s, p);
    forall c | 0 <= c < |s.ps| ensures !Found(s, p, c) {
      assert Heard(s, c);
    }
    assert ChildBelow(s, p, s.ps[p].pc.j) <==> ChildBelow(s, p, |s.ps|);
  }

  /** The step gives the slot of `p` back: fork or wait calls freeproc on it. */
  predicate Freed(s: State, e: Event, p: nat)
    requires Enabled(s, e) && p < |s.ps|
  {
    !s.ps[p].life.Unused? && Apply(s, e).ps[p].life.Unused?
  }

  /** What a change does to the killed flags. */
  predicate Marks(s: State, e: Event, ch: Change)
    requires Enabled(s, e)
  {
    && (ch.me.killed <==> e.Kill? || s.ps[e.p].killed) && (ch.me.life.Unused? <==> s.ps[e.p].life.Unused?)
    && (e.Kill? ==> !ch.me.sleeping)
    && (ch.x < |s.ps| && ch.x != e.p ==>
          (ch.other.killed <==> s.ps[ch.x].killed && (s.ps[ch.x].life.Unused? || !ch.other.life.Unused?)))
  }

  lemma CallMarks(s: State, e: Event)
    requires Enabled(s, e) && Nest(s, e.p) && FineBefore(s, e.p, Effect(s, e)) && !e.Go?
    ensures Marks(s, e, Effect(s, e))
  {
    hide ForkStep, ExitStep, WaitStep, SleepStep;
  }

  lemma GoMarks(s: State, e: Event)
    requires Enabled(s, e) && Nest(s, e.p) && FineBefore(s, e.p, Effect(s, e)) && e.Go?
    ensures Marks(s, e, Effect(s, e))
  {
    hide CallStep;
  }

  /** A process is marked killed exactly from a kill until its slot is given back, and kill wakes it. */
  lemma KilledLaw(n: nat, es: seq<Event>, s: State, e: Event, p: nat)
    requires Reached(n, es, s) && Enabled(s, e) && p < |s.ps|
    ensures Apply(s, e).ps[p].killed <==> e == Kill(p) || (s.ps[p].killed && !Freed(s, e, p))
    ensures e == Kill(p) ==> !Apply(s, e).ps[p].sleeping
  {
    ReachedInv(n, es, s);
    hide Reached, Pids, Enabled, Effect, Fine, Nest;
    assert FineBefore(s, e.p, Effect(s, e)) && Nest(s, e.p);
    hide Tables, FineBefore;
    EffectMarks(s, e);
  }

  lemma EffectMarks(s: State, e: Event)
    requires Enabled(s, e) && Nest(s, e.p) && FineBefore(s, e.p, Effect(s, e))
    ensures Marks(s, e, Effect(s, e))
  {
    hide *;
    if e.Go? {
      GoMarks(s, e);
    } else {
      CallMarks(s, e);
    }
  }

  /** wait frees a process only when it has given up the CPU for good, so nothing still runs on the
      kernel stack that goes with the slot. */
  lemma ReapedIsDead(n: nat, es: seq<Event>, s: State, p: nat)
    requires Reached(n, es, s) && Enabled(s, Go(p)) && Frees(s, Go(p))
    ensures s.ps[s.ps[p].pc.j].pc == Dead
    ensures Freed(s, Go(p), s.ps[p].pc.j)
  {
    ReachedInv(n, es, s);
    var j := s.ps[p].pc.j;
    assert Fine(s.wait, j, s.ps[j]) && Fine(s.wait, p, s.ps[p]);
  }

  /** A fork that fails in the copy of the address space leaves nothing behind but the pid it used. */
  lemma FailedFork(n: nat, es: seq<Event>, s: State, p: nat, np: nat)
    requires Reached(n, es, s) && Enabled(s, Fork(p, np))
    ensures var t := Apply(s, Fork(p, np));
            Enabled(t, ForkFail(p)) && Apply(t, ForkFail(p)) == s.(ps := s.ps[np := Empty()], nextpid := s.nextpid + 1)
  {
    var t := Apply(s, Fork(p, np));
    var u := Apply(t, ForkFail(p));
    assert u.ps == s.ps[np := Empty()];
  }

  predicate FallsAsleep(s: State, e: Event, p: nat)
    requires p < |s.ps|
  {
    e == SleepElsewhere(p) || (e == Go(p) && s.ps[p].pc.Doze?)
  }

  /** The step is a kill, the wakeup of another channel, or the wakeup of the parent or of init in exit. */
  predicate WokenBy(s: State, e: Event, p: nat)
    requires e.p < |s.ps| && p < |s.ps|
  {
    || e == Kill(p) || e == WakeElsewhere(p)
    || (e.Go? && s.ps[p].chan == InWait
        && ((s.ps[e.p].pc.WakeInit? && p == 0) || (s.ps[e.p].pc.WakeParent? && s.ps[e.p].parent == Some(p))))
  }

  /** What a change does to who is asleep. */
  predicate Sleeps(s: State, e: Event, ch: Change)
    requires Enabled(s, e)
  {
    && (ch.me.sleeping <==> FallsAsleep(s, e, e.p) || (s.ps[e.p].sleeping && !WokenBy(s, e, e.p)))
    && (ch.x < |s.ps| && ch.x != e.p ==> (ch.other.sleeping <==> s.ps[ch.x].sleeping && !WokenBy(s, e, ch.x)))
    && forall p: nat | p < |s.ps| && p != e.p && p != ch.x :: !WokenBy(s, e, p)
  }

  lemma CallSleeps(s: State, e: Event)
    requires Enabled(s, e) && Nest(s, e.p) && FineBefore(s, e.p, Effect(s, e)) && !e.Go?
    ensures Sleeps(s, e, Effect(s, e))
  {
    hide ForkStep, ExitStep, WaitStep, SleepStep;
  }

  lemma GoSleeps(s: State, e: Event)
    requires Enabled(s, e) && Nest(s, e.p) && FineBefore(s, e.p, Effect(s, e)) && e.Go?
    ensures Sleeps(s, e, Effect(s, e))
  {
    hide CallStep;
  }

  /** A process is asleep exactly from its sleep to a wakeup on its channel or a kill, and takes no step
      meanwhile but the one that gives up the CPU. */
  lemma SleepLaw(n: nat, es: seq<Event>, s: State, e: Event, p: nat)
    requires Reached(n, es, s) && Enabled(s, e) && p < |s.ps|
    ensures |Apply(s, e).ps| == |s.ps|
    ensures Apply(s, e).ps[p].sleeping <==> FallsAsleep(s, e, p) || (s.ps[p].sleeping && !WokenBy(s, e, p))
    ensures s.ps[p].sleeping && !s.ps[p].pc.Sched? ==> !Enabled(s, Go(p))
  {
    ReachedInv(n, es, s);
    hide Reached, Pids, Enabled, Effect, Fine, Nest, WokenBy, FallsAsleep;
    assert FineBefore(s, e.p, Effect(s, e)) && Nest(s, e.p);
    assert Fine(s.wait, p, s.ps[p]);
    hide Tables, FineBefore;
    AsleepStays(s, p);
    EffectSleeps(s, e);
  }

  lemma AsleepStays(s: State, p: nat)
    requires p < |s.ps| && Fine(s.wait, p, s.ps[p])
    ensures s.ps[p].sleeping && !s.ps[p].pc.Sched? ==> !Enabled(s, Go(p))
  {
  }

  lemma EffectSleeps(s: State, e: Event)
    requires Enabled(s, e) && Nest(s, e.p) && FineBefore(s, e.p, Effect(s, e))
    ensures Sleeps(s, e, Effect(s, e))
    ensures forall p: nat | p < |s.ps| && p != e.p :: !FallsAsleep(s, e, p)
  {
    if e.Go? {
      hide Effect, Enabled, Nest, FineBefore, Sleeps;
      GoSleeps(s, e);
    } else {
      hide Effect, Enabled, Nest, FineBefore, Sleeps;
      CallSleeps(s, e);
    }
  }
}
