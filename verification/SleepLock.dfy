/** kernel/sleeplock.c on top of sleep, wakeup and kill of kernel/proc.c: any number of processes
    contend for one sleep lock, interleaved at every point where one of them holds no spin lock the
    next step needs.  A critical section of one spin lock that touches nothing else is one step. */
module SleepLock {
  import opened Common

  /** Where a process is in acquiresleep (to `Got`), sleep (`Enter` to `Back`) or releasesleep. */
  datatype Pc =
    | Out
    | Want                   // waiting for lk->lk
    | Test                   // has lk->lk, at the test of lk->locked
    | Enter                  // in sleep, about to take p->lock
    | Drop                   // has p->lock, about to release lk->lk
    | Mark                   // about to set p->chan
    | Doze                   // about to set p->state to SLEEPING
    | Sched                  // on its way to the scheduler, p->lock still held
    | Gone                   // given up the CPU
    | Wake                   // on a CPU again, with p->lock
    | Back                   // waiting for lk->lk again
    | Got                    // has set lk->locked, still has lk->lk
    | Holds
    | Leave                  // in releasesleep, waiting for lk->lk
    | Clear                  // has lk->lk, about to clear lk->locked
    | Scan(j: nat)           // in wakeup, at process j

  /** What it waits for: nothing, the sleep lock, or something else. */
  datatype Chan = None | Lock | Other

  datatype Proc = Proc(pc: Pc, sleeping: bool, chan: Chan)

  /** `spin` is who has lk->lk; `pid` is the index of the holder plus one. */
  datatype State = State(ps: seq<Proc>, spin: Option<nat>, locked: bool, pid: nat)

  /** p->lock is held by the process itself (wakeup and kill hold it for one step only). */
  predicate OwnLock(pc: Pc) { pc.Drop? || pc.Mark? || pc.Doze? || pc.Sched? || pc.Wake? }

  predicate HasSpin(pc: Pc) { pc.Test? || pc.Enter? || pc.Drop? || pc.Got? || pc.Clear? || pc.Scan? }

  /** Between setting lk->locked and clearing it. */
  predicate Owner(pc: Pc) { pc.Got? || pc.Holds? || pc.Leave? || pc.Clear? }

  datatype Event =
    | Go(p: nat)                  // the next statement of process p
    | Kill(p: nat)
    | SleepElsewhere(p: nat)      // on another channel, with or without the lock
    | WakeElsewhere(p: nat)

  /** Whether the next statement of `p` can run. */
  predicate Ready(s: State, p: nat)
    requires p < |s.ps|
  {
    match s.ps[p].pc
    case Out | Holds => !s.ps[p].sleeping
    case Want | Back | Leave => s.spin.None?
    case Gone => !s.ps[p].sleeping
    case Scan(j) => j < |s.ps| && j != p ==> !OwnLock(s.ps[j].pc)
    case _ => true
  }

  predicate Enabled(s: State, e: Event)
  {
    e.p < |s.ps| &&
    match e
    case Go(p) => Ready(s, p)
    case Kill(p) => !OwnLock(s.ps[p].pc)
    case SleepElsewhere(p) => (s.ps[p].pc.Out? || s.ps[p].pc.Holds?) && !s.ps[p].sleeping
    case WakeElsewhere(p) => s.ps[p].sleeping && s.ps[p].chan.Other? && !OwnLock(s.ps[p].pc)
  }

  function At(s: State, p: nat, pc: Pc): State
    requires p < |s.ps|
  {
    s.(ps := s.ps[p := s.ps[p].(pc := pc)])
  }

  function Roused(s: State, p: nat): State
    requires p < |s.ps|
  {
    s.(ps := s.ps[p := s.ps[p].(sleeping := false)])
  }

  /** The test of wakeup: p != myproc(), asleep on this channel. */
  predicate Waits(s: State, p: nat, j: nat)
    requires j < |s.ps|
  {
    j != p && s.ps[j].sleeping && s.ps[j].chan.Lock?
  }

  function Step(s: State, p: nat): State
    requires p < |s.ps| && Ready(s, p)
  {
    match s.ps[p].pc
    case Out => At(s, p, Want)
    case Want => At(s, p, Test).(spin := Some(p))
    case Test => if s.locked then At(s, p, Enter) else At(s, p, Got).(locked := true, pid := p + 1)
    case Enter => At(s, p, Drop)
    case Drop => At(s, p, Mark).(spin := Option.None)
    case Mark => s.(ps := s.ps[p := s.ps[p].(pc := Doze, chan := Lock)])
    case Doze => s.(ps := s.ps[p := s.ps[p].(pc := Sched, sleeping := true)])
    case Sched => At(s, p, Gone)
    case Gone => At(s, p, Wake)
    case Wake => s.(ps := s.ps[p := s.ps[p].(pc := Back, chan := Chan.None)])
    case Back => At(s, p, Test).(spin := Some(p))
    case Got => At(s, p, Holds).(spin := Option.None)
    case Holds => At(s, p, Leave)
    case Leave => At(s, p, Clear).(spin := Some(p))
    case Clear => At(s, p, Scan(0)).(locked := false, pid := 0)
    case Scan(j) =>
      if j >= |s.ps| then At(s, p, Out).(spin := Option.None)
      else
        var s' := if Waits(s, p, j) then Roused(s, j) else s;
        At(s', p, Scan(j + 1))
  }

  function Apply(s: State, e: Event): State
    requires Enabled(s, e)
  {
    match e
    case Go(p) => Step(s, p)
    case Kill(p) => Roused(s, p)
    case SleepElsewhere(p) => s.(ps := s.ps[p := s.ps[p].(sleeping := true, chan := Other)])
    case WakeElsewhere(p) => Roused(s, p)
  }

  predicate Runs(s: State, es: seq<Event>)
    decreases es
  {
    es == [] || (Enabled(s, es[0]) && Runs(Apply(s, es[0]), es[1..]))
  }

  function Run(s: State, es: seq<Event>): State
    requires Runs(s, es)
    decreases es
  {
    if es == [] then s else Run(Apply(s, es[0]), es[1..])
  }

  /** Nobody in the lock code, the lock free. */
  function Start(n: nat): State { State(seq(n, _ => Proc(Out, false, Chan.None)), Option.None, false, 0) }

  // ---------------------------------------------------------------------------
  // The invariant
  // ---------------------------------------------------------------------------

  /** On its way to sleep for the lock, or asleep for it. */
  predicate Committed(q: Proc)
  {
    q.pc.Mark? || q.pc.Doze? || ((q.pc.Sched? || q.pc.Gone?) && q.sleeping)
  }

  /** Some release is in progress that has not looked at `p` yet. */
  predicate WillBeSeen(s: State, p: nat)
  {
    s.spin.Some? && s.spin.value < |s.ps| && s.ps[s.spin.value].pc.Scan? && s.ps[s.spin.value].pc.j <= p
  }

  /** What holds of one process. */
  predicate Fine(s: State, p: nat)
    requires p < |s.ps|
  {
    var q := s.ps[p];
    && (HasSpin(q.pc) <==> s.spin == Some(p))
    && (Owner(q.pc) <==> s.locked && s.pid == p + 1)
    && (q.pc.Enter? || q.pc.Drop? ==> s.locked)
    && (q.pc.Scan? ==> !s.locked)
    && (q.chan.Lock? <==> q.pc.Doze? || q.pc.Sched? || q.pc.Gone? || q.pc.Wake?)
    && (q.sleeping ==> q.pc.Sched? || q.pc.Gone? || ((q.pc.Out? || q.pc.Holds?) && q.chan.Other?))
    && (Committed(q) ==> s.locked || WillBeSeen(s, p))
  }

  ghost predicate Inv(s: State)
  {
    && (s.spin.Some? ==> s.spin.value < |s.ps|)
    && (if s.locked then 0 < s.pid <= |s.ps| else s.pid == 0)
    && forall p | 0 <= p < |s.ps| :: Fine(s, p)
  }

  lemma StartInv(n: nat)
    ensures Inv(Start(n))
  {
  }

  /** A step of `p` keeps what holds of `q`. */
  lemma GoFine(s: State, p: nat, q: nat)
    requires p < |s.ps| && q < |s.ps| && Ready(s, p) && Fine(s, p) && Fine(s, q) && p != q
    ensures |Step(s, p).ps| == |s.ps| && Fine(Step(s, p), q)
  {
    hide Fine, Step, Ready;
    if s.ps[p].pc.Scan? {
      ScanFine(s, p, q);
    } else {
      PlainFine(s, p, q);
    }
  }

  lemma ScanFine(s: State, p: nat, q: nat)
    requires p < |s.ps| && q < |s.ps| && Ready(s, p) && Fine(s, p) && Fine(s, q) && p != q && s.ps[p].pc.Scan?
    ensures |Step(s, p).ps| == |s.ps| && Fine(Step(s, p), q)
  {
  }

  lemma PlainFine(s: State, p: nat, q: nat)
    requires p < |s.ps| && q < |s.ps| && Ready(s, p) && Fine(s, p) && Fine(s, q) && p != q && !s.ps[p].pc.Scan?
    ensures |Step(s, p).ps| == |s.ps| && Fine(Step(s, p), q)
  {
  }

  lemma GoFineSelf(s: State, p: nat)
    requires p < |s.ps| && Ready(s, p) && Fine(s, p)
    ensures |Step(s, p).ps| == |s.ps| && Fine(Step(s, p), p)
  {
  }

  lemma StepInv(s: State, e: Event)
    requires Inv(s) && Enabled(s, e)
    ensures Inv(Apply(s, e))
  {
    var s', p := Apply(s, e), e.p;
    assert Fine(s, p);
    if e.Go? {
      forall q | 0 <= q < |s.ps| ensures |s'.ps| == |s.ps| && Fine(s', q) {
        assert Fine(s, q);
        GoFineSelf(s, p);
        if q != p {
          GoFine(s, p, q);
        }
      }
      assert Fine(s', p);
    } else {
      forall q | 0 <= q < |s'.ps| ensures Fine(s', q) {
        assert Fine(s, q);
      }
    }
  }

  lemma {:induction false} RunInv(s: State, es: seq<Event>)
    requires Inv(s) && Runs(s, es)
    ensures Inv(Run(s, es)) && |Run(s, es).ps| == |s.ps|
    decreases es
  {
    if es != [] {
      StepInv(s, es[0]);
      RunInv(Apply(s, es[0]), es[1..]);
    }
  }

  /** `s` is a state of some run of `n` processes. */
  ghost predicate Reached(n: nat, es: seq<Event>, s: State) { Runs(Start(n), es) && s == Run(Start(n), es) }

  lemma ReachedInv(n: nat, es: seq<Event>, s: State)
    requires Reached(n, es, s)
    ensures Inv(s) && |s.ps| == n
  {
    StartInv(n);
    RunInv(Start(n), es);
  }

  // ---------------------------------------------------------------------------
  // The theorems
  // ---------------------------------------------------------------------------

  /** At most one process holds the sleep lock. */
  lemma MutualExclusion(n: nat, es: seq<Event>, s: State, p: nat, q: nat)
    requires Reached(n, es, s) && p < |s.ps| && q < |s.ps| && Owner(s.ps[p].pc) && Owner(s.ps[q].pc)
    ensures p == q
  {
    ReachedInv(n, es, s);
    assert Fine(s, p) && Fine(s, q);
  }

  /** holdingsleep answers yes exactly to the holder; a free lock names nobody. */
  lemma HoldingExact(n: nat, es: seq<Event>, s: State, p: nat)
    requires Reached(n, es, s) && p < |s.ps|
    ensures Owner(s.ps[p].pc) <==> s.locked && s.pid == p + 1
    ensures !s.locked ==> s.pid == 0
  {
    ReachedInv(n, es, s);
    assert Fine(s, p);
  }

  predicate Releasing(s: State) { exists p :: 0 <= p < |s.ps| && s.ps[p].pc.Scan? }

  /** No lost wakeup: unless a release is in progress, nobody sleeps for a lock that is free. */
  lemma NoLostWakeup(n: nat, es: seq<Event>, s: State, p: nat)
    requires Reached(n, es, s) && p < |s.ps| && !s.locked && !Releasing(s)
    ensures !(s.ps[p].sleeping && s.ps[p].chan.Lock?)
  {
    ReachedInv(n, es, s);
    assert Fine(s, p);
  }

  /** While a release is in progress, a sleeper it has already passed does not exist either. */
  lemma ScanLeavesNobody(n: nat, es: seq<Event>, s: State, r: nat, p: nat)
    requires Reached(n, es, s) && r < |s.ps| && p < |s.ps| && s.ps[r].pc.Scan? && p < s.ps[r].pc.j
    ensures !(s.ps[p].sleeping && s.ps[p].chan.Lock?) && !s.locked
  {
    ReachedInv(n, es, s);
    assert Fine(s, p) && Fine(s, r);
  }

  predicate FallsAsleep(s: State, e: Event, p: nat)
    requires p < |s.ps|
  {
    e == SleepElsewhere(p) || (e == Go(p) && s.ps[p].pc.Doze?)
  }

  /** The step is a kill, the wakeup of another channel, or the look of a release at a sleeper. */
  predicate WokenBy(s: State, e: Event, p: nat)
    requires e.p < |s.ps| && p < |s.ps|
  {
    || e == Kill(p) || e == WakeElsewhere(p)
    || (e.Go? && e.p != p && s.ps[e.p].pc == Scan(p) && s.ps[p].chan.Lock?)
  }

  /** A process is asleep exactly from its sleep to a wakeup on its channel or a kill, and takes no step
      meanwhile but the one that gives up the CPU. */
  lemma SleepLaw(n: nat, es: seq<Event>, s: State, e: Event, p: nat)
    requires Reached(n, es, s) && Enabled(s, e) && p < |s.ps|
    ensures |Apply(s, e).ps| == |s.ps|
    ensures Apply(s, e).ps[p].sleeping <==> FallsAsleep(s, e, p) || (s.ps[p].sleeping && !WokenBy(s, e, p))
    ensures s.ps[p].sleeping && !s.ps[p].pc.Sched? ==> !Enabled(s, Go(p))
  {
    ReachedInv(n, es, s);
    assert Fine(s, p) && Fine(s, e.p);
    hide Reached, Inv;
  }
}
