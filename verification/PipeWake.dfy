/** Who sleeps and who is woken in kernel/pipe.c: any number of readers and writers of one pipe,
    interleaved wherever none of them holds a spin lock the next step needs.  The bytes themselves are
    in module Pipe; here only their number matters.  An end is closed when nobody is in a call on it. */
module PipeWake {
  import opened Common
  import P = Pipe

  datatype End = ReadEnd | WriteEnd

  /** A call, as far as it still has to go. */
  datatype Job = Writing(left: nat) | Reading(n: nat) | Closing(end: End)

  /** The places inside sleep. */
  datatype Stage = Enter | Drop | Mark | Doze | Sched | Gone | Wake

  datatype Pc =
    | Out
    | Want(job: Job)                    // waiting for pi->lock
    | Write(left: nat, due: bool)       // at the top of pipewrite's loop; `due`: bytes put in and no wakeup since
    | Full(left: nat, j: nat)           // in the wakeup before the sleep, at process j
    | Read(n: nat)                      // at the top of piperead's loop
    | Tell(to: End, j: nat)             // in the wakeup at the end of a call, at process j
    | Nap(stage: Stage, job: Job)       // in sleep

  datatype Chan = NoChan | Nread | Nwrite | Elsewhere

  datatype Proc = Proc(pc: Pc, sleeping: bool, chan: Chan, killed: bool)

  /** The pipe.  `lk` is who has pi->lock; `readable` and `writable` say that the file of that end is
      still open; `lost` that a killed writer has left without the wakeup for bytes it had put in, and
      that since then no wakeup on nread has begun and the pipe has not been emptied. */
  datatype Shared = Shared(lk: Option<nat>, count: nat, readopen: bool, writeopen: bool,
                           readable: bool, writable: bool, lost: bool)

  datatype State = State(ps: seq<Proc>, pi: Shared)

  datatype Event =
    | Go(p: nat)                       // the next statement of process p
    | Start(p: nat, job: Job)
    | Take(p: nat, t: nat)             // the copy loop of piperead takes t bytes
    | CopyFail(p: nat)                 // copyin fails in pipewrite
    | Kill(p: nat)
    | SleepElsewhere(p: nat)
    | WakeElsewhere(p: nat)

  /** p->lock is held by the process itself. */
  predicate OwnLock(pc: Pc) { pc.Nap? && !pc.stage.Enter? && !pc.stage.Gone? }

  predicate HasLock(pc: Pc)
  {
    pc.Write? || pc.Full? || pc.Read? || pc.Tell? || (pc.Nap? && (pc.stage.Enter? || pc.stage.Drop?))
  }

  predicate InRead(pc: Pc) { pc.Read? || ((pc.Want? || pc.Nap?) && pc.job.Reading?) }

  predicate InWrite(pc: Pc) { pc.Write? || pc.Full? || ((pc.Want? || pc.Nap?) && pc.job.Writing?) }

  function ChanOf(job: Job): Chan { if job.Reading? then Nread else Nwrite }

  /** What a wakeup in progress is about to look at. */
  datatype Look = Nobody | At(j: nat, chan: Chan)

  function Looks(pc: Pc): Look
  {
    match pc
    case Full(_, j) => At(j, Nread)
    case Tell(to, j) => At(j, if to.ReadEnd? then Nread else Nwrite)
    case _ => Nobody
  }

  predicate Free(s: State, p: nat, j: nat) { j < |s.ps| && j != p ==> !OwnLock(s.ps[j].pc) }

  /** Whether the next statement of `p` can run. */
  predicate Ready(s: State, p: nat)
    requires p < |s.ps|
  {
    match s.ps[p].pc
    case Out => false
    case Want(_) => s.pi.lk.None?
    case Nap(stage, _) => stage.Gone? ==> !s.ps[p].sleeping
    case Full(_, j) => Free(s, p, j)
    case Tell(_, j) => Free(s, p, j)
    case Read(_) => s.pi.count == 0 && s.pi.writeopen
    case Write(_, _) => true
  }

  predicate MayStart(s: State, job: Job)
  {
    match job
    case Reading(_) => s.pi.readable
    case Writing(_) => s.pi.writable
    case Closing(end) =>
      if end.ReadEnd? then s.pi.readable && forall p | 0 <= p < |s.ps| :: !InRead(s.ps[p].pc)
      else s.pi.writable && forall p | 0 <= p < |s.ps| :: !InWrite(s.ps[p].pc)
  }

  predicate Enabled(s: State, e: Event)
  {
    e.p < |s.ps| &&
    var q := s.ps[e.p];
    match e
    case Go(p) => Ready(s, p)
    case Start(p, job) => q.pc.Out? && !q.sleeping && MayStart(s, job)
    case Take(p, t) => q.pc.Read? && !(s.pi.count == 0 && s.pi.writeopen) && t <= q.pc.n && t <= s.pi.count
    case CopyFail(p) => q.pc.Write? && q.pc.left > 0 && s.pi.readopen && !q.killed && s.pi.count != P.PIPESIZE
    case Kill(p) => !OwnLock(q.pc)
    case SleepElsewhere(p) => q.pc.Out? && !q.sleeping
    case WakeElsewhere(p) => q.sleeping && q.chan.Elsewhere?
  }

  /** A step changes the process that takes it and the pipe; a wakeup may also rouse one other. */
  datatype Change = Change(me: Proc, pi: Shared)

  /** The next place inside sleep; the lock is given up at Drop and waited for after Wake. */
  function NapStep(pi: Shared, q: Proc, stage: Stage, job: Job): Change
  {
    match stage
    case Enter => Change(q.(pc := Nap(Drop, job)), pi)
    case Drop => Change(q.(pc := Nap(Mark, job)), pi.(lk := None))
    case Mark => Change(q.(pc := Nap(Doze, job), chan := ChanOf(job)), pi)
    case Doze => Change(q.(pc := Nap(Sched, job), sleeping := true), pi)
    case Sched => Change(q.(pc := Nap(Gone, job)), pi)
    case Gone => Change(q.(pc := Nap(Wake, job)), pi)
    case Wake => Change(q.(pc := Want(job), chan := NoChan), pi)
  }

  /** Taking the lock: a call goes on where it was, a close takes effect. */
  function Locked(pi: Shared, p: nat, q: Proc, job: Job): Change
  {
    match job
    case Writing(left) => Change(q.(pc := Write(left, false)), pi.(lk := Some(p)))
    case Reading(n) => Change(q.(pc := Read(n)), pi.(lk := Some(p)))
    case Closing(end) =>
      if end.ReadEnd? then Change(q.(pc := Tell(WriteEnd, 0)), pi.(lk := Some(p), readopen := false))
      else Change(q.(pc := Tell(ReadEnd, 0)), pi.(lk := Some(p), writeopen := false, lost := false))
  }

  function WriteStep(pi: Shared, q: Proc, left: nat, due: bool): Change
  {
    if left == 0 then Change(q.(pc := Tell(ReadEnd, 0)), pi.(lost := false))
    else if !pi.readopen || q.killed then
      Change(q.(pc := Out), pi.(lk := None, lost := pi.lost || (due && pi.readopen)))
    else if pi.count == P.PIPESIZE then Change(q.(pc := Full(left, 0)), pi.(lost := false))
    else Change(q.(pc := Write(left - 1, true)), pi.(count := pi.count + 1))
  }

  /** The next statement of process `p` out of `n`. */
  function GoStep(pi: Shared, n: nat, p: nat, q: Proc): Change
  {
    match q.pc
    case Out => Change(q, pi)
    case Want(job) => Locked(pi, p, q, job)
    case Write(left, due) => WriteStep(pi, q, left, due)
    case Full(left, j) => Change(q.(pc := if j < n then Full(left, j + 1) else Nap(Enter, Writing(left))), pi)
    case Read(k) =>
      if q.killed then Change(q.(pc := Out), pi.(lk := None)) else Change(q.(pc := Nap(Enter, Reading(k))), pi)
    case Tell(to, j) =>
      if j < n then Change(q.(pc := Tell(to, j + 1)), pi) else Change(q.(pc := Out), pi.(lk := None))
    case Nap(stage, job) => NapStep(pi, q, stage, job)
  }

  function CallStep(pi: Shared, q: Proc, e: Event): Change
  {
    match e
    case Go(_) => Change(q, pi)
    case Start(_, job) =>
      Change(q.(pc := Want(job)),
             pi.(readable := pi.readable && job != Closing(ReadEnd),
                 writable := pi.writable && job != Closing(WriteEnd)))
    case Take(_, t) =>
      var count := if t <= pi.count then pi.count - t else 0;
      Change(q.(pc := Tell(WriteEnd, 0)), pi.(count := count, lost := pi.lost && count > 0))
    case CopyFail(_) => Change(q.(pc := Tell(ReadEnd, 0)), pi.(lost := false))
    case Kill(_) => Change(q.(killed := true, sleeping := false), pi)
    case SleepElsewhere(_) => Change(q.(sleeping := true, chan := Elsewhere), pi)
    case WakeElsewhere(_) => Change(q.(sleeping := false), pi)
  }

  function Effect(s: State, e: Event): Change
    requires Enabled(s, e)
  {
    if e.Go? then GoStep(s.pi, |s.ps|, e.p, s.ps[e.p]) else CallStep(s.pi, s.ps[e.p], e)
  }

  /** wakeup looks at one process. */
  function Woken(r: Proc, chan: Chan): Proc { if r.sleeping && r.chan == chan then r.(sleeping := false) else r }

  /** Process `c` after the wakeup of the step, if it is the one looked at. */
  function Roused(s: State, e: Event, c: nat): Proc
    requires Enabled(s, e) && c < |s.ps|
  {
    var l := Looks(s.ps[e.p].pc);
    if e.Go? && l.At? && l.j == c && c != e.p then Woken(s.ps[c], l.chan) else s.ps[c]
  }

  function Apply(s: State, e: Event): State
    requires Enabled(s, e)
  {
    var ch := Effect(s, e);
    State(seq(|s.ps|, c requires 0 <= c < |s.ps| => if c == e.p then ch.me else Roused(s, e, c)), ch.pi)
  }

  predicate Runs(s: State, es: seq<Event>)
    decreases es
  {
    es == [] || (Enabled(s, es[0]) && Runs(Apply(s, es[0]), es[1..]))
  }

  function Run(s: State, es: seq<Event>): State
    requires Runs(s, es)
    decreases es
  {
    if es == [] then s else Run(Apply(s, es[0]), es[1..])
  }

  /** After pipealloc. */
  function Fresh(n: nat): State
  {
    State(seq(n, _ => Proc(Out, false, NoChan, false)), Shared(None, 0, true, true, true, true, false))
  }

  // ---------------------------------------------------------------------------
  // The invariant
  // ---------------------------------------------------------------------------

  /** On its way to sleep, or asleep. */
  predicate Committed(q: Proc)
  {
    q.pc.Nap? && (q.pc.stage.Mark? || q.pc.stage.Doze? || ((q.pc.stage.Sched? || q.pc.stage.Gone?) && q.sleeping))
  }

  /** The process with the lock, at `h`, is going to look at `p`, or has still to announce its bytes. */
  predicate WillTell(h: Pc, p: nat, chan: Chan)
  {
    || (Looks(h).At? && Looks(h).chan == chan && Looks(h).j <= p)
    || (h.Write? && h.due && chan.Nread?)
  }

  /** What a reader or a writer sleeps for. */
  predicate Reason(pi: Shared, job: Job)
  {
    match job
    case Reading(_) => pi.count == 0 && pi.writeopen
    case Writing(_) => pi.count == P.PIPESIZE && pi.readopen
    case Closing(_) => false
  }

  /** Process `p` in state `q`, the process with the lock being at `h`. */
  predicate Fine(pi: Shared, h: Pc, p: nat, q: Proc)
  {
    && (HasLock(q.pc) <==> pi.lk == Some(p))
    && (InRead(q.pc) ==> pi.readable) && (InWrite(q.pc) ==> pi.writable)
    && (q.pc.Full? ==> Reason(pi, Writing(0))) && (q.pc.Write? && q.pc.due ==> pi.count > 0)
    && (q.pc.Want? && q.pc.job.Closing? ==> if q.pc.job.end.ReadEnd? then !pi.readable else !pi.writable)
    && (q.sleeping ==> q.pc.Nap? || (q.pc.Out? && q.chan.Elsewhere?))
    && (q.chan.Nread? || q.chan.Nwrite? ==> q.pc.Nap? && OnChan(q.pc.stage))
    && (q.pc.Nap? ==> Napping(pi, h, p, q))
  }

  predicate OnChan(stage: Stage) { stage.Doze? || stage.Sched? || stage.Gone? || stage.Wake? }

  predicate Napping(pi: Shared, h: Pc, p: nat, q: Proc)
    requires q.pc.Nap?
  {
    var stage, job := q.pc.stage, q.pc.job;
    && !job.Closing?
    && (stage.Enter? || stage.Drop? ==> Reason(pi, job))
    && (OnChan(stage) ==> q.chan == ChanOf(job))
    && (q.sleeping ==> stage.Sched? || stage.Gone?)
    && (Committed(q) ==> Reason(pi, job) || WillTell(h, p, ChanOf(job)) || (pi.lost && job.Reading?))
  }

  predicate Sane(pi: Shared)
  {
    && pi.count <= P.PIPESIZE && (pi.readable ==> pi.readopen) && (pi.writable ==> pi.writeopen)
    && (pi.lost ==> pi.count > 0 && pi.writeopen)
  }

  /** Where the process with the lock is. */
  function Holder(s: State): Pc
  {
    if s.pi.lk.Some? && s.pi.lk.value < |s.ps| then s.ps[s.pi.lk.value].pc else Out
  }

  ghost predicate Inv(s: State)
  {
    && Sane(s.pi) && (s.pi.lk.Some? ==> s.pi.lk.value < |s.ps|)
    && forall p | 0 <= p < |s.ps| :: Fine(s.pi, Holder(s), p, s.ps[p])
  }

  lemma FreshInv(n: nat)
    ensures Inv(Fresh(n))
  {
  }

  /** Where the process with the lock is after a change by `p`. */
  function NextHolder(h: Pc, p: nat, ch: Change): Pc
  {
    if ch.pi.lk == Some(p) then ch.me.pc else if ch.pi.lk.None? then Out else h
  }

  /** `h` is where the process with the lock is. */
  predicate Holds(pi: Shared, h: Pc, p: nat, q: Proc) { (pi.lk == Some(p) ==> h == q.pc) && (pi.lk.None? ==> h == Out) }

  /** What Ready asks for, as far as the process and the pipe go. */
  predicate Can(pi: Shared, q: Proc)
  {
    && (q.pc.Want? ==> pi.lk.None?) && (q.pc.Nap? && q.pc.stage.Gone? ==> !q.sleeping)
    && (q.pc.Read? ==> pi.count == 0 && pi.writeopen)
  }

  lemma GoSelf(pi: Shared, h: Pc, n: nat, p: nat, q: Proc)
    requires Sane(pi) && Fine(pi, h, p, q) && Holds(pi, h, p, q) && Can(pi, q)
    ensures var ch := GoStep(pi, n, p, q); Sane(ch.pi) && Fine(ch.pi, NextHolder(h, p, ch), p, ch.me)
  {
    if q.pc.Nap? {
      NapSelf(pi, h, p, q);
    }
  }

  lemma NapSelf(pi: Shared, h: Pc, p: nat, q: Proc)
    requires Sane(pi) && Fine(pi, h, p, q) && Holds(pi, h, p, q) && Can(pi, q) && q.pc.Nap?
    ensures var ch := NapStep(pi, q, q.pc.stage, q.pc.job); Sane(ch.pi) && Fine(ch.pi, NextHolder(h, p, ch), p, ch.me)
  {
  }

  /** A step in sleep does not touch other processes. */
  lemma NapOther(pi: Shared, h: Pc, p: nat, q: Proc, c: nat, r: Proc)
    requires Sane(pi) && Fine(pi, h, p, q) && Fine(pi, h, c, r) && c != p && Holds(pi, h, p, q) && q.pc.Nap?
    ensures var ch := NapStep(pi, q, q.pc.stage, q.pc.job); Fine(ch.pi, NextHolder(h, p, ch), c, r)
  {
  }

  /** A step of wakeup rouses the process it looks at. */
  lemma LookOther(pi: Shared, h: Pc, n: nat, p: nat, q: Proc, c: nat, r: Proc)
    requires Sane(pi) && Fine(pi, h, p, q) && Fine(pi, h, c, r) && c != p && c < n && Holds(pi, h, p, q)
    requires Looks(q.pc).At? && (Looks(q.pc).j == c ==> !OwnLock(r.pc))
    ensures var ch := GoStep(pi, n, p, q);
            Fine(ch.pi, NextHolder(h, p, ch), c, if Looks(q.pc).j == c then Woken(r, Looks(q.pc).chan) else r)
  {
    hide WriteStep, Locked, NapStep;
  }

  /** Any other step. */
  lemma PlainOther(pi: Shared, h: Pc, n: nat, p: nat, q: Proc, c: nat, r: Proc)
    requires Sane(pi) && Fine(pi, h, p, q) && Fine(pi, h, c, r) && c != p && Holds(pi, h, p, q) && Can(pi, q)
    requires !Looks(q.pc).At? && !q.pc.Nap?
    ensures var ch := GoStep(pi, n, p, q); Fine(ch.pi, NextHolder(h, p, ch), c, r)
  {
    hide NapStep;
  }

  lemma GoOther(pi: Shared, h: Pc, n: nat, p: nat, q: Proc, c: nat, r: Proc)
    requires Sane(pi) && Fine(pi, h, p, q) && Fine(pi, h, c, r) && c != p && c < n && Holds(pi, h, p, q) && Can(pi, q)
    requires Looks(q.pc).At? && Looks(q.pc).j == c ==> !OwnLock(r.pc)
    ensures var ch := GoStep(pi, n, p, q);
            var r' := if Looks(q.pc).At? && Looks(q.pc).j == c then Woken(r, Looks(q.pc).chan) else r;
            Fine(ch.pi, NextHolder(h, p, ch), c, r')
  {
    hide Fine, Sane, Holds, Can, WriteStep, Locked, NapStep;
    if q.pc.Nap? {
      NapOther(pi, h, p, q, c, r);
    } else if Looks(q.pc).At? {
      LookOther(pi, h, n, p, q, c, r);
    } else {
      PlainOther(pi, h, n, p, q, c, r);
    }
  }

  lemma CallSelf(s: State, e: Event, h: Pc)
    requires Enabled(s, e) && !e.Go? && Sane(s.pi) && Fine(s.pi, h, e.p, s.ps[e.p]) && Holds(s.pi, h, e.p, s.ps[e.p])
    ensures var ch := CallStep(s.pi, s.ps[e.p], e); Sane(ch.pi) && Fine(ch.pi, NextHolder(h, e.p, ch), e.p, ch.me)
  {
  }

  lemma CallOther(s: State, e: Event, h: Pc, c: nat)
    requires Enabled(s, e) && !e.Go? && Sane(s.pi) && Fine(s.pi, h, e.p, s.ps[e.p]) && Holds(s.pi, h, e.p, s.ps[e.p])
    requires c < |s.ps| && c != e.p && Fine(s.pi, h, c, s.ps[c])
    ensures var ch := CallStep(s.pi, s.ps[e.p], e); Fine(ch.pi, NextHolder(h, e.p, ch), c, s.ps[c])
  {
  }

  lemma StepFine(s: State, e: Event, c: nat)
    requires Inv(s) && Enabled(s, e) && c < |s.ps|
    ensures var ch, h := Effect(s, e), Holder(s);
            Sane(ch.pi) && Fine(ch.pi, NextHolder(h, e.p, ch), c, Apply(s, e).ps[c])
  {
    var p, h := e.p, Holder(s);
    assert Fine(s.pi, h, p, s.ps[p]) && Fine(s.pi, h, c, s.ps[c]) && Holds(s.pi, h, p, s.ps[p]);
    hide Fine;
    if e.Go? {
      assert Can(s.pi, s.ps[p]);
      GoSelf(s.pi, h, |s.ps|, p, s.ps[p]);
      if c != p {
        GoOther(s.pi, h, |s.ps|, p, s.ps[p], c, s.ps[c]);
      }
    } else {
      CallSelf(s, e, h);
      if c != p {
        CallOther(s, e, h, c);
      }
    }
  }

  /** The lock changes hands only by the process that steps. */
  lemma StepHolder(s: State, e: Event)
    requires Inv(s) && Enabled(s, e)
    ensures Holder(Apply(s, e)) == NextHolder(Holder(s), e.p, Effect(s, e))
    ensures var lk := Effect(s, e).pi.lk; lk.Some? ==> lk.value < |s.ps|
  {
    assert Fine(s.pi, Holder(s), e.p, s.ps[e.p]);
  }

  lemma StepInv(s: State, e: Event)
    requires Inv(s) && Enabled(s, e)
    ensures Inv(Apply(s, e)) && |Apply(s, e).ps| == |s.ps|
  {
    StepHolder(s, e);
    var t := Apply(s, e);
    forall c | 0 <= c < |s.ps| ensures Sane(t.pi) && Fine(t.pi, Holder(t), c, t.ps[c]) {
      StepFine(s, e, c);
    }
    hide Fine, Holder, Enabled, Effect;
    if |s.ps| > 0 {
      StepFine(s, e, 0);
    }
  }

  lemma {:induction false} RunInv(s: State, es: seq<Event>)
    requires Inv(s) && Runs(s, es)
    ensures Inv(Run(s, es))
    decreases es
  {
    hide Inv, Enabled, Apply;
    if es != [] {
      StepInv(s, es[0]);
      RunInv(Apply(s, es[0]), es[1..]);
    }
  }

  // ---------------------------------------------------------------------------
  // The theorems
  // ---------------------------------------------------------------------------

  /** `s` is a state of some run of `n` processes. */
  ghost predicate Reached(n: nat, es: seq<Event>, s: State) { Runs(Fresh(n), es) && s == Run(Fresh(n), es) }

  /** While the lock is free, a writer sleeps only on a full pipe whose read end is open. */
  lemma NoStuckWriter(n: nat, es: seq<Event>, s: State, p: nat)
    requires Reached(n, es, s) && s.pi.lk == None && p < |s.ps| && s.ps[p].sleeping && s.ps[p].chan.Nwrite?
    ensures s.pi.count == P.PIPESIZE && s.pi.readopen
  {
    FreshInv(n);
    RunInv(Fresh(n), es);
    assert Fine(s.pi, Holder(s), p, s.ps[p]);
  }

  /** While the lock is free, a reader sleeps on an empty pipe whose write end is open, except for
      as long as the wakeup of a killed writer is lost; then there are bytes to read. */
  lemma StuckReaderIffLost(n: nat, es: seq<Event>, s: State, p: nat)
    requires Reached(n, es, s) && s.pi.lk == None && p < |s.ps| && s.ps[p].sleeping && s.ps[p].chan.Nread?
    ensures !s.pi.lost <==> s.pi.count == 0 && s.pi.writeopen
    ensures s.pi.lost ==> s.pi.count > 0
  {
    FreshInv(n);
    RunInv(Fresh(n), es);
    assert Fine(s.pi, Holder(s), p, s.ps[p]);
  }

  /** A writer that is killed in the middle of a call leaves a sleeping reader with bytes to read
      exactly if it has put bytes in since its last wakeup, or an earlier lost wakeup still is. */
  lemma KilledExit(n: nat, es: seq<Event>, s: State, p: nat, r: nat)
    requires Reached(n, es, s) && p < |s.ps| && r < |s.ps|
    requires s.ps[p].pc.Write? && s.ps[p].pc.left > 0 && s.ps[p].killed && s.pi.readopen
    requires s.ps[r].sleeping && s.ps[r].chan.Nread?
    ensures Enabled(s, Go(p))
    ensures var t := Apply(s, Go(p));
            && t.pi.lk == None && t.ps[r].sleeping && t.ps[r].chan.Nread?
            && (t.pi.count > 0 <==> s.ps[p].pc.due || s.pi.lost)
  {
    FreshInv(n);
    RunInv(Fresh(n), es);
    assert Fine(s.pi, Holder(s), p, s.ps[p]) && Fine(s.pi, Holder(s), r, s.ps[r]);
  }

  predicate FallsAsleep(s: State, e: Event, p: nat)
    requires p < |s.ps|
  {
    e == SleepElsewhere(p) || (e == Go(p) && s.ps[p].pc.Nap? && s.ps[p].pc.stage.Doze?)
  }

  /** The step is a kill, the wakeup of another channel, or the look of a wakeup at a sleeper. */
  predicate WokenBy(s: State, e: Event, p: nat)
    requires e.p < |s.ps| && p < |s.ps|
  {
    e == Kill(p) || e == WakeElsewhere(p) || (e.Go? && e.p != p && Looks(s.ps[e.p].pc) == At(p, s.ps[p].chan))
  }

  /** A process is asleep exactly from its sleep to a wakeup on its channel or a kill, and takes no step
      meanwhile but the one that gives up the CPU. */
  lemma SleepLaw(n: nat, es: seq<Event>, s: State, e: Event, p: nat)
    requires Reached(n, es, s) && Enabled(s, e) && p < |s.ps|
    ensures |Apply(s, e).ps| == |s.ps|
    ensures Apply(s, e).ps[p].sleeping <==> FallsAsleep(s, e, p) || (s.ps[p].sleeping && !WokenBy(s, e, p))
    ensures s.ps[p].sleeping && s.ps[p].pc.Nap? && !s.ps[p].pc.stage.Sched? ==> !Enabled(s, Go(p))
  {
    FreshInv(n);
    RunInv(Fresh(n), es);
    assert Fine(s.pi, Holder(s), p, s.ps[p]);
    hide Reached, Inv, Holder, Fine, Enabled, Apply, FallsAsleep, WokenBy;
    if e.p == p {
      SleepsSelf(s, e);
    } else {
      SleepsOther(s, e, p);
    }
  }

  lemma SleepsSelf(s: State, e: Event)
    requires Enabled(s, e) && Fine(s.pi, Holder(s), e.p, s.ps[e.p])
    ensures |Apply(s, e).ps| == |s.ps|
    ensures Apply(s, e).ps[e.p].sleeping <==> FallsAsleep(s, e, e.p) || (s.ps[e.p].sleeping && !WokenBy(s, e, e.p))
    ensures s.ps[e.p].sleeping && s.ps[e.p].pc.Nap? && !s.ps[e.p].pc.stage.Sched? ==> !Enabled(s, Go(e.p))
  {
  }

  lemma SleepsOther(s: State, e: Event, p: nat)
    requires Enabled(s, e) && p < |s.ps| && p != e.p && Fine(s.pi, Holder(s), p, s.ps[p])
    ensures |Apply(s, e).ps| == |s.ps|
    ensures Apply(s, e).ps[p].sleeping <==> FallsAsleep(s, e, p) || (s.ps[p].sleeping && !WokenBy(s, e, p))
    ensures s.ps[p].sleeping && s.ps[p].pc.Nap? && !s.ps[p].pc.stage.Sched? ==> !Enabled(s, Go(p))
  {
    hide Effect;
  }

  lemma {:induction false} RunMore(s: State, es: seq<Event>, e: Event)
    requires Runs(s, es) && Enabled(Run(s, es), e)
    ensures Runs(s, es + [e]) && Run(s, es + [e]) == Apply(Run(s, es), e)
    decreases es
  {
    hide Enabled, Apply;
    if es == [] {
      assert [] + [e] == [e] && [e][1..] == [];
      assert Runs(Apply(s, e), []);
    } else {
      RunMore(Apply(s, es[0]), es[1..], e);
      assert (es + [e])[0] == es[0] && (es + [e])[1..] == es[1..] + [e];
    }
  }

  /** One more event of a run of two processes. */
  lemma Then(es: seq<Event>, s: State, e: Event, a: Proc, b: Proc, pi: Shared)
    requires Reached(2, es, s) && Enabled(s, e) && |s.ps| == 2
    requires Effect(s, e).pi == pi && (if e.p == 0 then Effect(s, e).me else Roused(s, e, 0)) == a
    requires (if e.p == 1 then Effect(s, e).me else Roused(s, e, 1)) == b
    ensures Reached(2, es + [e], State([a, b], pi))
  {
    RunMore(Fresh(2), es, e);
    assert Apply(s, e).ps == [a, b];
  }

  /** The reader asleep, in a run of its own. */
  lemma ReaderAsleep() returns (es: seq<Event>)
    ensures Reached(2, es, State([Proc(Nap(Gone, Reading(1)), true, Nread, false), Proc(Out, false, NoChan, false)],
                                 Shared(None, 0, true, true, true, true, false)))
  {
    var w, pi, job := Proc(Out, false, NoChan, false), Shared(None, 0, true, true, true, true, false), Reading(1);
    var r, mine := w, pi.(lk := Some(0));
    var s := Fresh(2);
    es := [];
    assert s == State([r, w], pi);
    Then([], s, Start(0, job), r.(pc := Want(job)), w, pi);
    Then([Start(0, job)], State([r.(pc := Want(job)), w], pi), Go(0), r.(pc := Read(1)), w, mine);
    es := [Start(0, job)] + [Go(0)];
    Then(es, State([r.(pc := Read(1)), w], mine), Go(0), r.(pc := Nap(Enter, job)), w, mine);
    Then(es + [Go(0)], State([r.(pc := Nap(Enter, job)), w], mine), Go(0), r.(pc := Nap(Drop, job)), w, mine);
    es := es + [Go(0)] + [Go(0)];
    Then(es, State([r.(pc := Nap(Drop, job)), w], mine), Go(0), r.(pc := Nap(Mark, job)), w, pi);
    es := es + [Go(0)];
    var d := r.(pc := Nap(Doze, job), chan := Nread);
    Then(es, State([r.(pc := Nap(Mark, job)), w], pi), Go(0), d, w, pi);
    es := es + [Go(0)];
    Then(es, State([d, w], pi), Go(0), d.(pc := Nap(Sched, job), sleeping := true), w, pi);
    es := es + [Go(0)];
    var z := d.(sleeping := true);
    Then(es, State([z.(pc := Nap(Sched, job)), w], pi), Go(0), z.(pc := Nap(Gone, job)), w, pi);
    es := es + [Go(0)];
  }

  /** A run in which a reader is left asleep on a pipe that holds a byte, with the lock free. */
  lemma ReaderLeftAsleep() returns (es: seq<Event>, s: State)
    ensures Reached(2, es, s) && s.pi.lk == None && s.pi.count == 1 && |s.ps| == 2
    ensures s.ps[0].sleeping && s.ps[0].chan.Nread? && s.ps[1].pc.Out?
  {
    var r, w := Proc(Nap(Gone, Reading(1)), true, Nread, false), Proc(Out, false, NoChan, false);
    var pi := Shared(None, 0, true, true, true, true, false);
    var mine, job := pi.(lk := Some(1)), Writing(2);
    es := ReaderAsleep();
    Then(es, State([r, w], pi), Start(1, job), r, w.(pc := Want(job)), pi);
    es := es + [Start(1, job)];
    Then(es, State([r, w.(pc := Want(job))], pi), Go(1), r, w.(pc := Write(2, false)), mine);
    es := es + [Go(1)];
    Then(es, State([r, w.(pc := Write(2, false))], mine), Go(1), r, w.(pc := Write(1, true)), mine.(count := 1));
    es := es + [Go(1)];
    var k := w.(pc := Write(1, true), killed := true);
    Then(es, State([r, w.(pc := Write(1, true))], mine.(count := 1)), Kill(1), r, k, mine.(count := 1));
    es := es + [Kill(1)];
    Then(es, State([r, k], mine.(count := 1)), Go(1), r, k.(pc := Out), pi.(count := 1, lost := true));
    es := es + [Go(1)];
    s := State([r, k.(pc := Out)], pi.(count := 1, lost := true));
  }
}
