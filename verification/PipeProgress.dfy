/** What can always still happen to a pipe: from every state that any run can reach, a process that is
    killed inside a call gets out of it, a reader is served as soon as somebody writes a byte or closes the
    write end, and a writer gets out when the read end is closed. */
module PipeProgress {
  import opened Common
  import opened PipeWake
  import P = Pipe

  /** The next statement of a process; of the other events, the calls, failures and kills, only `v`. */
  predicate Plain(e: Event, v: Event) { e.Go? || e.Take? || e == v }

  /** Some schedule of such steps leads from `s` to `t`. */
  ghost predicate Leads(s: State, v: Event, t: State) { exists es :: Path(s, v, es, t) }

  ghost predicate Path(s: State, v: Event, es: seq<Event>, t: State)
  {
    Runs(s, es) && Run(s, es) == t && forall i | 0 <= i < |es| :: Plain(es[i], v)
  }

  lemma LeadsSelf(s: State, v: Event)
    ensures Leads(s, v, s)
  {
    assert Path(s, v, [], s);
  }

  /** One more step. */
  lemma {:induction false} Then(s: State, v: Event, t: State, e: Event) returns (u: State)
    requires Leads(s, v, t) && Inv(t) && Enabled(t, e) && Plain(e, v)
    ensures u == Apply(t, e) && Leads(s, v, u) && Inv(u) && |u.ps| == |t.ps|
  {
    var es :| Path(s, v, es, t);
    u := Apply(t, e);
    StepInv(t, e);
    hide Enabled, Apply, Inv;
    RunMore(s, es, e);
    assert Path(s, v, es + [e], u);
  }

  /** A step, as the process that takes it and the pipe see it. */
  lemma StepIs(s: State, e: Event)
    requires Enabled(s, e)
    ensures |Apply(s, e).ps| == |s.ps| && Apply(s, e).ps[e.p] == Effect(s, e).me && Apply(s, e).pi == Effect(s, e).pi
  {
  }

  // ---------------------------------------------------------------------------
  // The lock is given up
  // ---------------------------------------------------------------------------

  /** How many steps the process with pi->lock takes at most before it gives it up. */
  function LockRank(pc: Pc, n: nat): nat
  {
    match pc
    case Write(left, _) => left + n + 6
    case Full(_, j) => (if j <= n then n - j else 0) + 3
    case Read(_) => n + 2
    case Tell(_, j) => (if j <= n then n - j else 0) + 1
    case Nap(stage, _) => if stage.Enter? then 2 else 1
    case _ => 0
  }

  /** How many steps a process takes before it gives up its own lock. */
  function OwnRank(pc: Pc): nat
  {
    if !pc.Nap? then 0 else if pc.stage.Mark? then 3 else if pc.stage.Doze? then 2 else 1
  }

  /** The process that the one with pi->lock is waiting for in its wakeup, if any. */
  function Blocker(s: State): Option<nat>
  {
    var l := Looks(Holder(s));
    if l.At? && l.j < |s.ps| && s.pi.lk != Some(l.j) && OwnLock(s.ps[l.j].pc) then Some(l.j) else None
  }

  function BlockRank(s: State): nat { if Blocker(s).Some? then OwnRank(s.ps[Blocker(s).value].pc) else 0 }

  predicate ReadOn(pc: Pc) { InRead(pc) || pc.Tell? || pc.Out? }

  predicate WriteOn(pc: Pc) { InWrite(pc) || pc.Tell? || pc.Out? }

  /** The process with pi->lock has put in what it could. */
  predicate Announcing(pc: Pc) { pc.Full? || pc.Tell? || pc.Nap? }

  /** What a step on the way to giving up the lock leaves as it is for process `p`. */
  predicate Kept(q: Proc, r: Proc)
  {
    && r.killed == q.killed && (q.pc.Out? ==> r.pc.Out? && (r.sleeping ==> q.sleeping))
    && (ReadOn(q.pc) ==> ReadOn(r.pc)) && (WriteOn(q.pc) ==> WriteOn(r.pc))
    && (InRead(r.pc) ==> InRead(q.pc)) && (InWrite(r.pc) ==> InWrite(q.pc))
  }

  predicate SameEnds(a: Shared, b: Shared)
  {
    b.readopen == a.readopen && b.writeopen == a.writeopen && b.readable == a.readable && b.writable == a.writable
  }

  ghost predicate Onward(s: State, t: State)
  {
    && |t.ps| == |s.ps| && SameEnds(s.pi, t.pi) && (forall p | 0 <= p < |s.ps| :: Kept(s.ps[p], t.ps[p]))
    && (Announcing(Holder(s)) || s.pi.lk.None? ==> t.pi.count == s.pi.count && t.pi.lost == s.pi.lost
                                                   && (t.pi.lk.None? || Announcing(Holder(t))))
    && (s.pi.lk.Some? && Holder(s).Tell? && s.pi.lk.value < |s.ps| ==>
          if t.pi.lk.None? then t.ps[s.pi.lk.value].pc.Out? else t.pi.lk == s.pi.lk && Holder(t).Tell?)
    && (s.pi.lk.None? ==> t.pi.lk.None?)
  }

  lemma {:induction false} OnwardTrans(s: State, t: State, u: State)
    requires Onward(s, t) && Onward(t, u)
    ensures Onward(s, u)
  {
    forall p | 0 <= p < |s.ps| ensures Kept(s.ps[p], u.ps[p]) {
      assert Kept(s.ps[p], t.ps[p]) && Kept(t.ps[p], u.ps[p]);
    }
  }

  /** The next step of the process with the lock. */
  function NextOf(s: State): Event
    requires s.pi.lk.Some?
  {
    var h, n := s.pi.lk.value, s.pi.count;
    if Holder(s).Read? && !(n == 0 && s.pi.writeopen) then Take(h, if Holder(s).n <= n then Holder(s).n else n) else Go(h)
  }

  /** What the process with the lock does to itself and to the pipe. */
  lemma HolderSelf(s: State)
    requires Inv(s) && s.pi.lk.Some? && Blocker(s).None?
    ensures Enabled(s, NextOf(s)) && Kept(s.ps[s.pi.lk.value], Effect(s, NextOf(s)).me)
    ensures var ch, q := Effect(s, NextOf(s)), Holder(s);
            && SameEnds(s.pi, ch.pi)
            && (ch.pi.lk == None || (ch.pi.lk == s.pi.lk && LockRank(ch.me.pc, |s.ps|) < LockRank(q, |s.ps|)))
            && (Announcing(q) ==> ch.pi.count == s.pi.count && ch.pi.lost == s.pi.lost
                                  && (ch.pi.lk.None? || Announcing(ch.me.pc)))
            && (q.Tell? ==> if ch.pi.lk.None? then ch.me.pc.Out? else ch.me.pc.Tell?)
  {
    assert Fine(s.pi, Holder(s), s.pi.lk.value, s.ps[s.pi.lk.value]);
  }

  lemma HolderStep(s: State)
    requires Inv(s) && s.pi.lk.Some? && Blocker(s).None?
    ensures Enabled(s, NextOf(s)) && Onward(s, Apply(s, NextOf(s)))
    ensures var t := Apply(s, NextOf(s));
            || t.pi.lk.None?
            || (t.pi.lk == s.pi.lk && LockRank(Holder(t), |t.ps|) < LockRank(Holder(s), |s.ps|))
  {
    HolderSelf(s);
    assert NextOf(s).p == s.pi.lk.value < |s.ps|;
    hide Inv, Enabled, Effect, NextOf, Blocker, LockRank, Announcing, Kept, Roused, SameEnds;
    forall c | 0 <= c < |s.ps| && c != s.pi.lk.value ensures Kept(s.ps[c], Roused(s, NextOf(s), c)) {
      KeptRoused(s, NextOf(s), c);
    }
  }

  lemma KeptRoused(s: State, e: Event, c: nat)
    requires Enabled(s, e) && c < |s.ps|
    ensures Kept(s.ps[c], Roused(s, e, c))
  {
  }

  lemma BlockerStep(s: State)
    requires Inv(s) && s.pi.lk.Some? && Blocker(s).Some?
    ensures var e := Go(Blocker(s).value);
            && Enabled(s, e) && Onward(s, Apply(s, e)) && Apply(s, e).pi.lk == s.pi.lk
            && Holder(Apply(s, e)) == Holder(s) && BlockRank(Apply(s, e)) < BlockRank(s)
  {
    assert Fine(s.pi, Holder(s), s.pi.lk.value, s.ps[s.pi.lk.value]);
    assert Fine(s.pi, Holder(s), Blocker(s).value, s.ps[Blocker(s).value]);
  }

  /** pi->lock can be given up. */
  lemma {:induction false} LockFreed(s: State, v: Event, t: State) returns (u: State)
    requires Leads(s, v, t) && Inv(t)
    ensures Leads(s, v, u) && Inv(u) && Onward(t, u) && u.pi.lk.None?
    decreases if t.pi.lk.Some? then LockRank(Holder(t), |t.ps|) + 1 else 0, BlockRank(t)
  {
    hide Leads, Enabled, Apply, Inv;
    if t.pi.lk.None? {
      u := t;
    } else {
      var e;
      if Blocker(t).Some? {
        e := Go(Blocker(t).value);
        BlockerStep(t);
      } else {
        e := NextOf(t);
        HolderStep(t);
      }
      var m := Then(s, v, t, e);
      hide Onward, Holder, Blocker, BlockRank, LockRank;
      u := LockFreed(s, v, m);
      OnwardTrans(t, m, u);
    }
  }

  // ---------------------------------------------------------------------------
  // A killed process gets out, and a reader is served
  // ---------------------------------------------------------------------------

  /** With the lock free, a process on its way to sleep goes to sleep. */
  lemma {:induction false} Settle(s: State, v: Event, t: State, p: nat) returns (u: State)
    requires Leads(s, v, t) && Inv(t) && t.pi.lk.None? && p < |t.ps| && !t.ps[p].pc.Out?
    ensures Leads(s, v, u) && Inv(u) && |u.ps| == |t.ps| && u.pi == t.pi
    ensures u.ps[p].pc.Want? || (u.ps[p].pc.Nap? && u.ps[p].pc.stage.Gone?)
    ensures (InRead(t.ps[p].pc) ==> InRead(u.ps[p].pc)) && (InWrite(t.ps[p].pc) ==> InWrite(u.ps[p].pc))
    decreases if t.ps[p].pc.Nap? && !t.ps[p].pc.stage.Gone? then OwnRank(t.ps[p].pc) else 0
  {
    assert Fine(t.pi, Holder(t), p, t.ps[p]);
    if t.ps[p].pc.Want? || t.ps[p].pc.stage.Gone? {
      u := t;
    } else {
      var m := Then(s, v, t, Go(p));
      u := Settle(s, v, m, p);
    }
  }

  /** Awake again, a process waits for the lock. */
  lemma {:induction false} Rise(s: State, v: Event, t: State, p: nat) returns (u: State)
    requires Leads(s, v, t) && Inv(t) && t.pi.lk.None? && p < |t.ps| && !t.ps[p].sleeping
    requires t.ps[p].pc.Want? || (t.ps[p].pc.Nap? && t.ps[p].pc.stage.Gone?)
    ensures Leads(s, v, u) && Inv(u) && |u.ps| == |t.ps| && u.pi == t.pi
    ensures u.ps[p].pc == Want(t.ps[p].pc.job) && u.ps[p].killed == t.ps[p].killed
  {
    u := t;
    if t.ps[p].pc.Nap? {
      u := Then(s, v, u, Go(p));
      u := Then(s, v, u, Go(p));
    }
  }

  /** A process that has the lock and is in the wakeup at the end of its call returns. */
  lemma {:induction false} Returns(s: State, v: Event, t: State, p: nat) returns (u: State)
    requires Leads(s, v, t) && Inv(t) && p < |t.ps| && t.pi.lk == Some(p) && t.ps[p].pc.Tell?
    ensures Leads(s, v, u) && Inv(u) && p < |u.ps| && u.pi.lk.None? && u.ps[p].pc.Out? && u.pi.count == t.pi.count
  {
    assert Holder(t) == t.ps[p].pc;
    hide Leads, Inv;
    u := LockFreed(s, v, t);
  }

  /** A killed process that gets the lock returns. */
  lemma {:induction false} KilledReturns(s: State, v: Event, t: State, p: nat) returns (u: State)
    requires Leads(s, v, t) && Inv(t) && p < |t.ps| && t.pi.lk.None? && t.ps[p].pc.Want? && t.ps[p].killed
    ensures Leads(s, v, u) && p < |u.ps| && u.pi.lk.None? && u.ps[p].pc.Out?
  {
    hide Leads, Apply, Effect, Enabled, Inv, NextOf;
    LockStep(t, p);
    u := Then(s, v, t, Go(p));
    StepIs(t, Go(p));
    if !u.ps[p].pc.Tell? {
      var m := u;
      KilledStep(m, p);
      u := Then(s, v, m, NextOf(m));
      StepIs(m, NextOf(m));
    }
    if u.pi.lk.Some? {
      u := Returns(s, v, u, p);
    }
  }

  /** A process that waits for the lock takes it. */
  lemma LockStep(t: State, p: nat)
    requires p < |t.ps| && t.pi.lk.None? && t.ps[p].pc.Want?
    ensures Enabled(t, Go(p))
    ensures var ch := Effect(t, Go(p));
            && ch.pi.lk == Some(p) && ch.me.killed == t.ps[p].killed && ch.pi.count == t.pi.count
            && match t.ps[p].pc.job
               case Writing(left) => ch.me.pc == Write(left, false) && SameEnds(t.pi, ch.pi)
               case Reading(n) => ch.me.pc == Read(n) && SameEnds(t.pi, ch.pi)
               case Closing(end) => ch.me.pc.Tell?
  {
  }

  /** With the lock, a killed reader or writer returns, or has only the wakeup left to do. */
  lemma KilledStep(t: State, p: nat)
    requires p < |t.ps| && t.pi.lk == Some(p) && t.ps[p].killed && (t.ps[p].pc.Write? || t.ps[p].pc.Read?)
    ensures NextOf(t).p == p && Enabled(t, NextOf(t)) && (NextOf(t).Go? || NextOf(t).Take?)
    ensures var ch := Effect(t, NextOf(t)); if ch.pi.lk.None? then ch.me.pc.Out? else ch.pi.lk == Some(p) && ch.me.pc.Tell?
  {
  }

  /** From every state of every run, one kill gets a process out of the call it is in. */
  lemma {:induction false} KillEndsCall(n: nat, es: seq<Event>, s: State, p: nat) returns (t: State)
    requires Reached(n, es, s) && p < |s.ps| && !s.ps[p].pc.Out?
    ensures Leads(s, Kill(p), t) && p < |t.ps| && t.ps[p].pc.Out? && t.pi.lk.None?
  {
    FreshInv(n);
    RunInv(Fresh(n), es);
    LeadsSelf(s, Kill(p));
    hide Reached;
    t := LockFreed(s, Kill(p), s);
    if !t.ps[p].pc.Out? {
      t := Settle(s, Kill(p), t, p);
      t := Then(s, Kill(p), t, Kill(p));
      t := Rise(s, Kill(p), t, p);
      t := KilledReturns(s, Kill(p), t, p);
    }
  }

  /** `q` writes one byte, or finds the pipe full; either way it tells the readers. */
  lemma {:induction false} Feed(s: State, v: Event, t: State, p: nat, q: nat) returns (u: State)
    requires v == Start(q, Writing(1)) && Leads(s, v, t) && Inv(t) && t.pi.lk.None? && p < |t.ps| && q < |t.ps| && p != q
    requires InRead(t.ps[p].pc) && t.ps[q].pc.Out? && !t.ps[q].sleeping && !t.ps[q].killed && t.pi.writable
    ensures Leads(s, v, u) && Inv(u) && |u.ps| == |t.ps| && u.pi.lk == Some(q) && u.ps[p] == t.ps[p]
    ensures Announcing(u.ps[q].pc) && u.pi.count > 0 && !u.pi.lost
  {
    assert Fine(t.pi, Holder(t), p, t.ps[p]) && Sane(t.pi);
    assert t.pi.readopen;
    hide Leads, Apply, Fine, Holder;
    u := FeedStep(s, v, t, p, v);
    u := FeedStep(s, v, u, p, Go(q));
    if u.pi.count < P.PIPESIZE {
      u := FeedStep(s, v, u, p, Go(q));
    }
    u := FeedStep(s, v, u, p, Go(q));
  }

  lemma {:induction false} FeedStep(s: State, v: Event, t: State, p: nat, e: Event) returns (u: State)
    requires Leads(s, v, t) && Inv(t) && Enabled(t, e) && Plain(e, v)
    requires p < |t.ps| && p != e.p && Looks(t.ps[e.p].pc).Nobody?
    ensures Leads(s, v, u) && Inv(u) && |u.ps| == |t.ps| && u.ps[p] == t.ps[p]
    ensures u.ps[e.p] == Effect(t, e).me && u.pi == Effect(t, e).pi
  {
    u := Then(s, v, t, e);
  }

  /** From every state of every run, one byte written by somebody else gets a reader out of its call. */
  lemma {:induction false} ReaderCanBeServed(n: nat, es: seq<Event>, s: State, p: nat, q: nat) returns (t: State)
    requires Reached(n, es, s) && p < |s.ps| && q < |s.ps| && p != q && InRead(s.ps[p].pc)
    requires s.ps[q].pc.Out? && !s.ps[q].sleeping && !s.ps[q].killed && s.pi.writable
    ensures Leads(s, Start(q, Writing(1)), t) && p < |t.ps| && t.ps[p].pc.Out? && t.pi.lk.None?
  {
    var v := Start(q, Writing(1));
    FreshInv(n);
    RunInv(Fresh(n), es);
    LeadsSelf(s, v);
    hide Reached;
    t := LockFreed(s, v, s);
    assert Fine(t.pi, Holder(t), p, t.ps[p]) && Kept(s.ps[p], t.ps[p]) && Kept(s.ps[q], t.ps[q]);
    if !t.ps[p].pc.Out? {
      t := Feed(s, v, t, p, q);
      t := Served(s, v, t, p);
    }
  }

  /** Once the bytes or the end of them are announced, a reader takes what there is. */
  lemma {:induction false} Served(s: State, v: Event, t: State, p: nat) returns (u: State)
    requires Leads(s, v, t) && Inv(t) && t.pi.lk.Some? && p < |t.ps| && InRead(t.ps[p].pc)
    requires Announcing(Holder(t)) && (t.pi.count > 0 || !t.pi.writeopen) && !t.pi.lost
    ensures Leads(s, v, u) && p < |u.ps| && u.ps[p].pc.Out? && u.pi.lk.None?
  {
    hide Leads, Apply, Enabled;
    u := LockFreed(s, v, t);
    assert Fine(u.pi, Holder(u), p, u.ps[p]) && Kept(t.ps[p], u.ps[p]);
    if !u.ps[p].pc.Out? {
      u := Settle(s, v, u, p);
      assert Fine(u.pi, Holder(u), p, u.ps[p]);
      u := Rise(s, v, u, p);
      u := TakesBytes(s, v, u, p);
    }
  }

  lemma {:induction false} TakesBytes(s: State, v: Event, t: State, p: nat) returns (u: State)
    requires Leads(s, v, t) && Inv(t) && t.pi.lk.None? && p < |t.ps| && (t.pi.count > 0 || !t.pi.writeopen)
    requires t.ps[p].pc.Want? && t.ps[p].pc.job.Reading?
    ensures Leads(s, v, u) && p < |u.ps| && u.ps[p].pc.Out? && u.pi.lk.None?
  {
    hide Leads, Apply, Effect, Enabled, Inv, NextOf;
    LockStep(t, p);
    u := Then(s, v, t, Go(p));
    StepIs(t, Go(p));
    var m := u;
    ReadStep(m, p);
    u := Then(s, v, m, NextOf(m));
    StepIs(m, NextOf(m));
    u := Returns(s, v, u, p);
  }

  /** `q` closes an end that nobody is in a call on. */
  lemma {:induction false} Closes(s: State, v: Event, t: State, p: nat, q: nat, end: End) returns (u: State)
    requires v == Start(q, Closing(end)) && Leads(s, v, t) && Inv(t) && t.pi.lk.None? && p < |t.ps| && q < |t.ps| && p != q
    requires t.ps[q].pc.Out? && !t.ps[q].sleeping && MayStart(t, Closing(end))
    ensures Leads(s, v, u) && Inv(u) && |u.ps| == |t.ps| && u.pi.lk == Some(q) && u.ps[p] == t.ps[p]
    ensures u.ps[q].pc.Tell? && if end.ReadEnd? then !u.pi.readopen else !u.pi.writeopen && !u.pi.lost
  {
    hide Leads, Apply, Fine, Holder;
    u := FeedStep(s, v, t, p, v);
    u := FeedStep(s, v, u, p, Go(q));
  }

  lemma StillMay(s: State, t: State, end: End)
    requires Onward(s, t) && MayStart(s, Closing(end))
    ensures MayStart(t, Closing(end))
  {
    forall p | 0 <= p < |t.ps| ensures Kept(s.ps[p], t.ps[p]) {
    }
  }

  /** From every state of every run, the close of the write end gets a reader out of its call. */
  lemma {:induction false} ReaderSeesEnd(n: nat, es: seq<Event>, s: State, p: nat, q: nat) returns (t: State)
    requires Reached(n, es, s) && p < |s.ps| && q < |s.ps| && p != q && InRead(s.ps[p].pc)
    requires s.ps[q].pc.Out? && !s.ps[q].sleeping && MayStart(s, Closing(WriteEnd))
    ensures Leads(s, Start(q, Closing(WriteEnd)), t) && p < |t.ps| && t.ps[p].pc.Out? && t.pi.lk.None?
  {
    var v := Start(q, Closing(WriteEnd));
    FreshInv(n);
    RunInv(Fresh(n), es);
    LeadsSelf(s, v);
    hide Reached, MayStart;
    t := LockFreed(s, v, s);
    assert Fine(t.pi, Holder(t), p, t.ps[p]) && Kept(s.ps[p], t.ps[p]) && Kept(s.ps[q], t.ps[q]);
    StillMay(s, t, WriteEnd);
    if !t.ps[p].pc.Out? {
      t := Closes(s, v, t, p, q, WriteEnd);
      t := Served(s, v, t, p);
    }
  }

  /** From every state of every run, the close of the read end gets a writer out of its call. */
  lemma {:induction false} WriterCanLeave(n: nat, es: seq<Event>, s: State, p: nat, q: nat) returns (t: State)
    requires Reached(n, es, s) && p < |s.ps| && q < |s.ps| && p != q && InWrite(s.ps[p].pc)
    requires s.ps[q].pc.Out? && !s.ps[q].sleeping && MayStart(s, Closing(ReadEnd))
    ensures Leads(s, Start(q, Closing(ReadEnd)), t) && p < |t.ps| && t.ps[p].pc.Out? && t.pi.lk.None?
  {
    var v := Start(q, Closing(ReadEnd));
    FreshInv(n);
    RunInv(Fresh(n), es);
    LeadsSelf(s, v);
    hide Reached, MayStart;
    t := LockFreed(s, v, s);
    assert Fine(t.pi, Holder(t), p, t.ps[p]) && Kept(s.ps[p], t.ps[p]) && Kept(s.ps[q], t.ps[q]);
    StillMay(s, t, ReadEnd);
    if !t.ps[p].pc.Out? {
      t := Closes(s, v, t, p, q, ReadEnd);
      t := GivesUp(s, v, t, p);
    }
  }

  lemma {:induction false} GivesUp(s: State, v: Event, t: State, p: nat) returns (u: State)
    requires Leads(s, v, t) && Inv(t) && t.pi.lk.Some? && p < |t.ps| && InWrite(t.ps[p].pc) && !t.pi.readopen
    ensures Leads(s, v, u) && p < |u.ps| && u.ps[p].pc.Out? && u.pi.lk.None?
  {
    hide Leads, Apply, Enabled;
    u := LockFreed(s, v, t);
    assert Fine(u.pi, Holder(u), p, u.ps[p]) && Kept(t.ps[p], u.ps[p]);
    if !u.ps[p].pc.Out? {
      u := Settle(s, v, u, p);
      assert Fine(u.pi, Holder(u), p, u.ps[p]);
      u := Rise(s, v, u, p);
      u := LeavesWrite(s, v, u, p);
    }
  }

  lemma {:induction false} LeavesWrite(s: State, v: Event, t: State, p: nat) returns (u: State)
    requires Leads(s, v, t) && Inv(t) && t.pi.lk.None? && p < |t.ps| && !t.pi.readopen
    requires t.ps[p].pc.Want? && t.ps[p].pc.job.Writing?
    ensures Leads(s, v, u) && p < |u.ps| && u.ps[p].pc.Out? && u.pi.lk.None?
  {
    hide Leads, Apply, Inv;
    LockStep(t, p);
    u := Then(s, v, t, Go(p));
    StepIs(t, Go(p));
    var m := u;
    u := Then(s, v, m, Go(p));
    StepIs(m, Go(p));
    if u.pi.lk.Some? {
      u := Returns(s, v, u, p);
    }
  }

  /** With the lock, a reader takes what there is. */
  lemma ReadStep(t: State, p: nat)
    requires p < |t.ps| && t.pi.lk == Some(p) && t.ps[p].pc.Read? && (t.pi.count > 0 || !t.pi.writeopen)
    ensures NextOf(t).Take? && NextOf(t).p == p && Enabled(t, NextOf(t))
    ensures Effect(t, NextOf(t)).pi.lk == Some(p) && Effect(t, NextOf(t)).me.pc.Tell?
  {
  }
}
