/** The shmem functions of kernel/proc.c, with the page loops of fork and exit, over the tables they
    update in place.  Each method is proved to be one step of the per-page machine of module Shmem
    on the pages it touches and to leave the other pages alone; `!ok` stands for a panic. */
module ShmemTable {
  import opened Common
  import opened Shmem

  /** A process table entry, as far as the shared pages are concerned. */
  datatype Task = Dead | Task(pid: int, top: int, access: seq<bool>, called: bool, loaded: bool)

  predicate TaskOk(t: Task) { t.Task? ==> |t.access| == SHMEM }

  function Proj(t: Task, i: nat): Proc
    requires TaskOk(t) && i < SHMEM
  {
    if t.Dead? then Gone else Live(t.pid, t.top, t.access[i], Outside, t.called, t.loaded)
  }

  ghost function Projs(ts: seq<Task>, i: nat): (r: seq<Proc>)
    requires (forall k | 0 <= k < |ts| :: TaskOk(ts[k])) && i < SHMEM
    ensures |r| == |ts|
    ensures forall k | 0 <= k < |ts| :: r[k] == Proj(ts[k], i)
  {
    seq(|ts|, k requires 0 <= k < |ts| => Proj(ts[k], i))
  }

  class Table {
    const pages: array<Page>
    const tasks: array<Task>
    var nextPid: int
    ghost var writer: seq<seq<Option<int>>>

    ghost predicate Valid()
      reads this, pages, tasks
    {
      && pages.Length == |writer| == SHMEM
      && (forall i | 0 <= i < SHMEM :: |pages[i].data| == |writer[i]| == INTS)
      && (forall k | 0 <= k < tasks.Length :: TaskOk(tasks[k]))
    }

    /** Page `i` as the per-page machine sees it. */
    ghost function View(i: nat): State
      reads this, pages, tasks
      requires Valid() && i < SHMEM
    {
      State(pages[i], Projs(tasks[..], i), nextPid, writer[i])
    }

    ghost predicate Known(p: nat)
      reads this, tasks
    {
      p < tasks.Length && tasks[p].Task?
    }

    /** Boot: every page holds what kalloc left in it, and only the first process exists. */
    constructor (nproc: nat, junk: seq<seq<int>>)
      requires |junk| == SHMEM && forall i | 0 <= i < SHMEM :: |junk[i]| == INTS
      ensures fresh(pages) && fresh(tasks) && Valid()
      ensures forall i | 0 <= i < SHMEM :: View(i) == Init(nproc, junk[i])
    {
      pages := new Page[SHMEM](i requires 0 <= i < SHMEM => Page(0, NotSet, -1, junk[i]));
      tasks := new Task[nproc](i => if i == 0 then Task(1, 0, seq(SHMEM, _ => false), false, false) else Dead);
      nextPid := 2;
      writer := seq(SHMEM, _ => Nobody());
      new;
      forall i | 0 <= i < SHMEM ensures View(i) == Init(nproc, junk[i]) {
        assert View(i).procs == Init(nproc, junk[i]).procs;
      }
    }

    /** shmem_set_writable (`st` is Writable) and shmem_set_unwritable (Unwritable). */
    method Set(p: nat, i: nat, st: PageState) returns (ok: bool)
      requires Valid() && Known(p) && i < SHMEM && st != NotSet
      modifies pages, tasks
      ensures Valid() && nextPid == old(nextPid) && writer == old(writer)
      ensures ok <==> SetAllowed(old(View(i)), p)
      ensures ok <==> var page := old(View(i)).page;
                      page.state == NotSet && (page.topPid == -1 || page.topPid == old(View(i)).procs[p].top)
      ensures var e := if st == Writable then SetWritable(p) else SetUnwritable(p);
              && (ok <==> Enabled(old(View(i)), e)) && View(i) == if ok then Apply(old(View(i)), e) else old(View(i))
      ensures ok ==> View(i).page.state == st && View(i).Holder(p) && View(i).page.data == old(View(i)).page.data
      ensures forall j | 0 <= j < SHMEM && j != i :: View(j) == old(View(j))
    {
      ghost var v := View(i);
      var pg, t := pages[i], tasks[p];
      if pg.state != NotSet || (pg.topPid != -1 && pg.topPid != t.top) {
        return false;
      }
      tasks[p] := t.(access := t.access[i := true]);
      pages[i] := pg.(topPid := if pg.topPid == -1 then t.top else pg.topPid, users := pg.users + 1, state := st);
      assert View(i).procs == v.procs[p := v.procs[p].(access := true)];
      ok := true;
    }

    /** shmem_set_init_int. */
    method SetInit(p: nat, i: nat, index: nat, value: int) returns (ok: bool)
      requires Valid() && Known(p) && i < SHMEM && index < INTS
      modifies pages, this`writer
      ensures Valid()
      ensures ok <==> Enabled(old(View(i)), Shmem.SetInit(p, index, value))
      ensures View(i) == if ok then Apply(old(View(i)), Shmem.SetInit(p, index, value)) else old(View(i))
      ensures ok ==> View(i).page == old(View(i)).page.(topPid := old(View(i)).procs[p].top,
                                                        data := old(View(i)).page.data[index := value])
      ensures forall j | 0 <= j < SHMEM && j != i :: View(j) == old(View(j))
    {
      var pg, t := pages[i], tasks[p];
      if pg.state != NotSet || (pg.topPid != -1 && pg.topPid != t.top) {
        return false;
      }
      pages[i] := pg.(topPid := t.top, data := pg.data[index := value]);
      writer := writer[i := writer[i][index := Some(t.top)]];
      ok := true;
    }

    /** shmem_write_int, not interrupted. */
    method WriteInt(p: nat, i: nat, index: nat, value: int) returns (ok: bool)
      requires Valid() && Known(p) && i < SHMEM && index < INTS
      modifies pages, this`writer
      ensures Valid()
      ensures ok <==> old(View(i)).page.state == Writable && old(View(i)).Holder(p)
      ensures View(i) == if ok then Stored(old(View(i)), p, index, value) else old(View(i))
      ensures ok ==> View(i).page == old(View(i)).page.(data := old(View(i)).page.data[index := value])
      ensures forall j | 0 <= j < SHMEM && j != i :: View(j) == old(View(j))
    {
      var pg, t := pages[i], tasks[p];
      if pg.state != Writable || !t.access[i] {
        return false;
      }
      pages[i] := pg.(data := pg.data[index := value]);
      writer := writer[i := writer[i][index := Some(t.top)]];
      ok := true;
    }

    /** shmem_read_int, not interrupted. */
    method ReadInt(p: nat, i: nat, index: nat) returns (ok: bool, value: int)
      requires Valid() && Known(p) && i < SHMEM && index < INTS
      ensures ok <==> View(i).page.state != NotSet && View(i).Holder(p)
      ensures ok ==> value == View(i).page.data[index]
    {
      var pg, t := pages[i], tasks[p];
      if pg.state == NotSet || !t.access[i] {
        return false, 0;
      }
      return true, pg.data[index];
    }

    /** shmem_acquire_access: false on an unset page, a panic for a second or a foreign acquire. */
    method Acquire(p: nat, i: nat) returns (ok: bool, got: bool)
      requires Valid() && Known(p) && i < SHMEM
      modifies pages, tasks
      ensures Valid() && nextPid == old(nextPid) && writer == old(writer)
      ensures ok <==> Enabled(old(View(i)), Shmem.Acquire(p)) || Enabled(old(View(i)), AcquireFails(p))
      ensures got <==> Enabled(old(View(i)), Shmem.Acquire(p))
      ensures got <==> var v := old(View(i));
                       v.page.state != NotSet && !v.Holder(p) && v.procs[p].top == v.page.topPid
      ensures ok && !got <==> old(View(i)).page.state == NotSet
      ensures View(i) == if got then Apply(old(View(i)), Shmem.Acquire(p)) else old(View(i))
      ensures got ==> View(i).Holder(p) && View(i).page == old(View(i)).page.(users := old(View(i)).page.users + 1)
      ensures forall j | 0 <= j < SHMEM && j != i :: View(j) == old(View(j))
    {
      ghost var v := View(i);
      var pg, t := pages[i], tasks[p];
      if pg.state == NotSet {
        return true, false;
      }
      if t.access[i] || t.top != pg.topPid {
        return false, false;
      }
      tasks[p] := t.(access := t.access[i := true]);
      pages[i] := pg.(users := pg.users + 1);
      assert View(i).procs == v.procs[p := v.procs[p].(access := true)];
      return true, true;
    }

    /** shmem_release_access. */
    method Release(p: nat, i: nat) returns (ok: bool)
      requires Valid() && Known(p) && i < SHMEM
      modifies pages, tasks, this`writer
      ensures Valid() && nextPid == old(nextPid)
      ensures ok <==> Enabled(old(View(i)), Shmem.Release(p))
      ensures ok <==> var v := old(View(i)); v.page.state != NotSet && v.page.users > 0 && v.Holder(p)
      ensures View(i) == if ok then Released(old(View(i)), p) else old(View(i))
      ensures ok ==> !View(i).Holder(p)
                     && View(i).page == if old(View(i)).page.users == 1 then Cleared()
                                        else old(View(i)).page.(users := old(View(i)).page.users - 1)
      ensures forall j | 0 <= j < SHMEM && j != i :: View(j) == old(View(j))
    {
      ghost var v := View(i);
      var pg, t := pages[i], tasks[p];
      if pg.state == NotSet || pg.users <= 0 || !t.access[i] {
        return false;
      }
      tasks[p] := t.(access := t.access[i := false]);
      pages[i] := pg.(users := pg.users - 1);
      if pg.users - 1 == 0 {
        pages[i] := Cleared();
        writer := writer[i := Nobody()];
      }
      assert View(i).procs == v.procs[p := v.procs[p].(access := false)];
      ok := true;
    }

    /** The part of fork that hands the parent's access on to the new process. */
    method Fork(p: nat, q: nat)
      requires Valid() && Known(p) && q < tasks.Length && tasks[q] == Dead
      modifies pages, tasks, this`nextPid
      ensures Valid()
      ensures forall i | 0 <= i < SHMEM :: View(i) == Apply(old(View(i)), Shmem.Fork(p, q))
    {
      var parent := tasks[p];
      var access := seq(SHMEM, _ => false);
      for i := 0 to SHMEM
        invariant Valid() && |access| == SHMEM && tasks[..] == old(tasks[..]) && nextPid == old(nextPid)
        invariant forall j | 0 <= j < i :: access[j] == parent.access[j]
        invariant forall j | 0 <= j < SHMEM ::
                    pages[j] == if j < i && parent.access[j] then old(pages[j]).(users := old(pages[j]).users + 1)
                                else old(pages[j])
      {
        if parent.access[i] {
          access := access[i := true];
          pages[i] := pages[i].(users := pages[i].users + 1);
        } else {
          access := access[i := false];
        }
      }
      tasks[q] := Task(nextPid, parent.top, access, false, false);
      nextPid := nextPid + 1;
      forall i | 0 <= i < SHMEM ensures View(i) == Apply(old(View(i)), Shmem.Fork(p, q)) {
        assert View(i).procs == Apply(old(View(i)), Shmem.Fork(p, q)).procs;
      }
    }

    /** The loop of exit over the shared pages. */
    method Exit(p: nat)
      requires Valid() && Known(p)
      modifies pages, tasks, this`writer
      ensures Valid()
      ensures forall i | 0 <= i < SHMEM :: View(i) == Left(old(View(i)), p)
    {
      var t := tasks[p];
      for i := 0 to SHMEM
        invariant Valid() && tasks[..] == old(tasks[..])
        invariant forall j | 0 <= j < i :: (pages[j], writer[j]) == Leaving(old(pages[j]), t, j, old(writer)[j])
        invariant forall j | i <= j < SHMEM :: pages[j] == old(pages[j]) && writer[j] == old(writer)[j]
      {
        if t.access[i] {
          pages[i] := pages[i].(users := pages[i].users - 1);
        }
        if pages[i].users == 0 && pages[i].topPid == t.top {
          pages[i] := Cleared();
          writer := writer[i := Nobody()];
        }
      }
      tasks[p] := Dead;
      forall i | 0 <= i < SHMEM ensures View(i) == Left(old(View(i)), p) {
        assert View(i).procs == Left(old(View(i)), p).procs;
      }
    }
  }

  function Leaving(pg: Page, t: Task, i: nat, w: seq<Option<int>>): (Page, seq<Option<int>>)
    requires TaskOk(t) && t.Task? && i < SHMEM
  {
    var users := if t.access[i] then pg.users - 1 else pg.users;
    if users == 0 && pg.topPid == t.top then (Cleared(), Nobody()) else (pg.(users := users), w)
  }
}
