/** kernel/kalloc.c and kernel/vm.c over the memory of module PageTable.  The methods work on the
    page-table entries in place; what they do is stated on the flat map and on the roles of the
    physical pages. */
module Vm {
  import opened Bytes
  import opened PageTable

  function Fill(b: byte): Page { Data(seq(PGSIZE, _ => b)) }

  /** From `g0` to `g` only page-table pages of `root` were added, taken from the free list; the
      flat map, and the contents of all pages in use for data, are the same. */
  ghost predicate Extends(m0: Mem, g0: Book, m: Mem, g: Book, root: nat)
  {
    && g.flat == g0.flat
    && g.role.Keys == g0.role.Keys
    && (forall k | k in g0.node :: k in g.node && g.node[k] == g0.node[k])
    && (forall q | q in g0.role && g0.role[q] != g.role[q] ::
          g0.role[q] == OnFreeList && g.role[q].Node? && g.role[q].key.root == root)
    && (forall q | q in g0.role && (g0.role[q] == Kernel || g0.role[q].User?) && q in m0 :: q in m && m[q] == m0[q])
  }

  lemma ExtendsTrans(m0: Mem, g0: Book, m1: Mem, g1: Book, m2: Mem, g2: Book, root: nat)
    requires Extends(m0, g0, m1, g1, root) && Extends(m1, g1, m2, g2, root)
    ensures Extends(m0, g0, m2, g2, root)
  {
  }

  /** What the invariant says about the first free page and about a table page. */
  lemma FirstFree(m: Mem, g: Book, gap: Gap)
    requires Inv(m, g, gap) && g.free != []
    ensures g.free[0] in m && g.free[0] in g.role && g.role[g.free[0]] == OnFreeList && GoodPage(g.free[0])
    ensures m[g.free[0]] == Free(First(g.free[1..]))
  {
    hide Tables, Branches, Leaves;
    assert m[g.free[0]] == Free(Next(g.free, 0));
  }

  lemma NodePage(m: Mem, g: Book, gap: Gap, k: Key)
    requires Inv(m, g, gap) && k in g.node
    ensures TableAt(m, g.node[k]) && g.node[k] in g.role && g.role[g.node[k]] == Node(k) && GoodPage(g.node[k])
    ensures k.level <= 2
  {
    hide Branches, Leaves, FreeList;
    assert TableAt(m, g.node[k]);
  }

  lemma GrowExtends(m: Mem, g: Book, k: Key, j: nat)
    requires g.free != [] && k in g.node && 0 < k.level && j < 512 && Child(k, j) !in g.node
    requires var q := g.free[0]; q in m && q in g.role && g.role[q] == OnFreeList
    requires TableAt(m, g.node[k]) && g.node[k] in g.role && g.role[g.node[k]] == Node(k)
    ensures var q := g.free[0];
            var m1, g1 := m[q := Fill(5)], Taken(g);
            TableAt(m1, g1.node[k]) && Extends(m, g, GrownMem(m1, g1, k, j, q), Grown(g1, k, j, q), k.root)
  {
  }

  /** kalloc followed by installing the page as a table. */
  lemma TakeAndGrow(m: Mem, g: Book, k: Key, j: nat)
    requires Inv(m, g, NoGap) && g.free != []
    requires k in g.node && 0 < k.level && j < 512 && Child(k, j) !in g.node
    ensures var q := g.free[0];
            var m1, g1 := m[q := Fill(5)], Taken(g);
            && TableAt(m1, g1.node[k])
            && Inv(GrownMem(m1, g1, k, j, q), Grown(g1, k, j, q), NoGap)
            && Extends(m, g, GrownMem(m1, g1, k, j, q), Grown(g1, k, j, q), k.root)
  {
    hide Inv, Extends;
    FirstFree(m, g, NoGap);
    NodePage(m, g, NoGap, k);
    TakeKeeps(m, g, NoGap, Fill(5));
    GrowKeeps(m[g.free[0] := Fill(5)], Taken(g), NoGap, k, j, g.free[0]);
    GrowExtends(m, g, k, j);
  }

  lemma BranchAt(m: Mem, g: Book, k: Key, j: nat)
    requires Inv(m, g, NoGap) && k in g.node && 0 < k.level && j < 512
    ensures TableAt(m, g.node[k])
    ensures var pte := m[g.node[k]].ptes[j];
            if PteValid(pte) then Child(k, j) in g.node && PteAddr(pte) == g.node[Child(k, j)] && PteBranch(pte)
            else Child(k, j) !in g.node
  {
    hide Roles, Leaves, FreeList;
    assert TableAt(m, g.node[k]);
    assert BranchOk(m, g, k, j);
    hide Tables, Branches;
    if Child(k, j) in g.node {
      NodePage(m, g, NoGap, Child(k, j));
      PteRoundTrip(g.node[Child(k, j)], PTE_V);
    }
  }

  class Machine {
    var mem: Mem
    var freelist: nat
    ghost var g: Book

    ghost predicate Ok(gap: Gap)
      reads this
    {
      Inv(mem, g, gap) && freelist == First(g.free)
    }

    /** kalloc. */
    method Kalloc(ghost gap: Gap) returns (pa: nat)
      requires Ok(gap)
      modifies this
      ensures Ok(gap)
      ensures pa == 0 <==> old(g).free == []
      ensures pa == 0 ==> mem == old(mem) && g == old(g)
      ensures pa != 0 ==> pa == old(g).free[0] && mem == old(mem)[pa := Fill(5)] && g == Taken(old(g))
    {
      hide Inv;
      pa := freelist;
      if g.free != [] {
        FirstFree(mem, g, gap);
        TakeKeeps(mem, g, gap, Fill(5));
        g := Taken(g);
      }
      if pa != 0 {
        freelist := mem[pa].next;
        mem := mem[pa := Fill(5)];
      }
    }

    /** kfree of a page the kernel holds. */
    method Kfree(pa: nat, ghost gap: Gap)
      requires Ok(gap) && pa in g.role && g.role[pa] == Kernel
      modifies this
      ensures Ok(gap)
      ensures mem == old(mem)[pa := Free(First(old(g).free))] && g == Given(old(g), pa)
    {
      hide Inv;
      GiveKeeps(mem, g, gap, pa);
      mem := mem[pa := Free(freelist)];
      freelist := pa;
      g := Given(g, pa);
    }

    /** freerange on pages the kernel holds since boot. */
    method FreeRange(start: nat, end: nat)
      requires Ok(NoGap)
      requires forall q: nat | RoundUp(start) <= q && q + PGSIZE <= end && q % PGSIZE == 0 ::
                 q in g.role && g.role[q] == Kernel
      modifies this
      ensures Ok(NoGap) && g.node == old(g).node && g.flat == old(g).flat && g.role.Keys == old(g).role.Keys
      ensures forall q | q in g.role ::
                g.role[q] == if RoundUp(start) <= q && q + PGSIZE <= end && q % PGSIZE == 0 then OnFreeList
                             else old(g).role[q]
    {
      hide Inv;
      var p := RoundUp(start);
      while p + PGSIZE <= end
        invariant p % PGSIZE == 0 && RoundUp(start) <= p && Ok(NoGap)
        invariant g.node == old(g).node && g.flat == old(g).flat && g.role.Keys == old(g).role.Keys
        invariant forall q | q in g.role ::
                    g.role[q] == if RoundUp(start) <= q < p && q + PGSIZE <= end && q % PGSIZE == 0 then OnFreeList
                                 else old(g).role[q]
        decreases end - p
      {
        Kfree(p, NoGap);
        p := p + PGSIZE;
      }
    }

    /** One level of walk: the table below entry PX(level, va), made if `alloc` asks for it. */
    method WalkStep(root: nat, vpn: nat, level: nat, pt: nat, alloc: bool) returns (next: nat)
      requires Ok(NoGap) && vpn < MAXVPN && 0 < level <= 2
      requires Key(root, level, Prefix(vpn, level)) in g.node && g.node[Key(root, level, Prefix(vpn, level))] == pt
      modifies this
      ensures Ok(NoGap) && Extends(old(mem), old(g), mem, g, root)
      ensures !alloc ==> mem == old(mem) && g == old(g) && freelist == old(freelist)
      ensures next == 0 ==> Key(root, level - 1, Prefix(vpn, level - 1)) !in g.node && (alloc ==> g.free == [])
      ensures next != 0 ==>
                Key(root, level - 1, Prefix(vpn, level - 1)) in g.node
                && g.node[Key(root, level - 1, Prefix(vpn, level - 1))] == next
    {
      hide Inv;
      ghost var k, j := Key(root, level, Prefix(vpn, level)), Px(vpn, level);
      PrefixStep(vpn, level);
      BranchAt(mem, g, k, j);
      var pte := mem[pt].ptes[Px(vpn, level)];
      if PteValid(pte) {
        next := PteAddr(pte);
        NodePage(mem, g, NoGap, Child(k, j));
      } else {
        if !alloc {
          return 0;
        }
        if g.free != [] {
          TakeAndGrow(mem, g, k, j);
        }
        next := Kalloc(NoGap);
        if next != 0 {
          mem := PutPte(mem, pt, Px(vpn, level), MkPte(next, PTE_V))[next := EmptyTable()];
          g := Grown(g, k, j, next);
        }
      }
    }

    /** walk: the address of the lowest-level table for the page, 0 if there is none. */
    method Walk(root: nat, vpn: nat, alloc: bool) returns (pt: nat)
      requires Ok(NoGap) && vpn < MAXVPN && Key(root, 2, 0) in g.node
      modifies this
      ensures Ok(NoGap) && Extends(old(mem), old(g), mem, g, root)
      ensures !alloc ==> mem == old(mem) && g == old(g) && freelist == old(freelist)
      ensures pt == 0 ==> LeafKey(Slot(root, vpn)) !in g.node && (alloc ==> g.free == [])
      ensures pt != 0 ==> LeafKey(Slot(root, vpn)) in g.node && g.node[LeafKey(Slot(root, vpn))] == pt
    {
      hide Inv;
      assert g.node[Key(root, 2, 0)] == root by { RootPage(mem, g, root); }
      pt := WalkStep(root, vpn, 2, root, alloc);
      if pt == 0 {
        NoSubtree(mem, g, root, vpn);
        return;
      }
      ghost var m1, g1 := mem, g;
      pt := WalkStep(root, vpn, 1, pt, alloc);
      ExtendsTrans(old(mem), old(g), m1, g1, mem, g, root);
    }

    /** walkaddr: the page a user address is mapped to, 0 if it is not mapped for the user. */
    method Walkaddr(root: nat, va: nat) returns (pa: nat)
      requires Ok(NoGap) && Key(root, 2, 0) in g.node
      modifies this
      ensures mem == old(mem) && g == old(g) && freelist == old(freelist)
      ensures pa == UserPage(g.flat, root, va / PGSIZE)
    {
      hide Inv;
      if va >= MAXVA {
        NoHighPages(mem, g, root, va / PGSIZE);
        return 0;
      }
      var pt := Walk(root, va / PGSIZE, false);
      FlatAt(mem, g, Slot(root, va / PGSIZE));
      if pt == 0 {
        return 0;
      }
      var pte := mem[pt].ptes[Px(va / PGSIZE, 0)];
      if !PteValid(pte) || !PteUser(pte) {
        return 0;
      }
      pa := PteAddr(pte);
    }

    /** One iteration of mappages. */
    method MapOne(root: nat, vpn: nat, pa: nat, perm: nat) returns (r: MapResult)
      requires Ok(NoGap) && Key(root, 2, 0) in g.node && perm < 1024
      modifies this
      ensures Ok(NoGap) && Extends(old(mem), old(g).(flat := g.flat), mem, g, root)
      ensures r == Done ==> vpn < MAXVPN && Slot(root, vpn) !in old(g).flat
                            && g.flat == old(g).flat[Slot(root, vpn) := MkPte(pa, WithV(perm))]
      ensures r != Done ==> g.flat == old(g).flat
      ensures r == NoMem ==> g.free == []
      ensures r == Panic <==> vpn >= MAXVPN || Slot(root, vpn) in old(g).flat
    {
      hide Inv;
      if vpn >= MAXVPN {
        return Panic;
      }
      ghost var x := Slot(root, vpn);
      var pt := Walk(root, vpn, true);
      FlatAt(mem, g, x);
      if pt == 0 {
        return NoMem;
      }
      if PteValid(mem[pt].ptes[Px(vpn, 0)]) {
        return Panic;
      }
      WithVValid(pa, perm);
      MapKeeps(mem, g, NoGap, x, MkPte(pa, WithV(perm)));
      ghost var m1, g1 := mem, g;
      mem := PutPte(mem, pt, Px(vpn, 0), MkPte(pa, WithV(perm)));
      g := Mapped(g, x, MkPte(pa, WithV(perm)));
      MapExtends(old(mem), old(g), m1, g1, NoGap, x, MkPte(pa, WithV(perm)));
      r := Done;
    }

    /** mappages; `done` counts the pages mapped before it returned. */
    method MapPages(root: nat, va: nat, size: nat, pa: nat, perm: nat) returns (r: MapResult, ghost done: nat)
      requires Ok(NoGap) && Key(root, 2, 0) in g.node && perm < 1024
      modifies this
      ensures Ok(NoGap) && Extends(old(mem), old(g).(flat := g.flat), mem, g, root)
      ensures g.flat == MapRange(old(g).flat, root, va / PGSIZE, done, pa, WithV(perm))
      ensures size == 0 ==> r == Panic && done == 0
      ensures size > 0 ==> (r == Done <==> done == (va + size - 1) / PGSIZE - va / PGSIZE + 1)
      ensures size > 0 ==> done <= (va + size - 1) / PGSIZE - va / PGSIZE + 1
      ensures r == NoMem ==> g.free == []
      ensures r == Panic ==> size == 0 || va / PGSIZE + done >= MAXVPN || Slot(root, va / PGSIZE + done) in g.flat
    {
      hide Inv;
      if size == 0 {
        ExtendsRefl(mem, g, root);
        return Panic, 0;
      }
      var a, last, p := va / PGSIZE, (va + size - 1) / PGSIZE, pa;
      done := 0;
      while true
        invariant Ok(NoGap) && Key(root, 2, 0) in g.node
        invariant Extends(old(mem), old(g).(flat := g.flat), mem, g, root)
        invariant a == va / PGSIZE + done <= last && p == pa + done * PGSIZE
        invariant g.flat == MapRange(old(g).flat, root, va / PGSIZE, done, pa, WithV(perm))
        decreases last - a
      {
        ghost var m1, g1 := mem, g;
        r := MapOne(root, a, p, perm);
        ExtendsFlat(old(mem), old(g), m1, g1, mem, g, root);
        hide Extends;
        if r != Done {
          return;
        }
        done := done + 1;
        if a == last {
          return;
        }
        a := a + 1;
        p := p + PGSIZE;
      }
    }

    /** One iteration of uvmunmap on a page that is mapped: with `free`, the page goes back to the
        allocator. */
    method UnmapOne(root: nat, vpn: nat, free: bool)
      requires Ok(NoGap) && Key(root, 2, 0) in g.node && CanUnmap(g, root, vpn, free)
      modifies this
      ensures Ok(NoGap)
      ensures g.node == old(g).node && g.flat == old(g).flat - {Slot(root, vpn)}
      ensures g.role == Freed(old(g).role, root, vpn, vpn + 1)
      ensures SameData(old(mem), mem, g) && |g.free| == |old(g).free| + if free then 1 else 0
    {
      hide Inv;
      ghost var x, g0, m0 := Slot(root, vpn), g, mem;
      assert vpn < MAXVPN && LeafKey(x) in g.node by { SlotBelow(mem, g, x); }
      var pt := Walk(root, vpn, false);
      NodePage(mem, g, NoGap, LeafKey(x));
      FlatAt(mem, g, x);
      if free {
        var pa := PteAddr(mem[pt].ptes[Px(vpn, 0)]);
        OwnKeeps(mem, g, NoGap, pa, Kernel);
        g := WithRole(g, pa, Kernel);
        Kfree(pa, NoGap);
      }
      assert g.role == Freed(g0.role, root, vpn, vpn + 1) by { FreedOne(m0, g0, root, vpn, free); }
      assert forall q | q in g.role :: g.role[q] != User(root, vpn);
      UnmapKeeps(mem, g, NoGap, x);
      mem := PutPte(mem, pt, Px(vpn, 0), 0);
      g := Unmapped(g, x);
      hide Freed;
    }

    /** uvmunmap of `npages` mapped pages from page `vpn` on. */
    method UvmUnmap(root: nat, vpn: nat, npages: nat, free: bool)
      requires Ok(NoGap) && Key(root, 2, 0) in g.node
      requires forall v | vpn <= v < vpn + npages :: CanUnmap(g, root, v, free)
      modifies this
      ensures Ok(NoGap)
      ensures g.node == old(g).node && g.flat == UnmapRange(old(g).flat, root, vpn, vpn + npages)
      ensures g.role == Freed(old(g).role, root, vpn, vpn + npages)
      ensures SameData(old(mem), mem, g) && |g.free| == |old(g).free| + if free then npages else 0
    {
      hide Inv;
      var a := vpn;
      FreedNone(g, root, vpn);
      while a < vpn + npages
        invariant vpn <= a <= vpn + npages
        invariant Ok(NoGap) && Key(root, 2, 0) in g.node
        invariant forall v | a <= v < vpn + npages :: CanUnmap(g, root, v, free)
        invariant g.node == old(g).node && g.flat == UnmapRange(old(g).flat, root, vpn, a)
        invariant g.role == Freed(old(g).role, root, vpn, a)
        invariant SameData(old(mem), mem, g) && |g.free| == |old(g).free| + if free then a - vpn else 0
      {
        ghost var m1, g1 := mem, g;
        UnmapOne(root, a, free);
        UnmapStep(old(g), g1, g, root, vpn, a, vpn + npages, free);
        SameDataStep(old(mem), m1, g1, mem, g, root, a);
        hide Freed, UnmapRange, SameData, CanUnmap;
        a := a + 1;
      }
    }

    /** uvmdealloc: shrinks a process from `oldsz` to `newsz` bytes. */
    method UvmDealloc(root: nat, oldsz: nat, newsz: nat) returns (sz: nat)
      requires Ok(NoGap) && Key(root, 2, 0) in g.node
      requires forall v | Pages(newsz) <= v < Pages(oldsz) :: CanUnmap(g, root, v, true)
      modifies this
      ensures Ok(NoGap) && sz == if newsz < oldsz then newsz else oldsz
      ensures g.node == old(g).node && SameData(old(mem), mem, g)
      ensures var hi := if newsz < oldsz then Pages(oldsz) else Pages(newsz);
              && g.flat == UnmapRange(old(g).flat, root, Pages(newsz), hi)
              && g.role == Freed(old(g).role, root, Pages(newsz), hi)
      ensures |g.free| == |old(g).free| + if newsz < oldsz then Pages(oldsz) - Pages(newsz) else 0
    {
      hide Inv;
      FreedNone(g, root, Pages(newsz));
      if newsz >= oldsz {
        return oldsz;
      }
      if Pages(newsz) < Pages(oldsz) {
        UvmUnmap(root, Pages(newsz), Pages(oldsz) - Pages(newsz), true);
      }
      sz := newsz;
    }

    /** A page for `vpn` of `root`: kalloc, fill it with `p`, map it; on failure, which means that memory
        ran out, it is given back. */
    method AddPage(root: nat, vpn: nat, p: Page, perm: nat) returns (ok: bool)
      requires Ok(NoGap) && Key(root, 2, 0) in g.node && perm < 1024
      requires vpn < MAXVPN && Slot(root, vpn) !in g.flat && WithV(perm) != PTE_V
      modifies this
      ensures Ok(NoGap)
      ensures ok ==> Allocated(old(mem), old(g), mem, g, root, vpn, vpn + 1)
                     && PageIs(mem, g, root, vpn, p, WithV(perm))
      ensures !ok ==> Extends(old(mem), old(g), mem, g, root) && |g.free| <= 1
    {
      hide Inv;
      ExtendsRefl(mem, g, root);
      var pa := Kalloc(NoGap);
      if pa == 0 {
        return false;
      }
      FirstFreeOf(old(mem), old(g));
      DataKeeps(mem, g, NoGap, pa, p);
      mem := mem[pa := p];
      ghost var m1, g1 := mem, g;
      var r := MapOne(root, vpn, pa, perm);
      if r != Done {
        GiveBack(old(mem), old(g), m1, g1, mem, g, root, p);
        Kfree(pa, NoGap);
        return false;
      }
      PteRoundTrip(pa, WithV(perm));
      OwnKeeps(mem, g, NoGap, pa, User(root, vpn));
      AddedPage(old(mem), old(g), m1, g1, mem, g, root, vpn, p, WithV(perm));
      g := WithRole(g, pa, User(root, vpn));
      ok := true;
    }

    /** uvmalloc: on success every new page is mapped to a zeroed page of its own; on failure (0)
        the flat map is as before, every user page taken is back on the free list, and there are too
        few free pages. */
    method UvmAlloc(root: nat, oldsz: nat, newsz: nat, xperm: nat) returns (sz: nat)
      requires Ok(NoGap) && Key(root, 2, 0) in g.node && xperm < 512
      requires Pages(newsz) <= MAXVPN && forall v | Pages(oldsz) <= v < Pages(newsz) :: Slot(root, v) !in g.flat
      modifies this
      ensures Ok(NoGap)
      ensures newsz < oldsz ==> sz == oldsz && mem == old(mem) && g == old(g)
      ensures oldsz <= newsz ==> sz == newsz || sz == 0
      ensures oldsz <= newsz && 0 < newsz && sz == newsz ==>
                && Allocated(old(mem), old(g), mem, g, root, Pages(oldsz), HighPage(oldsz, newsz))
                && forall v | Pages(oldsz) <= v < Pages(newsz) ::
                     PageIs(mem, g, root, v, Fill(0), WithV(UserPerm(xperm)))
      ensures oldsz <= newsz && 0 < newsz && sz == 0 ==>
                Extends(old(mem), old(g), mem, g, root) && |g.free| <= Pages(newsz) - Pages(oldsz)
    {
      hide Inv, Allocated, PageIs, Extends, CanUnmap, UnmapRange, Freed, SameData;
      if newsz < oldsz {
        return oldsz;
      }
      ghost var lo := Pages(oldsz);
      var a := Pages(oldsz);
      AllocatedNone(mem, g, root, lo);
      while a * PGSIZE < newsz
        invariant lo <= a <= HighPage(oldsz, newsz) && Ok(NoGap) && Key(root, 2, 0) in g.node
        invariant Allocated(old(mem), old(g), mem, g, root, lo, a)
        invariant forall v | lo <= v < a :: PageIs(mem, g, root, v, Fill(0), WithV(UserPerm(xperm)))
      {
        ghost var m1, g1 := mem, g;
        assert Slot(root, a) !in g.flat by { StillFree(old(mem), old(g), mem, g, root, lo, a); }
        var ok := AddPage(root, a, Fill(0), UserPerm(xperm));
        if !ok {
          AllocatedExtends(old(mem), old(g), m1, g1, mem, g, root, lo, a);
          ghost var m2, g2 := mem, g;
          var _ := UvmDealloc(root, a * PGSIZE, oldsz);
          RolledBack(old(mem), old(g), m2, g2, mem, g, root, lo, a);
          return 0;
        }
        AllocatedStep(old(mem), old(g), m1, g1, mem, g, root, lo, a);
        forall v | lo <= v < a ensures PageIs(mem, g, root, v, Fill(0), WithV(UserPerm(xperm))) {
          PageKept(m1, g1, mem, g, root, a, v, Fill(0), WithV(UserPerm(xperm)));
        }
        a := a + 1;
      }
      sz := newsz;
    }

    /** uvmcopy: on success every page of the parent below `sz` has a copy in the child, with the same
        flags and bytes in a page of its own; on failure, for lack of free pages, everything taken is
        given back. */
    method UvmCopy(parent: nat, child: nat, sz: nat) returns (ok: bool)
      requires Ok(NoGap) && Key(parent, 2, 0) in g.node && Key(child, 2, 0) in g.node && parent != child
      requires Pages(sz) <= MAXVPN && forall v | 0 <= v < Pages(sz) :: CanUnmap(g, parent, v, true)
      requires forall v | 0 <= v < Pages(sz) :: Slot(child, v) !in g.flat
      modifies this
      ensures Ok(NoGap)
      ensures ok ==> Allocated(old(mem), old(g), mem, g, child, 0, Pages(sz))
      ensures ok ==> forall v | 0 <= v < Pages(sz) :: CopiedPage(old(mem), old(g), mem, g, parent, child, v)
      ensures !ok ==> Extends(old(mem), old(g), mem, g, child) && |g.free| <= Pages(sz)
    {
      hide Inv, Allocated, PageIs, Extends, CanUnmap, UnmapRange, Freed, SameData;
      var i := 0;
      AllocatedNone(mem, g, child, 0);
      while i * PGSIZE < sz
        invariant 0 <= i <= Pages(sz) && Ok(NoGap) && Key(child, 2, 0) in g.node && Key(parent, 2, 0) in g.node
        invariant Allocated(old(mem), old(g), mem, g, child, 0, i)
        invariant forall v | 0 <= v < i :: CopiedPage(old(mem), old(g), mem, g, parent, child, v)
      {
        ghost var m1, g1 := mem, g;
        StillFree(old(mem), old(g), mem, g, child, 0, i);
        ParentPage(old(mem), old(g), mem, g, parent, child, i);
        var pt := Walk(parent, i, false);
        FlatAt(mem, g, Slot(parent, i));
        var pte := mem[pt].ptes[Px(i, 0)];
        var ok1 := AddPage(child, i, mem[PteAddr(pte)], PteFlags(pte));
        if !ok1 {
          AllocatedExtends(old(mem), old(g), m1, g1, mem, g, child, 0, i);
          ghost var m2, g2 := mem, g;
          UvmUnmap(child, 0, i, true);
          RolledBack(old(mem), old(g), m2, g2, mem, g, child, 0, i);
          return false;
        }
        AllocatedStep(old(mem), old(g), m1, g1, mem, g, child, 0, i);
        forall v | 0 <= v < i ensures CopiedPage(old(mem), old(g), mem, g, parent, child, v) {
          assert CopiedPage(old(mem), old(g), m1, g1, parent, child, v);
          var pte := old(g).flat[Slot(parent, v)];
          PageKept(m1, g1, mem, g, child, i, v, old(mem)[PteAddr(pte)], PteFlags(pte));
        }
        i := i + 1;
      }
      ok := true;
    }

    /** freewalk, on a tree with no pages mapped: frees the table of `k` and every table below it.
        The entry of the parent that points here is still set when it returns. */
    method FreeWalk(pt: nat, ghost k: Key)
      requires Ok(NoGap) && k in g.node && g.node[k] == pt
      requires forall x | x in g.flat :: !Under(LeafKey(x), k)
      modifies this
      ensures Ok(GapOf(k)) && Gone(old(g), g, Subtree(old(g), k)) && SameData(old(mem), mem, g)
      decreases k.level
    {
      hide Inv, Gone, SameData;
      GoneNone(mem, g, k);
      var i := 0;
      while i < 512
        invariant 0 <= i <= 512 && Ok(NoGap) && k in g.node && g.node[k] == pt && g.flat == old(g).flat
        invariant Gone(old(g), g, Cut(old(g), k, i)) && SameData(old(mem), mem, g)
      {
        ghost var m1, g1 := mem, g;
        EntryAt(mem, g, k, i);
        var pte := mem[pt].ptes[i];
        if PteValid(pte) && PteBranch(pte) {
          ghost var c := Child(k, i);
          NotUnder(old(g), k, i);
          FreeWalk(PteAddr(pte), c);
          CutStep(m1, old(g), g1, g, k, i);
          SameDataGone(old(mem), m1, g1, mem, g, Subtree(g1, c));
          CloseGapKeeps(mem, g, k, i);
          SameDataTable(old(mem), mem, g, k, i);
          mem := PutPte(mem, pt, i, 0);
        } else {
          CutNone(mem, old(g), g, k, i);
        }
        i := i + 1;
      }
      ghost var m1, g1 := mem, g;
      CutAll(mem, old(g), g, k);
      DropKeeps(mem, g, k);
      g := Dropped(g, k);
      Kfree(pt, GapOf(k));
      CutRoot(m1, old(g), g1, g, k);
      SameDataDrop(old(mem), m1, g1, mem, g, k);
    }

    /** uvmcreate: an empty page table, 0 if there is no memory. */
    method UvmCreate() returns (root: nat)
      requires Ok(NoGap)
      modifies this
      ensures Ok(NoGap) && SameData(old(mem), mem, old(g))
      ensures root == 0 <==> old(g).free == []
      ensures root == 0 ==> g == old(g)
      ensures root != 0 ==> root == old(g).free[0] && g == Rooted(Taken(old(g)), root)
                            && forall x | x in g.flat :: x.root != root
    {
      hide Inv;
      root := Kalloc(NoGap);
      if root != 0 {
        FirstFree(old(mem), old(g), NoGap);
        NewRoot(old(mem), old(g), root);
        RootKeeps(mem, g, root);
        mem := mem[root := EmptyTable()];
        g := Rooted(g, root);
      }
    }

    /** uvmfree: every page of the address space, and every page of its page table, is free. */
    method UvmFree(root: nat, sz: nat)
      requires Ok(NoGap) && Key(root, 2, 0) in g.node
      requires forall v | 0 <= v < Pages(sz) :: CanUnmap(g, root, v, true)
      requires forall x | x in g.flat && x.root == root :: x.vpn < Pages(sz)
      modifies this
      ensures Ok(NoGap) && Released(old(g), g, root) && SameData(old(mem), mem, g)
    {
      hide Inv, Gone, SameData, Freed, UnmapRange, CanUnmap;
      FreedNone(g, root, 0);
      assert SameData(mem, mem, g) by { GoneNone(mem, g, Key(root, 2, 0)); }
      if sz > 0 {
        UvmUnmap(root, 0, Pages(sz), true);
      }
      ghost var m1, g1, k := mem, g, Key(root, 2, 0);
      assert g1.node[k] == root by { RootPage(mem, g, root); }
      NothingUnder(old(g), g1, root, Pages(sz));
      FreeWalk(root, k);
      ReleasedAll(old(mem), m1, old(g), g1, g, root, Pages(sz));
      SameDataGone(old(mem), m1, g1, mem, g, Subtree(g1, k));
    }
  }

  /** PGROUNDUP. */
  function RoundUp(a: nat): (r: nat)
    ensures r % PGSIZE == 0 && a <= r < a + PGSIZE
  {
    (a + PGSIZE - 1) / PGSIZE * PGSIZE
  }

  /** At boot the kernel holds every page and nothing is mapped. */
  lemma BootInv(m: Mem)
    requires forall q | q in m :: GoodPage(q)
    ensures Inv(m, Book(map[], map[], map q | q in m :: Kernel, []), NoGap)
  {
  }

  /** `n` consecutive pages mapped to consecutive physical pages. */
  function MapRange(flat: map<Slot, nat>, root: nat, v: nat, n: nat, pa: nat, flags: nat): map<Slot, nat>
  {
    if n == 0 then flat
    else MapRange(flat, root, v, n - 1, pa, flags)[Slot(root, v + n - 1) := MkPte(pa + (n - 1) * PGSIZE, flags)]
  }

  lemma ExtendsFlat(m0: Mem, g0: Book, m1: Mem, g1: Book, m2: Mem, g2: Book, root: nat)
    requires Extends(m0, g0.(flat := g1.flat), m1, g1, root) && Extends(m1, g1.(flat := g2.flat), m2, g2, root)
    ensures Extends(m0, g0.(flat := g2.flat), m2, g2, root)
    ensures Key(root, 2, 0) in g1.node ==> Key(root, 2, 0) in g2.node
  {
  }

  /** The roles after the pages of `root` in `[lo, hi)` have been given back. */
  function Freed(role: map<nat, Role>, root: nat, lo: nat, hi: nat): map<nat, Role>
  {
    map q | q in role ::
      if role[q].User? && role[q].root == root && lo <= role[q].vpn < hi then OnFreeList else role[q]
  }

  /** The flat map without the pages of `root` in `[lo, hi)`. */
  function UnmapRange(flat: map<Slot, nat>, root: nat, lo: nat, hi: nat): map<Slot, nat>
  {
    map x | x in flat && !(x.root == root && lo <= x.vpn < hi) :: flat[x]
  }

  /** PGROUNDUP(sz) / PGSIZE. */
  function Pages(sz: nat): nat { (sz + PGSIZE - 1) / PGSIZE }

  lemma FreedNone(g: Book, root: nat, lo: nat)
    ensures Freed(g.role, root, lo, lo) == g.role && UnmapRange(g.flat, root, lo, lo) == g.flat
  {
  }

  lemma UnmapStep(g0: Book, g1: Book, g2: Book, root: nat, lo: nat, v: nat, hi: nat, free: bool)
    requires lo <= v < hi
    requires g1.role == Freed(g0.role, root, lo, v) && g1.flat == UnmapRange(g0.flat, root, lo, v)
    requires g2.role == Freed(g1.role, root, v, v + 1) && g2.flat == g1.flat - {Slot(root, v)}
    requires forall u | v <= u < hi :: CanUnmap(g1, root, u, free)
    ensures g2.role == Freed(g0.role, root, lo, v + 1) && g2.flat == UnmapRange(g0.flat, root, lo, v + 1)
    ensures forall u | v + 1 <= u < hi :: CanUnmap(g2, root, u, free)
  {
    forall u | v + 1 <= u < hi ensures CanUnmap(g2, root, u, free) {
      assert CanUnmap(g1, root, u, free);
    }
  }

  lemma SameDataStep(m0: Mem, m1: Mem, g1: Book, m2: Mem, g2: Book, root: nat, v: nat)
    requires g2.role == Freed(g1.role, root, v, v + 1)
    requires SameData(m0, m1, g1) && SameData(m1, m2, g2)
    ensures SameData(m0, m2, g2)
  {
  }

  lemma ExtendsRefl(m: Mem, g: Book, root: nat)
    ensures Extends(m, g, m, g, root)
  {
  }

  lemma FirstFreeOf(m: Mem, g: Book)
    requires Inv(m, g, NoGap) && g.free != []
    ensures var q := g.free[0]; q in m && q in g.role && g.role[q] == OnFreeList && GoodPage(q)
  {
    FirstFree(m, g, NoGap);
  }

  /** A page taken by kalloc and given back by kfree, with table pages added in between. */
  lemma GiveBack(m0: Mem, g0: Book, m1: Mem, g1: Book, m2: Mem, g2: Book, root: nat, p: Page)
    requires g0.free != [] && var q := g0.free[0]; q in m0 && q in g0.role && g0.role[q] == OnFreeList
    requires g1 == Taken(g0) && m1 == m0[g0.free[0] := Fill(5)][g0.free[0] := p]
    requires Extends(m1, g1.(flat := g2.flat), m2, g2, root) && g2.flat == g1.flat
    ensures g0.free[0] in g2.role && g2.role[g0.free[0]] == Kernel
    ensures Extends(m0, g0, m2[g0.free[0] := Free(First(g2.free))], Given(g2, g0.free[0]), root)
  {
  }

  lemma AddedPage(m0: Mem, g0: Book, m1: Mem, g1: Book, m2: Mem, g2: Book, root: nat, vpn: nat, p: Page, flags: nat)
    requires g0.free != []
    requires var q := g0.free[0]; q in m0 && q in g0.role && g0.role[q] == OnFreeList && GoodPage(q)
    requires g1 == Taken(g0) && m1 == m0[g0.free[0] := Fill(5)][g0.free[0] := p]
    requires Extends(m1, g1.(flat := g2.flat), m2, g2, root)
    requires g2.flat == g1.flat[Slot(root, vpn) := MkPte(g0.free[0], flags)]
    requires Slot(root, vpn) !in g0.flat && flags < 1024 && flags != PTE_V
    ensures var g3 := WithRole(g2, g0.free[0], User(root, vpn));
            Allocated(m0, g0, m2, g3, root, vpn, vpn + 1) && PageIs(m2, g3, root, vpn, p, flags)
  {
    PteRoundTrip(g0.free[0], flags);
  }

  /** PTE_R|PTE_U|xperm, `xperm` being PTE_W, PTE_X or both. */
  function UserPerm(xperm: nat): nat { PTE_R + PTE_U + xperm }

  function HighPage(oldsz: nat, newsz: nat): nat
  {
    if Pages(oldsz) <= Pages(newsz) then Pages(newsz) else Pages(oldsz)
  }

  /** From `g0` to `g` exactly the pages `[lo, hi)` of `root` were mapped, each to a page of its own
      from the free list; apart from that only page-table pages were added. */
  ghost predicate Allocated(m0: Mem, g0: Book, m: Mem, g: Book, root: nat, lo: nat, hi: nat)
  {
    && g.role.Keys == g0.role.Keys
    && (forall k | k in g0.node :: k in g.node && g.node[k] == g0.node[k])
    && (forall q | q in g0.role && g0.role[q] != g.role[q] ::
          g0.role[q] == OnFreeList
          && ((g.role[q].Node? && g.role[q].key.root == root)
              || (g.role[q].User? && g.role[q].root == root && lo <= g.role[q].vpn < hi)))
    && (forall q | q in g0.role && (g0.role[q] == Kernel || g0.role[q].User?) && q in m0 :: q in m && m[q] == m0[q])
    && UnmapRange(g.flat, root, lo, hi) == g0.flat
    && (forall v | lo <= v < hi :: CanUnmap(g, root, v, true))
  }

  /** Page `v` of `root` has these flags and its page holds `p`. */
  ghost predicate PageIs(m: Mem, g: Book, root: nat, v: nat, p: Page, flags: nat)
  {
    && CanUnmap(g, root, v, true)
    && var pte := g.flat[Slot(root, v)]; PteFlags(pte) == flags && PteAddr(pte) in m && m[PteAddr(pte)] == p
  }

  /** Page `v` of the child has the flags and contents that page `v` of the parent had. */
  ghost predicate CopiedPage(m0: Mem, g0: Book, m: Mem, g: Book, parent: nat, child: nat, v: nat)
  {
    && Slot(parent, v) in g0.flat
    && var pte := g0.flat[Slot(parent, v)];
       PteAddr(pte) in m0 && PageIs(m, g, child, v, m0[PteAddr(pte)], PteFlags(pte))
  }

  /** The parent's page is still there, unchanged. */
  lemma ParentPage(m0: Mem, g0: Book, m: Mem, g: Book, parent: nat, child: nat, v: nat)
    requires Inv(m0, g0, NoGap) && Inv(m, g, NoGap) && Allocated(m0, g0, m, g, child, 0, v) && parent != child
    requires CanUnmap(g0, parent, v, true)
    ensures var x := Slot(parent, v); x in g.flat && x in g0.flat && g.flat[x] == g0.flat[x]
    ensures var pte := g.flat[Slot(parent, v)];
            && PteAddr(pte) in m && PteAddr(pte) in m0 && m[PteAddr(pte)] == m0[PteAddr(pte)]
            && WithV(PteFlags(pte)) == PteFlags(pte) != PTE_V
  {
    FlatAt(m, g, Slot(parent, v));
    hide Tables, Branches, Leaves, FreeList;
    assert Slot(parent, v) in UnmapRange(g.flat, child, 0, v);
  }

  lemma AllocatedNone(m: Mem, g: Book, root: nat, lo: nat)
    ensures Allocated(m, g, m, g, root, lo, lo)
  {
    FreedNone(g, root, lo);
  }

  lemma StillFree(m0: Mem, g0: Book, m: Mem, g: Book, root: nat, lo: nat, v: nat)
    requires Allocated(m0, g0, m, g, root, lo, v) && Slot(root, v) !in g0.flat
    ensures Slot(root, v) !in g.flat
  {
    assert Slot(root, v) in g.flat ==> Slot(root, v) in UnmapRange(g.flat, root, lo, v);
  }

  lemma AllocatedStep(m0: Mem, g0: Book, m1: Mem, g1: Book, m2: Mem, g2: Book, root: nat, lo: nat, v: nat)
    requires Allocated(m0, g0, m1, g1, root, lo, v) && lo <= v && Allocated(m1, g1, m2, g2, root, v, v + 1)
    ensures Allocated(m0, g0, m2, g2, root, lo, v + 1)
    ensures forall k | k in g0.node :: k in g2.node
  {
    forall u | lo <= u < v + 1 ensures CanUnmap(g2, root, u, true) {
      if u < v {
        assert CanUnmap(g1, root, u, true);
        assert Slot(root, u) in UnmapRange(g2.flat, root, v, v + 1);
      }
    }
  }

  lemma AllocatedExtends(m0: Mem, g0: Book, m1: Mem, g1: Book, m2: Mem, g2: Book, root: nat, lo: nat, hi: nat)
    requires Allocated(m0, g0, m1, g1, root, lo, hi) && Extends(m1, g1, m2, g2, root)
    ensures Allocated(m0, g0, m2, g2, root, lo, hi)
    ensures forall k | k in g0.node :: k in g2.node
    ensures forall v | lo <= v < hi :: CanUnmap(g2, root, v, true)
  {
    forall v | lo <= v < hi ensures CanUnmap(g2, root, v, true) {
      assert CanUnmap(g1, root, v, true);
    }
  }

  /** Giving the new pages back leaves nothing but the added page-table pages. */
  lemma RolledBack(m0: Mem, g0: Book, m1: Mem, g1: Book, m2: Mem, g2: Book, root: nat, lo: nat, hi: nat)
    requires Inv(m0, g0, NoGap) && Allocated(m0, g0, m1, g1, root, lo, hi)
    requires g2.node == g1.node && g2.flat == UnmapRange(g1.flat, root, lo, hi)
    requires g2.role == Freed(g1.role, root, lo, hi) && SameData(m1, m2, g2)
    ensures Extends(m0, g0, m2, g2, root)
  {
    hide Tables, Branches, Leaves, FreeList;
  }

  /** A page mapped before is the same after others were added. */
  lemma PageKept(m1: Mem, g1: Book, m2: Mem, g2: Book, root: nat, v: nat, u: nat, p: Page, flags: nat)
    requires Allocated(m1, g1, m2, g2, root, v, v + 1) && PageIs(m1, g1, root, u, p, flags) && u != v
    ensures PageIs(m2, g2, root, u, p, flags)
  {
    assert Slot(root, u) in UnmapRange(g2.flat, root, v, v + 1);
  }

  /** Pages still in use for data hold what they held. */
  ghost predicate SameData(m0: Mem, m: Mem, g: Book)
  {
    forall q | q in g.role && (g.role[q] == Kernel || g.role[q].User?) && q in m0 :: q in m && m[q] == m0[q]
  }

  /** What uvmunmap demands of a page: it is mapped; to be freed it must be owned by this mapping,
      and if it is not to be freed nothing is owned by this mapping. */
  ghost predicate CanUnmap(g: Book, root: nat, vpn: nat, free: bool)
  {
    && Slot(root, vpn) in g.flat && PteFlags(g.flat[Slot(root, vpn)]) != PTE_V
    && if free then
         var q := PteAddr(g.flat[Slot(root, vpn)]); q in g.role && g.role[q] == User(root, vpn)
       else
         forall q | q in g.role :: g.role[q] != User(root, vpn)
  }

  lemma SlotBelow(m: Mem, g: Book, x: Slot)
    requires Inv(m, g, NoGap) && x in g.flat
    ensures x.vpn < MAXVPN && LeafKey(x) in g.node
  {
    hide Branches, FreeList, Roles, LeafOk;
  }

  lemma FreedOne(m: Mem, g: Book, root: nat, vpn: nat, free: bool)
    requires Inv(m, g, NoGap) && CanUnmap(g, root, vpn, free)
    ensures var q := PteAddr(g.flat[Slot(root, vpn)]);
            Freed(g.role, root, vpn, vpn + 1) == if free then g.role[q := OnFreeList] else g.role
  {
    hide Tables, Branches, Leaves, FreeList;
  }

  // --- the tables below a table ---

  function Up(l: Key): Key { Key(l.root, l.level + 1, l.prefix / 512) }

  /** `l` is `k` or hangs below it. */
  predicate Under(l: Key, k: Key)
    decreases k.level - l.level
  {
    l == k || (l.level < k.level && Under(Up(l), k))
  }

  /** Which entry of `k` leads to `l`. */
  function Idx(l: Key, k: Key): nat
    decreases k.level - l.level
  {
    if l.level + 1 >= k.level then l.prefix % 512 else Idx(Up(l), k)
  }

  ghost function Subtree(g: Book, k: Key): set<Key> { set l | l in g.node && Under(l, k) }

  /** The tables that hang below the first `i` entries of `k`. */
  ghost function Cut(g: Book, k: Key, i: nat): set<Key>
  {
    set l | l in g.node && Under(l, k) && l != k && Idx(l, k) < i
  }

  lemma UnderChild(l: Key, k: Key, j: nat)
    requires 0 < k.level && j < 512
    ensures Under(l, Child(k, j)) <==> Under(l, k) && l != k && Idx(l, k) == j
    decreases k.level - l.level
  {
    var c := Child(k, j);
    assert c.prefix / 512 == k.prefix && c.prefix % 512 == j;
    if l.level + 1 < k.level {
      UnderChild(Up(l), k, j);
    }
  }

  /** A table below `k` is in the tree only if `k` is. */
  lemma UnderIn(m: Mem, g: Book, l: Key, k: Key)
    requires Inv(m, g, NoGap) && l in g.node && Under(l, k) && k.level <= 2
    ensures k in g.node
    decreases k.level - l.level
  {
    if l != k {
      assert Up(l) in g.node by { hide Roles, Leaves, FreeList, BranchOk; }
      UnderIn(m, g, Up(l), k);
    }
  }

  /** From `g0` to `g` exactly the tables in `gone` went back to the free list. */
  ghost predicate Gone(g0: Book, g: Book, gone: set<Key>)
  {
    && g.flat == g0.flat && g.node == g0.node - gone && g.role.Keys == g0.role.Keys
    && forall q | q in g0.role ::
         g.role[q] == if g0.role[q].Node? && g0.role[q].key in gone then OnFreeList else g0.role[q]
  }

  lemma GoneNone(m: Mem, g: Book, k: Key)
    ensures Gone(g, g, Cut(g, k, 0)) && SameData(m, m, g)
  {
    assert Cut(g, k, 0) == {};
  }

  /** Entry `i` of a table with no pages mapped below it: a branch to the table below, or not set. */
  lemma EntryAt(m: Mem, g: Book, k: Key, i: nat)
    requires Inv(m, g, NoGap) && k in g.node && i < 512
    requires forall x | x in g.flat :: !Under(LeafKey(x), k)
    ensures TableAt(m, g.node[k]) && k.level <= 2
    ensures var pte := m[g.node[k]].ptes[i];
            if PteValid(pte)
            then 0 < k.level && PteBranch(pte) && Child(k, i) in g.node && PteAddr(pte) == g.node[Child(k, i)]
            else 0 < k.level ==> Child(k, i) !in g.node
  {
    hide Inv;
    NodePage(m, g, NoGap, k);
    if k.level == 0 {
      var x := Slot(k.root, k.prefix * 512 + i);
      assert LeafKey(x) == k && x.vpn % 512 == i;
      FlatAt(m, g, x);
    } else {
      BranchAt(m, g, k, i);
    }
  }

  lemma NotUnder(g: Book, k: Key, i: nat)
    requires forall x | x in g.flat :: !Under(LeafKey(x), k)
    requires 0 < k.level && i < 512
    ensures forall x | x in g.flat :: !Under(LeafKey(x), Child(k, i))
  {
    forall x | x in g.flat ensures !Under(LeafKey(x), Child(k, i)) {
      UnderChild(LeafKey(x), k, i);
    }
  }

  lemma GoneMore(g0: Book, g1: Book, g2: Book, s: set<Key>, t: set<Key>)
    requires Gone(g0, g1, s) && Gone(g1, g2, t)
    ensures Gone(g0, g2, s + t)
  {
  }

  lemma CutStep(m1: Mem, g0: Book, g1: Book, g2: Book, k: Key, i: nat)
    requires Gone(g0, g1, Cut(g0, k, i)) && 0 < k.level <= 2 && i < 512
    requires Gone(g1, g2, Subtree(g1, Child(k, i))) && k in g1.node
    ensures Gone(g0, g2, Cut(g0, k, i + 1)) && g2.flat == g0.flat
    ensures k in g2.node && g2.node[k] == g1.node[k] && Child(k, i) !in g2.node && GapOf(Child(k, i)) == Gap(k, i)
  {
    var c := Child(k, i);
    assert c.prefix / 512 == k.prefix && c.prefix % 512 == i;
    GoneMore(g0, g1, g2, Cut(g0, k, i), Subtree(g1, c));
    forall l ensures l in Cut(g0, k, i) + Subtree(g1, c) <==> l in Cut(g0, k, i + 1) {
      UnderChild(l, k, i);
    }
    assert Cut(g0, k, i) + Subtree(g1, c) == Cut(g0, k, i + 1);
    UnderChild(k, k, i);
  }

  lemma CutNone(m: Mem, g0: Book, g: Book, k: Key, i: nat)
    requires Inv(m, g, NoGap) && Gone(g0, g, Cut(g0, k, i)) && i < 512 && k.level <= 2
    requires 0 < k.level ==> Child(k, i) !in g.node
    ensures Gone(g0, g, Cut(g0, k, i + 1))
  {
    forall l | l in Cut(g0, k, i + 1) ensures l in Cut(g0, k, i) {
      if l !in Cut(g0, k, i) {
        UnderChild(l, k, i);
        UnderIn(m, g, l, Child(k, i));
      }
    }
    assert Cut(g0, k, i + 1) == Cut(g0, k, i);
  }

  lemma IdxBound(l: Key, k: Key)
    ensures Idx(l, k) < 512
    decreases k.level - l.level
  {
    if l.level + 1 < k.level {
      IdxBound(Up(l), k);
    }
  }

  lemma CutAll(m: Mem, g0: Book, g: Book, k: Key)
    requires Gone(g0, g, Cut(g0, k, 512)) && forall x | x in g0.flat :: !Under(LeafKey(x), k)
    ensures Bare(g, k)
  {
    forall l | l in g0.node && Up(l) == k ensures l in Cut(g0, k, 512) {
      IdxBound(l, k);
      assert Under(Up(l), k);
    }
  }

  lemma DropGone(m: Mem, g: Book, k: Key)
    requires Inv(m, g, NoGap) && k in g.node
    ensures Gone(g, Given(Dropped(g, k), g.node[k]), {k})
  {
    hide Tables, Branches, Leaves, FreeList;
  }

  lemma CutRoot(m: Mem, g0: Book, g1: Book, g2: Book, k: Key)
    requires Inv(m, g1, NoGap) && Gone(g0, g1, Cut(g0, k, 512)) && k in g1.node
    requires g2 == Given(Dropped(g1, k), g1.node[k])
    ensures Gone(g0, g2, Subtree(g0, k))
  {
    hide Inv;
    DropGone(m, g1, k);
    GoneMore(g0, g1, g2, Cut(g0, k, 512), {k});
    forall l ensures l in Cut(g0, k, 512) + {k} <==> l in Subtree(g0, k) {
      IdxBound(l, k);
    }
    assert Cut(g0, k, 512) + {k} == Subtree(g0, k);
  }

  lemma SameDataGone(m0: Mem, m1: Mem, g1: Book, m2: Mem, g2: Book, gone: set<Key>)
    requires Gone(g1, g2, gone) && SameData(m0, m1, g1) && SameData(m1, m2, g2)
    ensures SameData(m0, m2, g2)
  {
  }

  lemma SameDataTable(m0: Mem, m: Mem, g: Book, k: Key, i: nat)
    requires Inv(m, g, Gap(k, i)) && SameData(m0, m, g) && k in g.node && i < 512
    ensures TableAt(m, g.node[k]) && SameData(m0, PutPte(m, g.node[k], i, 0), g)
  {
    NodePage(m, g, Gap(k, i), k);
    hide Inv;
  }

  lemma SameDataDrop(m0: Mem, m1: Mem, g1: Book, m2: Mem, g2: Book, k: Key)
    requires Inv(m1, g1, NoGap) && SameData(m0, m1, g1) && k in g1.node
    requires g2 == Given(Dropped(g1, k), g1.node[k]) && g1.node[k] in m2 && m2 == m1[g1.node[k] := m2[g1.node[k]]]
    ensures SameData(m0, m2, g2)
  {
    NodePage(m1, g1, NoGap, k);
    hide Inv;
  }

  lemma NewRoot(m: Mem, g: Book, root: nat)
    requires Inv(m, g, NoGap) && root in g.role && g.role[root] == OnFreeList
    ensures forall x | x in g.flat :: x.root != root
  {
    forall x | x in g.flat ensures x.root != root {
      SlotBelow(m, g, x);
      assert Under(LeafKey(x), Key(x.root, 2, 0)) by {
        assert x.vpn / 512 / 512 / 512 == 0;
        assert Up(Up(LeafKey(x))) == Key(x.root, 2, 0);
        assert Under(Up(LeafKey(x)), Key(x.root, 2, 0));
      }
      UnderIn(m, g, LeafKey(x), Key(x.root, 2, 0));
      RootPage(m, g, x.root);
      NodePage(m, g, NoGap, Key(x.root, 2, 0));
      hide Inv;
    }
  }

  /** From `g0` to `g` the address space of `root` is gone: its tables and pages are free, and
      nothing else changed. */
  ghost predicate Released(g0: Book, g: Book, root: nat)
  {
    && g.flat == (map x | x in g0.flat && x.root != root :: g0.flat[x])
    && g.node == (map k | k in g0.node && k.root != root :: g0.node[k])
    && g.role.Keys == g0.role.Keys
    && forall q | q in g0.role ::
         g.role[q] == if PartOf(g0.role[q], root) then OnFreeList else g0.role[q]
  }

  /** The page is a table of this page table, or owned by one of its mappings. */
  predicate PartOf(role: Role, root: nat)
  {
    (role.Node? && role.key.root == root) || (role.User? && role.root == root)
  }

  lemma UnderRoot(l: Key, k: Key)
    requires Under(l, k)
    ensures l.root == k.root
    decreases k.level - l.level
  {
    if l != k {
      UnderRoot(Up(l), k);
    }
  }

  lemma RootAbove(m: Mem, g: Book, l: Key)
    requires Inv(m, g, NoGap) && l in g.node
    ensures Under(l, Key(l.root, 2, 0))
    decreases 2 - l.level
  {
    hide Roles, Leaves, FreeList, BranchOk;
    if l.level < 2 {
      assert Up(l) in g.node;
      RootAbove(m, g, Up(l));
    }
  }

  lemma NothingUnder(g0: Book, g1: Book, root: nat, n: nat)
    requires g1.flat == UnmapRange(g0.flat, root, 0, n)
    requires forall x | x in g0.flat && x.root == root :: x.vpn < n
    ensures forall x | x in g1.flat :: x.root != root && !Under(LeafKey(x), Key(root, 2, 0))
  {
    forall x | x in g1.flat ensures x.root != root && !Under(LeafKey(x), Key(root, 2, 0)) {
      assert x in UnmapRange(g0.flat, root, 0, n);
      if Under(LeafKey(x), Key(root, 2, 0)) {
        UnderRoot(LeafKey(x), Key(root, 2, 0));
      }
    }
  }

  lemma WholeTree(m: Mem, g: Book, root: nat)
    requires Inv(m, g, NoGap)
    ensures Subtree(g, Key(root, 2, 0)) == set k | k in g.node && k.root == root
  {
    forall k | k in g.node ensures Under(k, Key(root, 2, 0)) <==> k.root == root {
      if k.root == root {
        RootAbove(m, g, k);
      } else if Under(k, Key(root, 2, 0)) {
        UnderRoot(k, Key(root, 2, 0));
      }
    }
  }

  lemma UserBelow(m: Mem, g: Book, root: nat, n: nat)
    requires Inv(m, g, NoGap) && forall x | x in g.flat && x.root == root :: x.vpn < n
    ensures forall q | q in g.role && g.role[q].User? && g.role[q].root == root :: g.role[q].vpn < n
    ensures forall q | q in g.role && g.role[q].Node? :: g.role[q].key in g.node
  {
    hide Tables, Branches, Leaves, FreeList;
  }

  lemma ReleasedAll(m0: Mem, m1: Mem, g0: Book, g1: Book, g2: Book, root: nat, n: nat)
    requires Inv(m0, g0, NoGap) && Inv(m1, g1, NoGap) && forall x | x in g0.flat && x.root == root :: x.vpn < n
    requires g1.flat == UnmapRange(g0.flat, root, 0, n) && g1.role == Freed(g0.role, root, 0, n) && g1.node == g0.node
    requires Gone(g1, g2, Subtree(g1, Key(root, 2, 0)))
    ensures Released(g0, g2, root)
  {
    hide Inv;
    WholeTree(m1, g1, root);
    UserBelow(m0, g0, root, n);
    hide Subtree, Under;
  }

  datatype MapResult = Done | NoMem | Panic

  /** What walkaddr reports, read off the flat map. */
  function UserPage(flat: map<Slot, nat>, root: nat, vpn: nat): nat
  {
    var x := Slot(root, vpn);
    if x in flat && PteUser(flat[x]) then PteAddr(flat[x]) else 0
  }

  lemma RootPage(m: Mem, g: Book, root: nat)
    requires Inv(m, g, NoGap) && Key(root, 2, 0) in g.node
    ensures g.node[Key(root, 2, 0)] == root
  {
  }

  lemma NoSubtree(m: Mem, g: Book, root: nat, vpn: nat)
    requires Inv(m, g, NoGap) && Key(root, 1, Prefix(vpn, 1)) !in g.node
    ensures LeafKey(Slot(root, vpn)) !in g.node
  {
    hide Roles, Leaves, FreeList, BranchOk;
    assert (vpn / 512) / 512 == vpn / 0x4_0000;
  }

  lemma NoHighPages(m: Mem, g: Book, root: nat, vpn: nat)
    requires Inv(m, g, NoGap) && vpn >= MAXVPN
    ensures Slot(root, vpn) !in g.flat
  {
    hide Branches, FreeList, Roles, LeafOk;
  }

  /** The leaf entry of a page is what the flat map says. */
  lemma FlatAt(m: Mem, g: Book, x: Slot)
    requires Inv(m, g, NoGap)
    ensures LeafKey(x) !in g.node ==> x !in g.flat
    ensures LeafKey(x) in g.node ==>
              && TableAt(m, g.node[LeafKey(x)])
              && var pte := m[g.node[LeafKey(x)]].ptes[x.vpn % 512];
                 if PteValid(pte) then x in g.flat && g.flat[x] == pte else x !in g.flat
  {
    hide Branches, FreeList, Roles;
    if LeafKey(x) in g.node {
      assert TableAt(m, g.node[LeafKey(x)]);
      assert LeafOk(m, g, LeafKey(x), x.vpn % 512);
      assert LeafKey(x).prefix * 512 + x.vpn % 512 == x.vpn;
    }
  }

  lemma WithVValid(pa: nat, perm: nat)
    requires perm < 1024
    ensures PteValid(MkPte(pa, WithV(perm)))
  {
    var q := pa / 4096;
    assert (q * 1024 + WithV(perm)) % 1024 == WithV(perm);
  }

  /** Writing a leaf entry after growing the tree. */
  lemma MapExtends(m0: Mem, g0: Book, m: Mem, g: Book, gap: Gap, x: Slot, pte: nat)
    requires Extends(m0, g0, m, g, x.root) && Inv(m, g, gap) && LeafKey(x) in g.node
    ensures TableAt(m, g.node[LeafKey(x)])
    ensures var g' := Mapped(g, x, pte);
            Extends(m0, g0.(flat := g'.flat), PutPte(m, g.node[LeafKey(x)], x.vpn % 512, pte), g', x.root)
  {
    NodePage(m, g, gap, LeafKey(x));
    hide Inv;
  }
}
