/** Sv39 page tables (section 4.4 of the RISC-V Privileged Architecture) in the physical memory
    handed out by kernel/kalloc.c.  The memory is a map from page address to what the page is used
    for; beside it stands the bookkeeping the kernel does not have: the flat map the trees stand
    for, and the single role of every page.  Shifts and masks of kernel/riscv.h are written as
    division and remainder. */
module PageTable {
  import opened Bytes

  const PGSIZE: nat := 4096
  const PHYSTOP: nat := 0x8800_0000
  const MAXVPN: nat := 0x400_0000          // MAXVA / PGSIZE
  const MAXVA: nat := 0x40_0000_0000

  const PTE_V: nat := 1
  const PTE_R: nat := 2
  const PTE_W: nat := 4
  const PTE_X: nat := 8
  const PTE_U: nat := 16

  /** PA2PTE(pa) with flag bits added. */
  function MkPte(pa: nat, flags: nat): nat { pa / 4096 * 1024 + flags }

  /** PTE2PA. */
  function PteAddr(pte: nat): nat { pte / 1024 * 4096 }

  function PteFlags(pte: nat): nat { pte % 1024 }

  predicate PteValid(pte: nat) { PteFlags(pte) % 2 == 1 }

  predicate PteUser(pte: nat) { PteFlags(pte) / 16 % 2 == 1 }

  /** None of PTE_R, PTE_W and PTE_X: a pointer to the next level. */
  predicate PteBranch(pte: nat) { PteFlags(pte) / 2 % 8 == 0 }

  /** `perm | PTE_V`. */
  function WithV(perm: nat): nat { if perm % 2 == 1 then perm else perm + 1 }

  /** PA2PTE and PTE2PA undo each other on page addresses, and the flags are kept apart. */
  lemma PteRoundTrip(pa: nat, flags: nat)
    requires pa % PGSIZE == 0 && flags < 1024
    ensures PteAddr(MkPte(pa, flags)) == pa && PteFlags(MkPte(pa, flags)) == flags
    ensures PteValid(MkPte(pa, flags)) == PteValid(flags) && PteUser(MkPte(pa, flags)) == PteUser(flags)
    ensures PteBranch(MkPte(pa, flags)) == PteBranch(flags)
  {
    var q := pa / 4096;
    assert (q * 1024 + flags) / 1024 == q && (q * 1024 + flags) % 1024 == flags;
  }

  /** The page number prefix that selects the table of the given level, and PX(level, va). */
  function Prefix(vpn: nat, level: nat): nat
  {
    if level == 0 then vpn / 512 else if level == 1 then vpn / 0x4_0000 else 0
  }

  function Px(vpn: nat, level: nat): nat
  {
    if level == 0 then vpn % 512 else if level == 1 then vpn / 512 % 512 else vpn / 0x4_0000 % 512
  }

  /** One step down the tree: the entry Px selects the child with the next prefix. */
  lemma PrefixStep(vpn: nat, level: nat)
    requires vpn < MAXVPN && 0 < level <= 2
    ensures Px(vpn, level) < 512 && Prefix(vpn, level - 1) == Prefix(vpn, level) * 512 + Px(vpn, level)
  {
  }

  /** Two pages below MAXVA that use the same three indices are the same page. */
  lemma IndicesDeterminePage(u: nat, v: nat)
    requires u < MAXVPN && v < MAXVPN
    requires forall level | 0 <= level <= 2 :: Px(u, level) == Px(v, level)
    ensures u == v
  {
    assert Px(u, 0) == Px(v, 0) && Px(u, 1) == Px(v, 1) && Px(u, 2) == Px(v, 2);
    FromIndices(u);
    FromIndices(v);
    hide Px;
  }

  lemma FromIndices(v: nat)
    requires v < MAXVPN
    ensures v == (Px(v, 2) * 512 + Px(v, 1)) * 512 + Px(v, 0)
  {
    var q := v / 512;
    assert v == q * 512 + v % 512 && q == q / 512 * 512 + q % 512 && v / 0x4_0000 == q / 512;
  }

  // ---------------------------------------------------------------------------
  // Physical memory and its bookkeeping
  // ---------------------------------------------------------------------------

  datatype Page =
    | Free(next: nat)            // struct run; 0 is the null pointer
    | Table(ptes: seq<nat>)
    | Data(bytes: seq<byte>)

  /** A page-table page: which tree, which level, which prefix of the page number. */
  datatype Key = Key(root: nat, level: nat, prefix: nat)

  datatype Role =
    | OnFreeList
    | Node(key: Key)
    | User(root: nat, vpn: nat)    // owned by this mapping of this page table
    | Kernel                       // held by the kernel directly

  datatype Slot = Slot(root: nat, vpn: nat)

  /** `node` finds a page-table page by its place in a tree, `flat` is the map the trees stand for
      (to page-table entries), `role` says what each page is used for, `free` is the free list. */
  datatype Book = Book(node: map<Key, nat>, flat: map<Slot, nat>, role: map<nat, Role>, free: seq<nat>)

  type Mem = map<nat, Page>

  function Child(k: Key, j: nat): Key
  {
    Key(k.root, if k.level > 0 then k.level - 1 else 0, k.prefix * 512 + j)
  }

  predicate GoodPage(q: nat) { q % PGSIZE == 0 && 0 < q < PHYSTOP }

  /** Every page has one role; a node's role says where it is, and the other way round. */
  ghost predicate Roles(m: Mem, g: Book)
  {
    && m.Keys == g.role.Keys
    && (forall q | q in m :: GoodPage(q))
    && (forall q | q in g.role && g.role[q].Node? :: g.role[q].key in g.node && g.node[g.role[q].key] == q)
    && (forall k | k in g.node :: g.node[k] in g.role && g.role[g.node[k]] == Node(k))
    && (forall q | q in g.role && g.role[q].User? ::
          Slot(g.role[q].root, g.role[q].vpn) in g.flat
          && PteAddr(g.flat[Slot(g.role[q].root, g.role[q].vpn)]) == q)
  }

  predicate TableAt(m: Mem, q: nat) { q in m && m[q].Table? && |m[q].ptes| == 512 }

  ghost predicate Tables(m: Mem, g: Book)
  {
    && (forall k | k in g.node :: TableAt(m, g.node[k]) && k.level <= 2)
    && (forall k | k in g.node && k.level == 2 :: g.node[k] == k.root && k.prefix == 0)
  }

  /** The entry whose table has been freed while the entry is still set (inside freewalk). */
  datatype Gap = NoGap | Gap(key: Key, index: nat)

  /** Entry `j` of an upper-level table points to the table below, if there is one. */
  ghost predicate BranchOk(m: Mem, g: Book, k: Key, j: nat)
    requires k in g.node && TableAt(m, g.node[k]) && j < 512
  {
    var pte := m[g.node[k]].ptes[j];
    if PteValid(pte) then Child(k, j) in g.node && pte == MkPte(g.node[Child(k, j)], PTE_V)
    else Child(k, j) !in g.node
  }

  ghost predicate Branches(m: Mem, g: Book, gap: Gap)
    requires Tables(m, g)
  {
    && (forall k, j: nat | k in g.node && 0 < k.level && j < 512 && gap != Gap(k, j) :: BranchOk(m, g, k, j))
    && (forall k | k in g.node && k.level < 2 :: Key(k.root, k.level + 1, k.prefix / 512) in g.node)
  }

  /** Entry `j` of a lowest-level table is what the flat map says. */
  ghost predicate LeafOk(m: Mem, g: Book, k: Key, j: nat)
    requires k in g.node && TableAt(m, g.node[k]) && j < 512
  {
    var pte, slot := m[g.node[k]].ptes[j], Slot(k.root, k.prefix * 512 + j);
    if PteValid(pte) then slot in g.flat && g.flat[slot] == pte else slot !in g.flat
  }

  ghost predicate Leaves(m: Mem, g: Book)
    requires Tables(m, g)
  {
    && (forall k, j: nat | k in g.node && k.level == 0 && j < 512 :: LeafOk(m, g, k, j))
    && (forall x | x in g.flat :: Key(x.root, 0, x.vpn / 512) in g.node && x.vpn < MAXVPN)
  }

  /** The free list runs through the free pages. */
  ghost predicate FreeList(m: Mem, g: Book)
  {
    && (forall i, j | 0 <= i < j < |g.free| :: g.free[i] != g.free[j])
    && (forall i | 0 <= i < |g.free| :: g.free[i] in g.role && g.role[g.free[i]] == OnFreeList)
    && (forall q | q in g.role && g.role[q] == OnFreeList :: q in g.free)
    && (forall i | 0 <= i < |g.free| :: g.free[i] in m && m[g.free[i]] == Free(Next(g.free, i)))
  }

  function Next(free: seq<nat>, i: nat): nat
  {
    if i + 1 < |free| then free[i + 1] else 0
  }

  function First(free: seq<nat>): nat
  {
    if free == [] then 0 else free[0]
  }

  ghost predicate Inv(m: Mem, g: Book, gap: Gap)
  {
    Roles(m, g) && Tables(m, g) && Branches(m, g, gap) && Leaves(m, g) && FreeList(m, g)
  }

  /** How often `q` is counted: on the free list, as a page-table page, as the page of a mapping that
      owns it, as held by the kernel. */
  ghost function Uses(g: Book, q: nat): nat
    requires q in g.role
  {
    (if q in g.free then 1 else 0)
    + (if exists k :: k in g.node && g.node[k] == q then 1 else 0)
    + (if exists x :: x in g.flat && g.role[q] == User(x.root, x.vpn) && PteAddr(g.flat[x]) == q then 1 else 0)
    + (if g.role[q] == Kernel then 1 else 0)
  }

  /** Page conservation: every page is in exactly one of these places. */
  lemma EachPageOnce(m: Mem, g: Book, q: nat)
    requires Inv(m, g, NoGap) && q in m
    ensures q in g.role && Uses(g, q) == 1
  {
    hide Branches, Leaves, Tables;
    match g.role[q]
    case User(root, vpn) => assert Slot(root, vpn) in g.flat;
    case _ =>
  }

  // ---------------------------------------------------------------------------
  // The primitive changes, and what each keeps
  // ---------------------------------------------------------------------------

  /** Replacing the contents of a page that is neither a table nor free, possibly with a new role
      that is not Node or OnFreeList. */
  lemma TreesKept(m: Mem, m': Mem, g: Book, g': Book, gap: Gap)
    requires Tables(m, g) && Branches(m, g, gap) && Leaves(m, g)
    requires g'.node == g.node && g'.flat == g.flat
    requires forall k | k in g.node :: g.node[k] in m' && m'[g.node[k]] == m[g.node[k]]
    ensures Tables(m', g') && Branches(m', g', gap) && Leaves(m', g')
  {
    forall k, j: nat | k in g.node && 0 < k.level && j < 512 && gap != Gap(k, j) ensures BranchOk(m', g', k, j) {
      assert BranchOk(m, g, k, j);
    }
    forall k, j: nat | k in g.node && k.level == 0 && j < 512 ensures LeafOk(m', g', k, j) {
      assert LeafOk(m, g, k, j);
    }
  }

  /** Changing the contents of a page that is neither a node nor a user page, and its role to
      another such role. */
  lemma RolesKept(m: Mem, g: Book, q: nat, p: Page, role: Role, free: seq<nat>)
    requires Roles(m, g) && q in g.role
    requires g.role[q] == OnFreeList || g.role[q] == Kernel
    requires role == OnFreeList || role == Kernel
    ensures Roles(m[q := p], g.(role := g.role[q := role], free := free))
  {
  }

  /** kalloc: the first page of the free list goes to the kernel. */
  function Taken(g: Book): Book
    requires g.free != []
  {
    g.(free := g.free[1..], role := g.role[g.free[0] := Kernel])
  }

  lemma FreeListTake(m: Mem, g: Book, p: Page)
    requires FreeList(m, g) && g.free != []
    ensures FreeList(m[g.free[0] := p], Taken(g))
    ensures m[g.free[0]] == Free(First(g.free[1..]))
  {
    var m', g' := m[g.free[0] := p], Taken(g);
    assert m[g.free[0]] == Free(Next(g.free, 0));
    TakenShape(g, g');
    forall i | 0 <= i < |g'.free| ensures g'.free[i] in m' && m'[g'.free[i]] == Free(Next(g'.free, i)) {
      assert g'.free[i] == g.free[i + 1] && g.free[i + 1] != g.free[0];
      assert m[g.free[i + 1]] == Free(Next(g.free, i + 1));
    }
  }

  /** The parts of FreeList that do not mention memory, after the first page is taken. */
  lemma TakenShape(g: Book, g': Book)
    requires g.free != [] && g' == Taken(g)
    requires forall i, j | 0 <= i < j < |g.free| :: g.free[i] != g.free[j]
    requires forall i | 0 <= i < |g.free| :: g.free[i] in g.role && g.role[g.free[i]] == OnFreeList
    requires forall q | q in g.role && g.role[q] == OnFreeList :: q in g.free
    ensures forall i, j | 0 <= i < j < |g'.free| :: g'.free[i] != g'.free[j]
    ensures forall i | 0 <= i < |g'.free| :: g'.free[i] in g'.role && g'.role[g'.free[i]] == OnFreeList
    ensures forall q | q in g'.role && g'.role[q] == OnFreeList :: q in g'.free
  {
    assert forall i | 0 <= i < |g'.free| :: g'.free[i] == g.free[i + 1];
    forall x | x in g'.role && g'.role[x] == OnFreeList ensures x in g'.free {
      var i :| 0 <= i < |g.free| && g.free[i] == x;
      assert g'.free[i - 1] == x;
    }
  }

  lemma TakeKeeps(m: Mem, g: Book, gap: Gap, p: Page)
    requires Inv(m, g, gap) && g.free != []
    ensures Inv(m[g.free[0] := p], Taken(g), gap)
    ensures m[g.free[0]] == Free(First(g.free[1..]))
  {
    FreeListTake(m, g, p);
    assert g.role[g.free[0]] == OnFreeList;
    RolesKept(m, g, g.free[0], p, Kernel, g.free[1..]);
    TreesKept(m, m[g.free[0] := p], g, Taken(g), gap);
    hide Roles, Tables, Branches, Leaves, FreeList;
  }

  /** kfree: a page held by the kernel goes to the front of the free list. */
  function Given(g: Book, q: nat): Book
  {
    g.(free := [q] + g.free, role := g.role[q := OnFreeList])
  }

  lemma FreeListGive(m: Mem, g: Book, q: nat)
    requires FreeList(m, g) && q in g.role && g.role[q] == Kernel
    ensures FreeList(m[q := Free(First(g.free))], Given(g, q))
  {
    var m', g' := m[q := Free(First(g.free))], Given(g, q);
    assert forall i | 0 < i < |g'.free| :: g'.free[i] == g.free[i - 1];
    forall i | 0 <= i < |g'.free| ensures g'.free[i] in m' && m'[g'.free[i]] == Free(Next(g'.free, i)) {
      if i > 0 {
        assert m[g.free[i - 1]] == Free(Next(g.free, i - 1));
      }
    }
  }

  lemma GiveKeeps(m: Mem, g: Book, gap: Gap, q: nat)
    requires Inv(m, g, gap) && q in g.role && g.role[q] == Kernel
    ensures Inv(m[q := Free(First(g.free))], Given(g, q), gap)
  {
    FreeListGive(m, g, q);
    RolesKept(m, g, q, Free(First(g.free)), OnFreeList, [q] + g.free);
    TreesKept(m, m[q := Free(First(g.free))], g, Given(g, q), gap);
    hide Roles, Tables, Branches, Leaves, FreeList;
  }

  /** Storing `x` in entry `j` of the table of `k`. */
  function PutPte(m: Mem, q: nat, j: nat, x: nat): Mem
    requires TableAt(m, q) && j < 512
  {
    m[q := Table(m[q].ptes[j := x])]
  }

  lemma FreeListKept(m: Mem, m': Mem, g: Book, g': Book)
    requires FreeList(m, g) && g'.free == g.free
    requires forall i | 0 <= i < |g.free| :: g.free[i] in m' && m'[g.free[i]] == m[g.free[i]]
    requires forall q | q in g'.role && g'.role[q] == OnFreeList :: q in g.role && g.role[q] == OnFreeList
    requires forall i | 0 <= i < |g.free| :: g.free[i] in g'.role && g'.role[g.free[i]] == OnFreeList
    ensures FreeList(m', g')
  {
  }

  // --- a leaf entry is set or cleared ---

  function Mapped(g: Book, x: Slot, pte: nat): Book { g.(flat := g.flat[x := pte]) }

  function Unmapped(g: Book, x: Slot): Book { g.(flat := g.flat - {x}) }

  function LeafKey(x: Slot): Key { Key(x.root, 0, x.vpn / 512) }

  /** What writing the leaf entry for `x` needs: no two nodes share a page. */
  ghost predicate CanWrite(m: Mem, g: Book, x: Slot)
  {
    && Tables(m, g) && LeafKey(x) in g.node
    && forall k, l | k in g.node && l in g.node && g.node[k] == g.node[l] :: k == l
  }

  lemma LeafWriteBranches(m: Mem, g: Book, g': Book, gap: Gap, x: Slot, pte: nat)
    requires CanWrite(m, g, x) && Branches(m, g, gap) && g'.node == g.node
    ensures var m' := PutPte(m, g.node[LeafKey(x)], x.vpn % 512, pte); Tables(m', g') && Branches(m', g', gap)
  {
    var m' := PutPte(m, g.node[LeafKey(x)], x.vpn % 512, pte);
    assert Tables(m', g');
    forall k, j: nat | k in g.node && 0 < k.level && j < 512 && gap != Gap(k, j) ensures BranchOk(m', g', k, j) {
      assert BranchOk(m, g, k, j);
    }
  }

  lemma LeafWriteLeaf(m: Mem, g: Book, g': Book, x: Slot, pte: nat, k: Key, j: nat)
    requires CanWrite(m, g, x) && k in g.node && k.level == 0 && j < 512 && LeafOk(m, g, k, j)
    requires g' == if PteValid(pte) then Mapped(g, x, pte) else Unmapped(g, x)
    ensures var m' := PutPte(m, g.node[LeafKey(x)], x.vpn % 512, pte);
            TableAt(m', g'.node[k]) && LeafOk(m', g', k, j)
  {
    assert Slot(k.root, k.prefix * 512 + j) == x <==> k == LeafKey(x) && j == x.vpn % 512;
  }

  /** The leaf entry for `x` is set or cleared. */
  lemma LeafWrite(m: Mem, g: Book, g': Book, gap: Gap, x: Slot, pte: nat)
    requires CanWrite(m, g, x) && Branches(m, g, gap) && Leaves(m, g)
    requires g' == if PteValid(pte) then Mapped(g, x, pte) else Unmapped(g, x)
    requires PteValid(pte) ==> x.vpn < MAXVPN
    ensures var m' := PutPte(m, g.node[LeafKey(x)], x.vpn % 512, pte);
            Tables(m', g') && Branches(m', g', gap) && Leaves(m', g')
  {
    var m' := PutPte(m, g.node[LeafKey(x)], x.vpn % 512, pte);
    assert Tables(m', g') && Branches(m', g', gap) by {
      hide Leaves, CanWrite, Tables, Branches;
      LeafWriteBranches(m, g, g', gap, x, pte);
    }
    hide Branches, LeafOk, BranchOk;
    forall k, j: nat | k in g.node && k.level == 0 && j < 512 ensures LeafOk(m', g', k, j) {
      assert LeafOk(m, g, k, j);
      LeafWriteLeaf(m, g, g', x, pte, k, j);
    }
  }

  lemma NodesApart(m: Mem, g: Book)
    requires Roles(m, g)
    ensures forall k, l | k in g.node && l in g.node && g.node[k] == g.node[l] :: k == l
  {
  }

  lemma RolesFlat(m: Mem, m': Mem, g: Book, g': Book)
    requires Roles(m, g) && m'.Keys == m.Keys && g' == g.(flat := g'.flat)
    requires forall q | q in g.role && g.role[q].User? ::
               var x := Slot(g.role[q].root, g.role[q].vpn); x in g'.flat && x in g.flat && g'.flat[x] == g.flat[x]
    ensures Roles(m', g')
  {
  }

  lemma FreeListNodeWrite(m: Mem, m': Mem, g: Book, g': Book, k: Key)
    requires FreeList(m, g) && Roles(m, g) && k in g.node
    requires g'.free == g.free && g'.role == g.role
    requires m'.Keys == m.Keys && forall q | q in m && q != g.node[k] :: m'[q] == m[q]
    ensures FreeList(m', g')
  {
    assert g.role[g.node[k]] == Node(k);
  }

  /** mappages writes an entry that was not valid. */
  lemma MapKeeps(m: Mem, g: Book, gap: Gap, x: Slot, pte: nat)
    requires Inv(m, g, gap) && LeafKey(x) in g.node && x !in g.flat && PteValid(pte) && x.vpn < MAXVPN
    ensures Inv(PutPte(m, g.node[LeafKey(x)], x.vpn % 512, pte), Mapped(g, x, pte), gap)
  {
    hide Branches, Leaves, FreeList;
    var m', g' := PutPte(m, g.node[LeafKey(x)], x.vpn % 512, pte), Mapped(g, x, pte);
    assert Tables(m', g') && Branches(m', g', gap) && Leaves(m', g') by {
      assert CanWrite(m, g, x) by { NodesApart(m, g); }
      hide Roles, Tables, CanWrite;
      LeafWrite(m, g, g', gap, x, pte);
    }
    assert FreeList(m', g') by {
      FreeListNodeWrite(m, m', g, g', LeafKey(x));
    }
    assert Roles(m', g') by {
      RolesFlat(m, m', g, g');
    }
  }

  /** uvmunmap clears an entry once the page it maps is no longer owned by it. */
  lemma UnmapKeeps(m: Mem, g: Book, gap: Gap, x: Slot)
    requires Inv(m, g, gap) && LeafKey(x) in g.node
    requires forall q | q in g.role :: g.role[q] != User(x.root, x.vpn)
    ensures Inv(PutPte(m, g.node[LeafKey(x)], x.vpn % 512, 0), Unmapped(g, x), gap)
  {
    hide Branches, Leaves, FreeList;
    var m', g' := PutPte(m, g.node[LeafKey(x)], x.vpn % 512, 0), Unmapped(g, x);
    assert Tables(m', g') && Branches(m', g', gap) && Leaves(m', g') by {
      assert CanWrite(m, g, x) by { NodesApart(m, g); }
      hide Roles, Tables, CanWrite;
      LeafWrite(m, g, g', gap, x, 0);
    }
    assert FreeList(m', g') by {
      FreeListNodeWrite(m, m', g, g', LeafKey(x));
    }
    assert Roles(m', g') by {
      RolesFlat(m, m', g, g');
    }
  }

  // --- a page-table page is added ---

  function EmptyTable(): Page { Table(seq(512, _ => 0)) }

  function Grown(g: Book, k: Key, j: nat, q: nat): Book
  {
    g.(node := g.node[Child(k, j) := q], role := g.role[q := Node(Child(k, j))])
  }

  function GrownMem(m: Mem, g: Book, k: Key, j: nat, q: nat): Mem
    requires k in g.node && TableAt(m, g.node[k]) && j < 512
  {
    PutPte(m, g.node[k], j, MkPte(q, PTE_V))[q := EmptyTable()]
  }

  /** A child's prefix is its parent's with the index added. */
  lemma ChildUp(k: Key, j: nat)
    requires j < 512
    ensures Child(k, j).prefix / 512 == k.prefix && Child(k, j).prefix % 512 == j
  {
  }

  lemma ChildApart(k: Key, j: nat, l: Key, i: nat)
    requires 0 < k.level && 0 < l.level && j < 512 && i < 512
    ensures Child(k, j) == Child(l, i) <==> k == l && j == i
  {
  }

  /** `q` can become the table below entry `j` of `k`. */
  ghost predicate CanGrow(m: Mem, g: Book, k: Key, j: nat, q: nat)
  {
    && Tables(m, g)
    && (forall k, l | k in g.node && l in g.node && g.node[k] == g.node[l] :: k == l)
    && k in g.node && 0 < k.level && j < 512 && Child(k, j) !in g.node
    && q in m && GoodPage(q) && forall l | l in g.node :: g.node[l] != q
  }

  lemma GrowBranch(m: Mem, g: Book, k: Key, j: nat, q: nat, l: Key, i: nat)
    requires CanGrow(m, g, k, j, q)
    requires l in g.node && 0 < l.level && i < 512 && (l != k || i != j) && BranchOk(m, g, l, i)
    ensures var m', g' := GrownMem(m, g, k, j, q), Grown(g, k, j, q);
            TableAt(m', g'.node[l]) && BranchOk(m', g', l, i)
  {
    ChildApart(k, j, l, i);
    assert g.node[l] != q;
  }

  lemma GrowOwnBranch(m: Mem, g: Book, k: Key, j: nat, q: nat)
    requires CanGrow(m, g, k, j, q)
    ensures var m', g' := GrownMem(m, g, k, j, q), Grown(g, k, j, q);
            TableAt(m', g'.node[k]) && BranchOk(m', g', k, j)
  {
    PteRoundTrip(q, PTE_V);
    assert g.node[k] != q;
  }

  lemma GrowTables(m: Mem, g: Book, k: Key, j: nat, q: nat)
    requires CanGrow(m, g, k, j, q)
    ensures Tables(GrownMem(m, g, k, j, q), Grown(g, k, j, q))
  {
  }

  lemma GrowNewBranch(m: Mem, g: Book, k: Key, j: nat, q: nat, i: nat)
    requires CanGrow(m, g, k, j, q) && i < 512
    requires forall k | k in g.node && k.level < 2 :: Key(k.root, k.level + 1, k.prefix / 512) in g.node
    requires 0 < Child(k, j).level
    ensures var m', g', c := GrownMem(m, g, k, j, q), Grown(g, k, j, q), Child(k, j);
            TableAt(m', g'.node[c]) && BranchOk(m', g', c, i)
  {
    var c := Child(k, j);
    ChildUp(c, i);
    assert Key(Child(c, i).root, Child(c, i).level + 1, Child(c, i).prefix / 512) == c;
    assert Child(c, i) !in g.node;
  }

  lemma GrowParents(m: Mem, g: Book, gap: Gap, k: Key, j: nat, q: nat, l: Key)
    requires CanGrow(m, g, k, j, q) && Branches(m, g, gap) && l in Grown(g, k, j, q).node && l.level < 2
    ensures Key(l.root, l.level + 1, l.prefix / 512) in Grown(g, k, j, q).node
  {
    hide BranchOk;
    ChildUp(k, j);
    if l == Child(k, j) {
      assert k == Key(l.root, l.level + 1, l.prefix / 512);
    }
  }

  lemma GrowEach(m: Mem, g: Book, gap: Gap, k: Key, j: nat, q: nat, l: Key, i: nat)
    requires CanGrow(m, g, k, j, q) && Branches(m, g, gap)
    requires l in Grown(g, k, j, q).node && 0 < l.level && i < 512 && gap != Gap(l, i)
    ensures var m', g' := GrownMem(m, g, k, j, q), Grown(g, k, j, q);
            TableAt(m', g'.node[l]) && BranchOk(m', g', l, i)
  {
    GrowTables(m, g, k, j, q);
    hide BranchOk;
    if l == Child(k, j) {
      GrowNewBranch(m, g, k, j, q, i);
    } else if l == k && i == j {
      GrowOwnBranch(m, g, k, j, q);
    } else {
      assert BranchOk(m, g, l, i);
      GrowBranch(m, g, k, j, q, l, i);
    }
  }

  lemma GrowBranches(m: Mem, g: Book, gap: Gap, k: Key, j: nat, q: nat)
    requires CanGrow(m, g, k, j, q) && Branches(m, g, gap)
    ensures var m', g' := GrownMem(m, g, k, j, q), Grown(g, k, j, q);
            Tables(m', g') && Branches(m', g', gap)
  {
    hide BranchOk;
    var m', g' := GrownMem(m, g, k, j, q), Grown(g, k, j, q);
    GrowTables(m, g, k, j, q);
    forall l, i: nat | l in g'.node && 0 < l.level && i < 512 && gap != Gap(l, i) ensures BranchOk(m', g', l, i) {
      GrowEach(m, g, gap, k, j, q, l, i);
    }
    forall l | l in g'.node && l.level < 2 ensures Key(l.root, l.level + 1, l.prefix / 512) in g'.node {
      GrowParents(m, g, gap, k, j, q, l);
    }
    hide CanGrow, Tables, Grown, GrownMem;
  }

  lemma GrowLeaves(m: Mem, g: Book, k: Key, j: nat, q: nat)
    requires CanGrow(m, g, k, j, q) && Leaves(m, g)
    ensures var m', g' := GrownMem(m, g, k, j, q), Grown(g, k, j, q);
            Tables(m', g') && Leaves(m', g')
  {
    var m', g', c := GrownMem(m, g, k, j, q), Grown(g, k, j, q), Child(k, j);
    GrowTables(m, g, k, j, q);
    forall l, i: nat | l in g'.node && l.level == 0 && i < 512 ensures LeafOk(m', g', l, i) {
      if l == c {
        assert LeafKey(Slot(c.root, c.prefix * 512 + i)) == c;
      } else {
        assert LeafOk(m, g, l, i);
      }
    }
  }

  lemma GrowRoles(m: Mem, g: Book, k: Key, j: nat, q: nat)
    requires Roles(m, g) && CanGrow(m, g, k, j, q) && q in g.role && g.role[q] == Kernel
    ensures Roles(GrownMem(m, g, k, j, q), Grown(g, k, j, q))
  {
  }

  /** walk with alloc: a page from kalloc becomes the missing table. */
  lemma GrowKeeps(m: Mem, g: Book, gap: Gap, k: Key, j: nat, q: nat)
    requires Inv(m, g, gap) && q in g.role && g.role[q] == Kernel
    requires k in g.node && 0 < k.level && j < 512 && Child(k, j) !in g.node
    ensures Inv(GrownMem(m, g, k, j, q), Grown(g, k, j, q), gap)
  {
    hide Branches, Leaves, FreeList;
    var m', g' := GrownMem(m, g, k, j, q), Grown(g, k, j, q);
    assert CanGrow(m, g, k, j, q) by {
      NodesApart(m, g);
      assert GoodPage(q);
      forall l | l in g.node ensures g.node[l] != q {
        assert g.role[g.node[l]] == Node(l);
      }
    }
    assert Roles(m', g') by { GrowRoles(m, g, k, j, q); }
    assert FreeList(m', g') by { GrowFreeList(m, g, k, j, q); }
    hide Roles, Tables, CanGrow;
    GrowBranches(m, g, gap, k, j, q);
    GrowLeaves(m, g, k, j, q);
  }

  lemma GrowFreeList(m: Mem, g: Book, k: Key, j: nat, q: nat)
    requires FreeList(m, g) && Roles(m, g) && k in g.node && TableAt(m, g.node[k]) && j < 512
    requires q in g.role && g.role[q] == Kernel
    ensures FreeList(GrownMem(m, g, k, j, q), Grown(g, k, j, q))
  {
    assert g.role[g.node[k]] == Node(k);
    FreeListKept(m, GrownMem(m, g, k, j, q), g, Grown(g, k, j, q));
  }

  // --- a new tree ---

  function Rooted(g: Book, q: nat): Book
  {
    g.(node := g.node[Key(q, 2, 0) := q], role := g.role[q := Node(Key(q, 2, 0))])
  }

  ghost predicate CanRoot(m: Mem, g: Book, q: nat)
  {
    Tables(m, g) && q in m && Key(q, 2, 0) !in g.node && forall k | k in g.node :: g.node[k] != q
  }

  lemma RootBranch(m: Mem, g: Book, q: nat, l: Key, i: nat)
    requires CanRoot(m, g, q) && l in g.node && 0 < l.level && i < 512 && BranchOk(m, g, l, i)
    ensures var m', g' := m[q := EmptyTable()], Rooted(g, q); TableAt(m', g'.node[l]) && BranchOk(m', g', l, i)
  {
    assert l.level <= 2 && Child(l, i) != Key(q, 2, 0);
  }

  lemma RootOwnBranch(m: Mem, g: Book, q: nat, i: nat)
    requires CanRoot(m, g, q) && i < 512
    requires forall k | k in g.node && k.level < 2 :: Key(k.root, k.level + 1, k.prefix / 512) in g.node
    ensures var m', g', r := m[q := EmptyTable()], Rooted(g, q), Key(q, 2, 0);
            TableAt(m', g'.node[r]) && BranchOk(m', g', r, i)
  {
    var c := Child(Key(q, 2, 0), i);
    ChildUp(Key(q, 2, 0), i);
    assert Key(c.root, c.level + 1, c.prefix / 512) == Key(q, 2, 0);
    assert c !in g.node;
  }

  lemma RootTables(m: Mem, g: Book, q: nat)
    requires CanRoot(m, g, q)
    ensures Tables(m[q := EmptyTable()], Rooted(g, q))
  {
  }

  lemma RootBranches(m: Mem, g: Book, q: nat)
    requires CanRoot(m, g, q) && Branches(m, g, NoGap)
    ensures var m', g' := m[q := EmptyTable()], Rooted(g, q); Tables(m', g') && Branches(m', g', NoGap)
  {
    hide BranchOk;
    var m', g', r := m[q := EmptyTable()], Rooted(g, q), Key(q, 2, 0);
    RootTables(m, g, q);
    forall l, i: nat | l in g'.node && 0 < l.level && i < 512 ensures BranchOk(m', g', l, i) {
      if l == r {
        RootOwnBranch(m, g, q, i);
      } else {
        assert BranchOk(m, g, l, i);
        RootBranch(m, g, q, l, i);
      }
    }
    forall k | k in g'.node && k.level < 2 ensures Key(k.root, k.level + 1, k.prefix / 512) in g'.node {
      assert k in g.node;
    }
    hide CanRoot, Tables;
  }

  lemma RootLeaves(m: Mem, g: Book, q: nat)
    requires CanRoot(m, g, q) && Leaves(m, g)
    ensures var m', g' := m[q := EmptyTable()], Rooted(g, q); Tables(m', g') && Leaves(m', g')
  {
    var m', g' := m[q := EmptyTable()], Rooted(g, q);
    RootTables(m, g, q);
    forall l, i: nat | l in g'.node && l.level == 0 && i < 512 ensures LeafOk(m', g', l, i) {
      assert LeafOk(m, g, l, i);
    }
  }

  lemma RootRoles(m: Mem, g: Book, q: nat)
    requires Roles(m, g) && q in g.role && g.role[q] == Kernel && Key(q, 2, 0) !in g.node
    ensures Roles(m[q := EmptyTable()], Rooted(g, q))
  {
  }

  lemma RootFreeList(m: Mem, g: Book, q: nat)
    requires FreeList(m, g) && q in g.role && g.role[q] == Kernel
    ensures FreeList(m[q := EmptyTable()], Rooted(g, q))
  {
  }

  /** uvmcreate: a zeroed page from kalloc is the root of an empty tree. */
  lemma RootKeeps(m: Mem, g: Book, q: nat)
    requires Inv(m, g, NoGap) && q in g.role && g.role[q] == Kernel
    ensures Inv(m[q := EmptyTable()], Rooted(g, q), NoGap)
  {
    hide Branches, Leaves, FreeList;
    assert CanRoot(m, g, q) by {
      assert forall k | k in g.node :: g.role[g.node[k]] == Node(k);
    }
    assert Roles(m[q := EmptyTable()], Rooted(g, q)) by { RootRoles(m, g, q); }
    assert FreeList(m[q := EmptyTable()], Rooted(g, q)) by { RootFreeList(m, g, q); }
    hide Roles, Tables, CanRoot;
    RootBranches(m, g, q);
    RootLeaves(m, g, q);
  }

  // --- a page changes hands between the kernel and a user mapping, or its bytes change ---

  function WithRole(g: Book, q: nat, r: Role): Book { g.(role := g.role[q := r]) }

  lemma OwnRoles(m: Mem, g: Book, q: nat, r: Role)
    requires Roles(m, g) && q in g.role && (g.role[q] == Kernel || g.role[q].User?)
    requires r == Kernel || (r.User? && Slot(r.root, r.vpn) in g.flat && PteAddr(g.flat[Slot(r.root, r.vpn)]) == q)
    ensures Roles(m, WithRole(g, q, r))
  {
  }

  lemma OwnKeeps(m: Mem, g: Book, gap: Gap, q: nat, r: Role)
    requires Inv(m, g, gap) && q in g.role && (g.role[q] == Kernel || g.role[q].User?)
    requires r == Kernel || (r.User? && Slot(r.root, r.vpn) in g.flat && PteAddr(g.flat[Slot(r.root, r.vpn)]) == q)
    ensures Inv(m, WithRole(g, q, r), gap)
  {
    hide Branches, Leaves, Tables, FreeList;
    assert Roles(m, WithRole(g, q, r)) by { OwnRoles(m, g, q, r); }
    assert FreeList(m, WithRole(g, q, r)) by { OwnFreeList(m, g, q, r); }
    hide Roles;
    TreesKept(m, m, g, WithRole(g, q, r), gap) by { TablesIn(m, g); }
  }

  lemma TablesIn(m: Mem, g: Book)
    requires Tables(m, g)
    ensures forall k | k in g.node :: g.node[k] in m
  {
  }

  lemma OwnFreeList(m: Mem, g: Book, q: nat, r: Role)
    requires FreeList(m, g) && q in g.role && g.role[q] != OnFreeList && r != OnFreeList
    ensures FreeList(m, WithRole(g, q, r))
  {
  }

  /** Writing the bytes of a page that is not a table and not free. */
  lemma DataKeeps(m: Mem, g: Book, gap: Gap, q: nat, p: Page)
    requires Inv(m, g, gap) && q in g.role && (g.role[q] == Kernel || g.role[q].User?)
    ensures Inv(m[q := p], g, gap)
  {
    hide Branches, Leaves;
    var m' := m[q := p];
    assert Roles(m', g) by { hide Tables, FreeList; }
    assert FreeList(m', g) by { hide Tables, Roles; FreeListKept(m, m', g, g); }
    assert forall k | k in g.node :: g.node[k] in m' && m'[g.node[k]] == m[g.node[k]] by {
      TablesIn(m, g);
      hide Tables, FreeList;
      assert forall k | k in g.node :: g.role[g.node[k]] == Node(k);
    }
    hide Roles, Tables, FreeList;
    TreesKept(m, m', g, g, gap);
  }

  // --- a page-table page is removed ---

  /** The entry that points to the table of `k`; the root has none. */
  function GapOf(k: Key): Gap
  {
    if k.level == 2 then NoGap else Gap(Key(k.root, k.level + 1, k.prefix / 512), k.prefix % 512)
  }

  function Dropped(g: Book, k: Key): Book
    requires k in g.node
  {
    g.(node := g.node - {k}, role := g.role[g.node[k] := Kernel])
  }

  /** No table hangs below `k` and no page is mapped by it. */
  ghost predicate Bare(g: Book, k: Key)
  {
    && (forall l | l in g.node && l.level < 2 :: Key(l.root, l.level + 1, l.prefix / 512) != k)
    && (forall x | x in g.flat :: LeafKey(x) != k)
  }

  lemma DropTrees(m: Mem, g: Book, k: Key)
    requires Tables(m, g) && Branches(m, g, NoGap) && Leaves(m, g) && k in g.node && Bare(g, k) && k.level <= 2
    ensures var g' := Dropped(g, k); Tables(m, g') && Branches(m, g', GapOf(k)) && Leaves(m, g')
  {
    var g' := Dropped(g, k);
    assert Tables(m, g');
    forall l, i: nat | l in g'.node && 0 < l.level && i < 512 && GapOf(k) != Gap(l, i) ensures BranchOk(m, g', l, i) {
      assert BranchOk(m, g, l, i);
      ChildUp(l, i);
      assert Child(l, i) == k ==> GapOf(k) == Gap(l, i);
    }
    forall l, i: nat | l in g'.node && l.level == 0 && i < 512 ensures LeafOk(m, g', l, i) {
      assert LeafOk(m, g, l, i);
    }
  }

  /** freewalk is about to free the table of `k`, all of whose entries are gone. */
  lemma DropKeeps(m: Mem, g: Book, k: Key)
    requires Inv(m, g, NoGap) && k in g.node && Bare(g, k)
    ensures Inv(m, Dropped(g, k), GapOf(k))
  {
    hide Branches, Leaves, FreeList;
    assert k.level <= 2;
    assert Roles(m, Dropped(g, k)) by { hide Tables, Bare; NodesApart(m, g); }
    assert FreeList(m, Dropped(g, k)) by {
      assert g.role[g.node[k]] == Node(k);
      DropFreeList(m, g, k);
    }
    hide Roles, Tables, Bare;
    DropTrees(m, g, k);
  }

  lemma DropFreeList(m: Mem, g: Book, k: Key)
    requires FreeList(m, g) && k in g.node && g.node[k] in g.role && g.role[g.node[k]].Node?
    ensures FreeList(m, Dropped(g, k))
  {
  }

  /** freewalk clears the entry after the table below it is gone. */
  lemma CloseGapKeeps(m: Mem, g: Book, k: Key, j: nat)
    requires Inv(m, g, Gap(k, j)) && k in g.node && 0 < k.level && j < 512 && Child(k, j) !in g.node
    ensures Inv(PutPte(m, g.node[k], j, 0), g, NoGap)
  {
    hide Leaves, FreeList;
    var m' := PutPte(m, g.node[k], j, 0);
    assert FreeList(m', g) by { hide Branches; FreeListNodeWrite(m, m', g, g, k); }
    assert Roles(m', g) by { hide Branches, Tables; RolesFlat(m, m', g, g); }
    NodesApart(m, g);
    hide Roles;
    CloseGapTrees(m, g, k, j);
  }

  lemma CloseGapTrees(m: Mem, g: Book, k: Key, j: nat)
    requires Tables(m, g) && Branches(m, g, Gap(k, j)) && Leaves(m, g)
    requires forall k, l | k in g.node && l in g.node && g.node[k] == g.node[l] :: k == l
    requires k in g.node && 0 < k.level && j < 512 && Child(k, j) !in g.node
    ensures var m' := PutPte(m, g.node[k], j, 0); Tables(m', g) && Branches(m', g, NoGap) && Leaves(m', g)
  {
    var m' := PutPte(m, g.node[k], j, 0);
    forall l, i: nat | l in g.node && 0 < l.level && i < 512 ensures BranchOk(m', g, l, i) {
      if l != k || i != j {
        assert BranchOk(m, g, l, i);
      }
    }
    forall l, i: nat | l in g.node && l.level == 0 && i < 512 ensures LeafOk(m', g, l, i) {
      assert LeafOk(m, g, l, i);
    }
  }
}
