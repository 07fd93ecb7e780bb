/** copyout, copyin and copyinstr of kernel/vm.c: bytes between the kernel and a user address space,
    page by page.  What copyout does is stated as storing the bytes one by one through the page table,
    which also covers pages that are mapped more than once. */
module UserCopy {
  import opened Common
  import opened Bytes
  import opened PageTable
  import opened Vm

  predicate DataPage(m: Mem, q: nat) { q in m && m[q].Data? && |m[q].bytes| == PGSIZE }

  /** Every page the user may access is a data page, its own or one the kernel holds (a shared page). */
  ghost predicate UserOk(m: Mem, g: Book, root: nat)
  {
    forall v: nat | UserPage(g.flat, root, v) != 0 :: UserOwned(m, g, root, v)
  }

  ghost predicate UserOwned(m: Mem, g: Book, root: nat, v: nat)
  {
    var q := UserPage(g.flat, root, v);
    DataPage(m, q) && q in g.role && (g.role[q] == User(root, v) || g.role[q] == Kernel)
  }

  /** A byte of physical memory. */
  datatype Loc = Loc(page: nat, off: nat)

  /** Where the page table puts `va`. */
  function LocOf(flat: map<Slot, nat>, root: nat, va: nat): Loc { Loc(UserPage(flat, root, va / PGSIZE), va % PGSIZE) }

  function ByteAt(m: Mem, l: Loc): byte
  {
    if DataPage(m, l.page) && l.off < PGSIZE then m[l.page].bytes[l.off] else 0
  }

  function StoreByte(m: Mem, l: Loc, b: byte): Mem
  {
    if DataPage(m, l.page) && l.off < PGSIZE then m[l.page := Data(m[l.page].bytes[l.off := b])] else m
  }

  /** The bytes of `s` stored one after the other from `va` on. */
  function Stored(m: Mem, flat: map<Slot, nat>, root: nat, va: nat, s: seq<byte>): Mem
    decreases |s|
  {
    if s == [] then m
    else
      var n := |s| - 1;
      StoreByte(Stored(m, flat, root, va, s[..n]), LocOf(flat, root, va + n), s[n])
  }

  /** The user sees `s` at `va`. */
  ghost predicate Holds(m: Mem, g: Book, root: nat, va: nat, s: seq<byte>)
  {
    forall i | 0 <= i < |s| :: Sees(m, g, root, va + i, s[i])
  }

  predicate Sees(m: Mem, g: Book, root: nat, va: nat, b: byte)
  {
    Accessible(g, root, va) && ByteAt(m, LocOf(g.flat, root, va)) == b
  }

  predicate Accessible(g: Book, root: nat, va: nat) { UserPage(g.flat, root, va / PGSIZE) != 0 }

  /** What the user sees is unique. */
  lemma HoldsOnce(m: Mem, g: Book, root: nat, va: nat, s: seq<byte>, t: seq<byte>)
    requires Holds(m, g, root, va, s) && Holds(m, g, root, va, t) && |s| == |t|
    ensures s == t
  {
    forall i | 0 <= i < |s| ensures s[i] == t[i] {
      assert Sees(m, g, root, va + i, s[i]) && Sees(m, g, root, va + i, t[i]);
    }
  }

  // ---------------------------------------------------------------------------
  // What the user sees after a store
  // ---------------------------------------------------------------------------

  lemma StoreByteAt(m: Mem, l: Loc, b: byte, x: Loc)
    ensures DataPage(StoreByte(m, l, b), x.page) <==> DataPage(m, x.page)
    ensures DataPage(m, x.page) && x.off < PGSIZE ==>
              ByteAt(StoreByte(m, l, b), x) == if x == l then b else ByteAt(m, x)
  {
  }

  /** The last byte of `s` that goes to `x`. */
  function Last(flat: map<Slot, nat>, root: nat, va: nat, s: seq<byte>, x: Loc): Option<byte>
    decreases |s|
  {
    if s == [] then None
    else
      var n := |s| - 1;
      if LocOf(flat, root, va + n) == x then Some(s[n]) else Last(flat, root, va, s[..n], x)
  }

  /** Every byte of memory is the last one stored there, or what it was; data pages stay data pages. */
  lemma {:induction false} StoredByte(m: Mem, flat: map<Slot, nat>, root: nat, va: nat, s: seq<byte>, x: Loc)
    ensures DataPage(Stored(m, flat, root, va, s), x.page) <==> DataPage(m, x.page)
    ensures DataPage(m, x.page) && x.off < PGSIZE ==>
              ByteAt(Stored(m, flat, root, va, s), x)
              == match Last(flat, root, va, s, x) case Some(b) => b case None => ByteAt(m, x)
    decreases |s|
  {
    hide StoreByte, ByteAt, DataPage, LocOf;
    if s != [] {
      var n := |s| - 1;
      StoredByte(m, flat, root, va, s[..n], x);
      StoreByteAt(Stored(m, flat, root, va, s[..n]), LocOf(flat, root, va + n), s[n], x);
    }
  }

  lemma {:induction false} LastAt(flat: map<Slot, nat>, root: nat, va: nat, s: seq<byte>, i: nat) returns (j: nat)
    requires i < |s|
    ensures i <= j < |s| && LocOf(flat, root, va + j) == LocOf(flat, root, va + i)
    ensures Last(flat, root, va, s, LocOf(flat, root, va + i)) == Some(s[j])
    decreases |s|
  {
    hide LocOf;
    var n := |s| - 1;
    if LocOf(flat, root, va + n) == LocOf(flat, root, va + i) {
      j := n;
    } else {
      j := LastAt(flat, root, va, s[..n], i);
    }
  }

  /** Bytes of `s` that go to the same place are the same. */
  ghost predicate Consistent(flat: map<Slot, nat>, root: nat, va: nat, s: seq<byte>)
  {
    forall i, j | 0 <= i < j < |s| :: Agree(flat, root, va + i, va + j, s[i], s[j])
  }

  predicate Agree(flat: map<Slot, nat>, root: nat, u: nat, v: nat, b: byte, c: byte)
  {
    LocOf(flat, root, u) == LocOf(flat, root, v) ==> b == c
  }

  /** After the bytes are stored the user sees them, exactly if no two different ones go to the same
      place, as they would through two mappings of one page. */
  lemma StoredHoldsIff(m: Mem, g: Book, root: nat, va: nat, s: seq<byte>)
    requires UserOk(m, g, root) && forall u | va <= u < va + |s| :: Accessible(g, root, u)
    ensures Holds(Stored(m, g.flat, root, va, s), g, root, va, s) <==> Consistent(g.flat, root, va, s)
  {
    var m' := Stored(m, g.flat, root, va, s);
    hide Stored, ByteAt;
    if Consistent(g.flat, root, va, s) {
      forall i | 0 <= i < |s| ensures Sees(m', g, root, va + i, s[i]) {
        assert Accessible(g, root, va + i) && UserOwned(m, g, root, (va + i) / PGSIZE);
        var j := LastAt(g.flat, root, va, s, i);
        StoredByte(m, g.flat, root, va, s, LocOf(g.flat, root, va + i));
        assert i < j ==> Agree(g.flat, root, va + i, va + j, s[i], s[j]);
      }
    }
    if Holds(m', g, root, va, s) {
      forall i, j | 0 <= i < j < |s| ensures Agree(g.flat, root, va + i, va + j, s[i], s[j]) {
        assert Sees(m', g, root, va + i, s[i]) && Sees(m', g, root, va + j, s[j]);
      }
    }
  }

  /** The user's own pages are mapped once. */
  lemma OwnConsistent(m: Mem, g: Book, root: nat, va: nat, s: seq<byte>)
    requires UserOk(m, g, root)
    requires forall u | va <= u < va + |s| ::
               var q := UserPage(g.flat, root, u / PGSIZE); q != 0 && (q in g.role ==> g.role[q] != Kernel)
    ensures Consistent(g.flat, root, va, s)
  {
    forall i, j | 0 <= i < j < |s| ensures Agree(g.flat, root, va + i, va + j, s[i], s[j]) {
      assert UserOwned(m, g, root, (va + i) / PGSIZE) && UserOwned(m, g, root, (va + j) / PGSIZE);
      Apart(va + i, va + j);
    }
  }

  /** A page mapped twice in a row, as two calls of get_shmem_access do, cannot hold a copy of more
      than a page that does not repeat itself. */
  lemma TwiceMapped(flat: map<Slot, nat>, root: nat, v: nat, s: seq<byte>)
    requires UserPage(flat, root, v) == UserPage(flat, root, v + 1) && |s| > PGSIZE && s[0] != s[PGSIZE]
    ensures !Consistent(flat, root, v * PGSIZE, s)
  {
    assert !Agree(flat, root, v * PGSIZE + 0, v * PGSIZE + PGSIZE, s[0], s[PGSIZE]);
  }

  lemma Apart(u: nat, v: nat)
    requires u < v
    ensures u / PGSIZE != v / PGSIZE || u % PGSIZE != v % PGSIZE
  {
  }

  // ---------------------------------------------------------------------------
  // Copying page by page
  // ---------------------------------------------------------------------------

  /** memmove of `s` to offset `off` of page `q`. */
  function Splice(m: Mem, q: nat, off: nat, s: seq<byte>): Mem
    requires DataPage(m, q) && off + |s| <= PGSIZE
  {
    m[q := Data(m[q].bytes[..off] + s + m[q].bytes[off + |s|..])]
  }

  lemma SpliceMore(m: Mem, q: nat, off: nat, s: seq<byte>, b: byte)
    requires DataPage(m, q) && off + |s| < PGSIZE
    ensures StoreByte(Splice(m, q, off, s), Loc(q, off + |s|), b) == Splice(m, q, off, s + [b])
  {
    var d := m[q].bytes;
    assert (d[..off] + s + d[off + |s|..])[off + |s| := b] == d[..off] + (s + [b]) + d[off + |s| + 1..];
  }

  lemma InPage(va: nat, n: nat)
    requires va % PGSIZE + n < PGSIZE
    ensures (va + n) / PGSIZE == va / PGSIZE && (va + n) % PGSIZE == va % PGSIZE + n
  {
  }

  /** Within a page, memmove is storing the bytes one by one. */
  lemma {:induction false} StoredInPage(m: Mem, flat: map<Slot, nat>, root: nat, va: nat, t: seq<byte>)
    requires DataPage(m, UserPage(flat, root, va / PGSIZE)) && va % PGSIZE + |t| <= PGSIZE
    ensures Stored(m, flat, root, va, t) == Splice(m, UserPage(flat, root, va / PGSIZE), va % PGSIZE, t)
    decreases |t|
  {
    var q, off := UserPage(flat, root, va / PGSIZE), va % PGSIZE;
    if t == [] {
      assert m[q].bytes[..off] + [] + m[q].bytes[off..] == m[q].bytes;
    } else {
      var n := |t| - 1;
      StoredInPage(m, flat, root, va, t[..n]);
      InPage(va, n);
      SpliceMore(m, q, off, t[..n], t[n]);
      assert t[..n] + [t[n]] == t;
      hide Splice, StoreByte, UserPage;
    }
  }

  lemma {:induction false} StoredMore(m: Mem, flat: map<Slot, nat>, root: nat, va: nat, s: seq<byte>, t: seq<byte>)
    ensures Stored(m, flat, root, va, s + t) == Stored(Stored(m, flat, root, va, s), flat, root, va + |s|, t)
    decreases |t|
  {
    hide StoreByte, LocOf;
    if t == [] {
      assert s + t == s;
    } else {
      var n := |t| - 1;
      StoredMore(m, flat, root, va, s, t[..n]);
      assert (s + t)[..|s + t| - 1] == s + t[..n];
    }
  }

  lemma SpliceKeeps(m: Mem, g: Book, q: nat, off: nat, s: seq<byte>, root: nat)
    requires UserOk(m, g, root) && DataPage(m, q) && off + |s| <= PGSIZE
    ensures UserOk(Splice(m, q, off, s), g, root)
  {
    forall v: nat | UserPage(g.flat, root, v) != 0 ensures UserOwned(Splice(m, q, off, s), g, root, v) {
      assert UserOwned(m, g, root, v);
    }
  }

  lemma SpliceInv(m: Mem, g: Book, q: nat, off: nat, s: seq<byte>)
    requires Inv(m, g, NoGap) && DataPage(m, q) && off + |s| <= PGSIZE
    requires q in g.role && (g.role[q] == Kernel || g.role[q].User?)
    ensures Inv(Splice(m, q, off, s), g, NoGap)
  {
    DataKeeps(m, g, NoGap, q, Splice(m, q, off, s)[q]);
    hide Inv;
  }

  /** What one turn of copyout does, after the bytes of `s`. */
  lemma {:induction false} CopyTurn(m0: Mem, m: Mem, flat: map<Slot, nat>, root: nat, va: nat, s: seq<byte>, t: seq<byte>)
    requires m == Stored(m0, flat, root, va, s) && (va + |s|) % PGSIZE + |t| <= PGSIZE
    requires DataPage(m, UserPage(flat, root, (va + |s|) / PGSIZE))
    ensures Splice(m, UserPage(flat, root, (va + |s|) / PGSIZE), (va + |s|) % PGSIZE, t)
            == Stored(m0, flat, root, va, s + t)
  {
    StoredInPage(m, flat, root, va + |s|, t);
    StoredMore(m0, flat, root, va, s, t);
    hide Splice, UserPage, Stored;
  }

  /** It keeps the invariants. */
  lemma CopyTurnKeeps(m: Mem, g: Book, root: nat, va: nat, t: seq<byte>)
    requires Inv(m, g, NoGap) && UserOk(m, g, root) && Accessible(g, root, va) && va % PGSIZE + |t| <= PGSIZE
    ensures var q := UserPage(g.flat, root, va / PGSIZE);
            && DataPage(m, q)
            && var m' := Splice(m, q, va % PGSIZE, t); Inv(m', g, NoGap) && UserOk(m', g, root)
  {
    var q := UserPage(g.flat, root, va / PGSIZE);
    assert UserOwned(m, g, root, va / PGSIZE);
    hide Inv, UserOk, Splice, UserPage;
    SpliceInv(m, g, q, va % PGSIZE, t);
    SpliceKeeps(m, g, q, va % PGSIZE, t, root);
  }

  /** copyout of `src`: memory becomes what storing the first `done` bytes one by one would make it. */
  method CopyOut(k: Machine, root: nat, dstva: nat, src: seq<byte>) returns (ok: bool, ghost done: nat)
    requires k.Ok(NoGap) && Key(root, 2, 0) in k.g.node && UserOk(k.mem, k.g, root)
    modifies k
    ensures k.Ok(NoGap) && k.g == old(k.g) && UserOk(k.mem, k.g, root)
    ensures done <= |src| && k.mem == Stored(old(k.mem), k.g.flat, root, dstva, src[..done])
    ensures forall u | dstva <= u < dstva + done :: Accessible(k.g, root, u)
    ensures if ok then done == |src| else done < |src| && !Accessible(k.g, root, dstva + done)
  {
    hide Inv, UserOk, Stored, UserPage, Splice;
    assert k.mem == Stored(k.mem, k.g.flat, root, dstva, src[..0]) by { StoredNone(k.mem, k.g.flat, root, dstva); }
    done := 0;
    var va, rest := dstva, src;
    while rest != []
      invariant k.Ok(NoGap) && k.g == old(k.g) && UserOk(k.mem, k.g, root)
      invariant done <= |src| && rest == src[done..] && va == dstva + done
      invariant k.mem == Stored(old(k.mem), k.g.flat, root, dstva, src[..done])
      invariant forall u | dstva <= u < dstva + done :: Accessible(k.g, root, u)
      decreases |rest|
    {
      var va0 := va / PGSIZE * PGSIZE;
      var pa := k.Walkaddr(root, va0);
      if pa == 0 {
        return false, done;
      }
      var n := PGSIZE - (va - va0);
      if n > |rest| {
        n := |rest|;
      }
      CopyTurnKeeps(k.mem, k.g, root, va, rest[..n]);
      CopyTurn(old(k.mem), k.mem, k.g.flat, root, dstva, src[..done], rest[..n]);
      assert src[..done] + rest[..n] == src[..done + n];
      forall u | va <= u < va + n ensures Accessible(k.g, root, u) {
        InPage(va, u - va);
      }
      k.mem := Splice(k.mem, pa, va - va0, rest[..n]);
      done := done + n;
      rest := rest[n..];
      va := va + n;
    }
    ok := true;
  }

  lemma StoredNone(m: Mem, flat: map<Slot, nat>, root: nat, va: nat)
    ensures Stored(m, flat, root, va, []) == m
  {
  }

  lemma ReadHolds(m: Mem, g: Book, root: nat, va: nat, s: seq<byte>, n: nat)
    requires UserOk(m, g, root) && Holds(m, g, root, va, s) && Accessible(g, root, va + |s|)
    requires (va + |s|) % PGSIZE + n <= PGSIZE
    ensures var q, off := UserPage(g.flat, root, (va + |s|) / PGSIZE), (va + |s|) % PGSIZE;
            DataPage(m, q) && Holds(m, g, root, va, s + m[q].bytes[off..off + n])
  {
    var q, b := UserPage(g.flat, root, (va + |s|) / PGSIZE), va + |s|;
    assert UserOwned(m, g, root, b / PGSIZE);
    hide UserPage;
    var t := s + m[q].bytes[b % PGSIZE..b % PGSIZE + n];
    forall i | 0 <= i < |t| ensures Sees(m, g, root, va + i, t[i]) {
      if i < |s| {
        assert Sees(m, g, root, va + i, s[i]);
      } else {
        InPage(b, i - |s|);
      }
    }
  }

  /** copyin of `len` bytes. */
  method CopyIn(k: Machine, root: nat, srcva: nat, len: nat) returns (ok: bool, dst: seq<byte>)
    requires k.Ok(NoGap) && Key(root, 2, 0) in k.g.node && UserOk(k.mem, k.g, root)
    modifies k
    ensures k.mem == old(k.mem) && k.g == old(k.g) && k.freelist == old(k.freelist)
    ensures |dst| <= len && Holds(k.mem, k.g, root, srcva, dst)
    ensures if ok then |dst| == len else |dst| < len && !Accessible(k.g, root, srcva + |dst|)
  {
    hide Inv, UserOk;
    assert Holds(k.mem, k.g, root, srcva, []);
    hide Holds;
    dst := [];
    var va := srcva;
    while |dst| < len
      invariant k.mem == old(k.mem) && k.g == old(k.g) && k.freelist == old(k.freelist)
      invariant |dst| <= len && va == srcva + |dst| && Holds(k.mem, k.g, root, srcva, dst)
    {
      var va0 := va / PGSIZE * PGSIZE;
      var pa := k.Walkaddr(root, va0);
      if pa == 0 {
        return false, dst;
      }
      var n := PGSIZE - (va - va0);
      if n > len - |dst| {
        n := len - |dst|;
      }
      ReadHolds(k.mem, k.g, root, srcva, dst, n);
      dst := dst + k.mem[pa].bytes[va - va0..va - va0 + n];
      va := va + n;
    }
    ok := true;
  }

  /** copyinstr: the bytes before the first zero, if there is one among the first `max` and all up to
      it are accessible. */
  method CopyInStr(k: Machine, root: nat, srcva: nat, max: nat) returns (ok: bool, dst: seq<byte>)
    requires k.Ok(NoGap) && Key(root, 2, 0) in k.g.node && UserOk(k.mem, k.g, root)
    modifies k
    ensures k.mem == old(k.mem) && k.g == old(k.g) && k.freelist == old(k.freelist)
    ensures |dst| <= max && 0 !in dst && Holds(k.mem, k.g, root, srcva, dst)
    ensures ok ==> |dst| < max && Holds(k.mem, k.g, root, srcva, dst + [0])
    ensures !ok ==> |dst| == max || !Accessible(k.g, root, srcva + |dst|)
  {
    hide Inv, UserOk;
    assert Holds(k.mem, k.g, root, srcva, []);
    hide Holds;
    dst := [];
    ok := false;
    var va := srcva;
    while !ok && |dst| < max
      invariant k.mem == old(k.mem) && k.g == old(k.g) && k.freelist == old(k.freelist)
      invariant |dst| <= max && 0 !in dst && Holds(k.mem, k.g, root, srcva, dst)
      invariant !ok ==> va == srcva + |dst|
      invariant ok ==> |dst| < max && Holds(k.mem, k.g, root, srcva, dst + [0])
      decreases !ok, max - |dst|
    {
      var va0 := va / PGSIZE * PGSIZE;
      var pa := k.Walkaddr(root, va0);
      if pa == 0 {
        return false, dst;
      }
      var n := PGSIZE - (va - va0);
      if n > max - |dst| {
        n := max - |dst|;
      }
      var p, i := va - va0, 0;
      while i < n
        invariant 0 <= i <= n && va + i == srcva + |dst| && |dst| + (n - i) <= max
        invariant k.mem == old(k.mem) && k.g == old(k.g) && k.freelist == old(k.freelist) && !ok
        invariant 0 !in dst && Holds(k.mem, k.g, root, srcva, dst)
      {
        assert (va + i) / PGSIZE == va / PGSIZE && (va + i) % PGSIZE == p + i;
        ReadHolds(k.mem, k.g, root, srcva, dst, 1);
        var c := k.mem[pa].bytes[p + i];
        assert k.mem[pa].bytes[p + i..p + i + 1] == [c];
        if c == 0 {
          ok := true;
          break;
        }
        dst := dst + [c];
        i := i + 1;
      }
      va := va + n;
    }
  }

  /** What copyout has put there is what copyin returns, exactly if no two different bytes went to the
      same place. */
  method CopyOutThenIn(k: Machine, root: nat, va: nat, src: seq<byte>) returns (ok: bool, dst: seq<byte>)
    requires k.Ok(NoGap) && Key(root, 2, 0) in k.g.node && UserOk(k.mem, k.g, root)
    modifies k
    ensures k.Ok(NoGap) && k.g == old(k.g) && UserOk(k.mem, k.g, root)
    ensures ok <==> forall u | va <= u < va + |src| :: Accessible(k.g, root, u)
    ensures ok ==> (dst == src <==> Consistent(k.g.flat, root, va, src))
  {
    hide Inv, UserOk, Stored, Consistent;
    ghost var done;
    ok, done := CopyOut(k, root, va, src);
    dst := [];
    if ok {
      assert src[..done] == src;
      StoredHoldsIff(old(k.mem), k.g, root, va, src);
      var in1;
      in1, dst := CopyIn(k, root, va, |src|);
      assert in1;
      if Holds(k.mem, k.g, root, va, src) {
        HoldsOnce(k.mem, k.g, root, va, src, dst);
      }
    }
  }

  // ---------------------------------------------------------------------------
  // What keeps the pages of every user in order
  // ---------------------------------------------------------------------------

  /** The user's page is the one it was, in the same hands and with the same contents. */
  ghost predicate KeptPage(m0: Mem, g0: Book, m: Mem, g: Book, root: nat, v: nat)
  {
    var q := UserPage(g.flat, root, v);
    && q == UserPage(g0.flat, root, v)
    && (q in m0 && q in g0.role && (g0.role[q] == User(root, v) || g0.role[q] == Kernel) ==>
          q in g.role && g.role[q] == g0.role[q] && q in m && m[q] == m0[q])
  }

  lemma UserOkKept(m0: Mem, g0: Book, m: Mem, g: Book, root: nat)
    requires UserOk(m0, g0, root)
    requires forall v: nat | UserPage(g.flat, root, v) != 0 :: KeptPage(m0, g0, m, g, root, v)
    ensures UserOk(m, g, root)
  {
    forall v: nat | UserPage(g.flat, root, v) != 0 ensures UserOwned(m, g, root, v) {
      assert KeptPage(m0, g0, m, g, root, v) && UserOwned(m0, g0, root, v);
    }
  }

  /** uvmunmap and uvmdealloc of any address space. */
  lemma UserOkUnmapped(m0: Mem, g0: Book, m: Mem, g: Book, gone: nat, lo: nat, hi: nat, root: nat)
    requires UserOk(m0, g0, root) && SameData(m0, m, g)
    requires g.flat == UnmapRange(g0.flat, gone, lo, hi) && g.role == Freed(g0.role, gone, lo, hi)
    ensures UserOk(m, g, root)
  {
    forall v: nat | UserPage(g.flat, root, v) != 0 ensures KeptPage(m0, g0, m, g, root, v) {
      assert UserPage(g0.flat, root, v) == UserPage(g.flat, root, v);
    }
    UserOkKept(m0, g0, m, g, root);
  }

  /** uvmfree of any address space. */
  lemma UserOkReleased(m0: Mem, g0: Book, m: Mem, g: Book, gone: nat, root: nat)
    requires UserOk(m0, g0, root) && SameData(m0, m, g) && Released(g0, g, gone)
    ensures UserOk(m, g, root)
  {
    forall v: nat | UserPage(g.flat, root, v) != 0 ensures KeptPage(m0, g0, m, g, root, v) {
      assert Slot(root, v) in g.flat;
    }
    UserOkKept(m0, g0, m, g, root);
  }

  /** uvmalloc and uvmcopy for another address space. */
  lemma UserOkOther(m0: Mem, g0: Book, m: Mem, g: Book, other: nat, lo: nat, hi: nat, root: nat)
    requires UserOk(m0, g0, root) && Allocated(m0, g0, m, g, other, lo, hi) && other != root
    ensures UserOk(m, g, root)
  {
    forall v: nat | UserPage(g.flat, root, v) != 0 ensures KeptPage(m0, g0, m, g, root, v) {
      assert Slot(root, v) in UnmapRange(g.flat, other, lo, hi);
    }
    UserOkKept(m0, g0, m, g, root);
  }

  /** Both of them when they fail, for any address space. */
  lemma UserOkExtended(m0: Mem, g0: Book, m: Mem, g: Book, other: nat, root: nat)
    requires UserOk(m0, g0, root) && Extends(m0, g0, m, g, other)
    ensures UserOk(m, g, root)
  {
    UserOkKept(m0, g0, m, g, root);
  }

  /** copyout to any address space. */
  lemma UserOkStored(m: Mem, g: Book, other: nat, va: nat, s: seq<byte>, root: nat)
    requires UserOk(m, g, root)
    ensures UserOk(Stored(m, g.flat, other, va, s), g, root)
  {
    hide Stored, UserPage;
    forall v: nat | UserPage(g.flat, root, v) != 0 ensures UserOwned(Stored(m, g.flat, other, va, s), g, root, v) {
      assert UserOwned(m, g, root, v);
      StoredByte(m, g.flat, other, va, s, Loc(UserPage(g.flat, root, v), 0));
    }
  }

  /** mappages of a page the kernel holds, as get_shmem_access does with a shared page. */
  lemma UserOkShared(m0: Mem, g0: Book, m: Mem, g: Book, other: nat, vpn: nat, pa: nat, flags: nat, root: nat)
    requires UserOk(m0, g0, root) && Extends(m0, g0.(flat := g.flat), m, g, other) && flags < 1024
    requires g.flat == g0.flat[Slot(other, vpn) := MkPte(pa, flags)] && pa % PGSIZE == 0
    requires DataPage(m0, pa) && pa in g0.role && g0.role[pa] == Kernel
    ensures UserOk(m, g, root)
  {
    PteRoundTrip(pa, flags);
    hide DataPage;
    forall v: nat | UserPage(g.flat, root, v) != 0 ensures UserOwned(m, g, root, v) {
      if Slot(root, v) != Slot(other, vpn) {
        assert UserPage(g0.flat, root, v) == UserPage(g.flat, root, v);
        assert UserOwned(m0, g0, root, v);
        SamePage(m0, m, UserPage(g.flat, root, v));
      } else {
        SamePage(m0, m, pa);
      }
    }
  }

  lemma SamePage(m0: Mem, m: Mem, q: nat)
    requires DataPage(m0, q)
    ensures q in m0 && (q in m && m[q] == m0[q] ==> DataPage(m, q))
  {
  }

  /** Pages added by uvmalloc or uvmcopy for the user are data pages of its own. */
  lemma UserOkAllocated(m0: Mem, g0: Book, m: Mem, g: Book, root: nat, lo: nat, hi: nat)
    requires UserOk(m0, g0, root) && Allocated(m0, g0, m, g, root, lo, hi)
    requires forall v | lo <= v < hi && UserPage(g.flat, root, v) != 0 :: DataPage(m, UserPage(g.flat, root, v))
    ensures UserOk(m, g, root)
  {
    forall v: nat | UserPage(g.flat, root, v) != 0 ensures UserOwned(m, g, root, v) {
      if lo <= v < hi {
        assert CanUnmap(g, root, v, true);
      } else {
        assert Slot(root, v) in UnmapRange(g.flat, root, lo, hi);
        assert UserPage(g0.flat, root, v) == UserPage(g.flat, root, v);
        assert UserOwned(m0, g0, root, v);
      }
    }
  }

  /** The pages uvmalloc has filled with zeros. */
  lemma UserOkGrown(m0: Mem, g0: Book, m: Mem, g: Book, root: nat, lo: nat, hi: nat, flags: nat)
    requires UserOk(m0, g0, root) && Allocated(m0, g0, m, g, root, lo, hi)
    requires forall v | lo <= v < hi :: PageIs(m, g, root, v, Fill(0), flags)
    ensures UserOk(m, g, root)
  {
    forall v | lo <= v < hi && UserPage(g.flat, root, v) != 0 ensures DataPage(m, UserPage(g.flat, root, v)) {
      assert PageIs(m, g, root, v, Fill(0), flags);
    }
    UserOkAllocated(m0, g0, m, g, root, lo, hi);
  }

  /** The pages uvmcopy has copied from a parent whose pages are its own. */
  lemma UserOkForked(m0: Mem, g0: Book, m: Mem, g: Book, parent: nat, child: nat, n: nat)
    requires Inv(m0, g0, NoGap) && UserOk(m0, g0, parent) && UserOk(m0, g0, child)
    requires Allocated(m0, g0, m, g, child, 0, n)
    requires forall v | 0 <= v < n :: CopiedPage(m0, g0, m, g, parent, child, v)
    ensures UserOk(m, g, child)
  {
    assert 0 !in m0 by { assert !GoodPage(0); }
    hide Inv;
    forall v | 0 <= v < n && UserPage(g.flat, child, v) != 0 ensures DataPage(m, UserPage(g.flat, child, v)) {
      ForkedPage(m0, g0, m, g, parent, child, v);
    }
    UserOkAllocated(m0, g0, m, g, child, 0, n);
  }

  lemma ForkedPage(m0: Mem, g0: Book, m: Mem, g: Book, parent: nat, child: nat, v: nat)
    requires 0 !in m0 && UserOk(m0, g0, parent) && CopiedPage(m0, g0, m, g, parent, child, v)
    ensures UserPage(g.flat, child, v) != 0 ==> DataPage(m, UserPage(g.flat, child, v))
  {
    if UserPage(g.flat, child, v) != 0 && UserPage(g0.flat, parent, v) != 0 {
      assert UserOwned(m0, g0, parent, v);
    }
  }
}
