/** user/umalloc.c: the allocator of section 8.7 of The C Programming Language, 2nd ed.  Addresses
    count units of sizeof(Header) bytes.  Beside the headers stands the bookkeeping the program does
    not have: which blocks are free, which are live, and the block every unit obtained from sbrk
    belongs to. */
module Umalloc {
  import opened Common

  /** `base` is the list header, in no block of its own; `owner` maps every unit obtained from sbrk
      to the block it lies in. */
  datatype Heap = Heap(base: nat, ptr: map<nat, nat>, size: map<nat, nat>,
                       free: set<nat>, live: map<nat, nat>, owner: map<nat, nat>)

  /** `q` follows `p` in address order, the lowest following the highest. */
  ghost predicate Follows(h: Heap, p: nat, q: nat)
  {
    if p < q then forall f | f in h.free :: !(p < f < q)
    else q == h.base && forall f | f in h.free :: f <= p
  }

  /** The list runs through the free blocks in address order, with a single wrap to `base`. */
  ghost predicate Linked(h: Heap)
  {
    && h.base in h.free
    && (forall f | f in h.free :: h.base <= f)
    && (forall f {:trigger Link(h, f)} | f in h.free :: Link(h, f))
  }

  ghost predicate Link(h: Heap, f: nat) { f in h.ptr && h.ptr[f] in h.free && Follows(h, f, h.ptr[f]) }

  ghost predicate IsBlock(h: Heap, b: nat) { b in h.live || (b in h.free && b != h.base) }

  /** Sizes are positive, but for `base`; a live block keeps the size it was given. */
  ghost predicate Sized(h: Heap)
  {
    && h.base in h.size && h.size[h.base] == 0
    && (forall b | b in h.free :: b in h.size && (b != h.base ==> 0 < h.size[b]))
    && (forall b | b in h.live :: b in h.size && 0 < h.size[b] == h.live[b] && b !in h.free)
  }

  ghost predicate Owned(h: Heap, b: nat, u: nat) { u in h.owner && h.owner[u] == b }

  /** Every unit lies in one block, and every block consists of units it owns. */
  ghost predicate Tiled(h: Heap)
    requires Sized(h)
  {
    && (forall u | u in h.owner ::
          h.base < u && IsBlock(h, h.owner[u]) && h.owner[u] <= u < h.owner[u] + h.size[h.owner[u]])
    && (forall b: nat, u: nat | IsBlock(h, b) && b <= u < b + h.size[b] :: Owned(h, b, u))
  }

  ghost predicate Ok(h: Heap) { Linked(h) && Sized(h) && Tiled(h) }

  /** `b` starts where the free block `a` ends. */
  ghost predicate Touch(h: Heap, a: nat, b: nat) { a in h.size && a + h.size[a] == b }

  ghost predicate Inv(h: Heap)
  {
    Ok(h) && forall a, b | a in h.free && b in h.free && a < b :: !Touch(h, a, b)
  }

  /** Free and live blocks do not overlap. */
  lemma BlocksDisjoint(h: Heap, a: nat, b: nat)
    requires Ok(h) && IsBlock(h, a) && IsBlock(h, b) && a < b
    ensures a + h.size[a] <= b
  {
    assert b < a + h.size[a] ==> Owned(h, a, b);
    assert Owned(h, b, b);
  }

  // --- the list operations of free and malloc ---

  /** A live block enters the list after `p`. */
  function Inserted(h: Heap, p: nat, b: nat): Heap
    requires p in h.ptr
  {
    h.(ptr := h.ptr[b := h.ptr[p]][p := b], free := h.free + {b}, live := h.live - {b})
  }

  /** `p` is the highest free block below the address `b`. */
  ghost predicate Below(h: Heap, p: nat, b: nat)
  {
    p in h.free && p < b && forall f | f in h.free :: !(p < f < b)
  }

  lemma InsertOk(h: Heap, p: nat, b: nat)
    requires Ok(h) && Below(h, p, b) && b in h.live
    ensures p in h.ptr && Ok(Inserted(h, p, b))
  {
    InsertLinked(h, p, b);
    var h' := Inserted(h, p, b);
    hide Linked, Below;
    forall x: nat, u: nat | IsBlock(h', x) && x <= u < x + h'.size[x] ensures Owned(h', x, u) {
      assert Owned(h, x, u);
    }
  }

  lemma InsertLink(h: Heap, p: nat, b: nat, f: nat)
    requires Below(h, p, b) && b !in h.free && Link(h, p) && h.base <= p && (f == b || (f in h.free && Link(h, f)))
    ensures Link(Inserted(h, p, b), f)
  {
  }

  lemma LinkOf(h: Heap, p: nat)
    requires Linked(h) && p in h.free
    ensures Link(h, p) && p in h.ptr
  {
  }

  lemma InsertLinked(h: Heap, p: nat, b: nat)
    requires Linked(h) && Below(h, p, b) && b !in h.free
    ensures p in h.ptr && Linked(Inserted(h, p, b))
  {
    hide Link;
    LinkOf(h, p);
    var h' := Inserted(h, p, b);
    forall f | f in h'.free ensures Link(h', f) {
      assert f != b ==> Link(h, f);
      InsertLink(h, p, b, f);
    }
  }

  /** The free block `b`, next after `a` and touching it, is joined to `a`. */
  function Merged(h: Heap, a: nat, b: nat): Heap
    requires a in h.size && b in h.size && b in h.ptr
  {
    h.(ptr := h.ptr[a := h.ptr[b]], size := h.size[a := h.size[a] + h.size[b]], free := h.free - {b},
       owner := map u | u in h.owner :: if h.owner[u] == b then a else h.owner[u])
  }

  lemma MergeLinked(h: Heap, a: nat, b: nat)
    requires Linked(h) && a in h.free && b in h.free && a < b && a in h.size && b in h.size
    requires a in h.ptr && h.ptr[a] == b
    ensures b in h.ptr && Linked(Merged(h, a, b))
  {
    assert Link(h, a) && Link(h, b);
    var h' := Merged(h, a, b);
    forall f | f in h'.free ensures Link(h', f) {
      assert Link(h, f);
    }
  }

  lemma MergeTiled(h: Heap, a: nat, b: nat)
    requires Sized(h) && Tiled(h) && a in h.free && b in h.free && h.base < a < b && Touch(h, a, b) && b in h.ptr
    ensures Sized(Merged(h, a, b)) && Tiled(Merged(h, a, b))
  {
    var h' := Merged(h, a, b);
    forall x: nat, u: nat | IsBlock(h', x) && x <= u < x + h'.size[x] ensures Owned(h', x, u) {
      assert IsBlock(h, x) && (if x == a && u >= b then Owned(h, b, u) else Owned(h, x, u));
    }
  }

  // --- free ---

  /** No two free blocks touch, other than `b` and a neighbour: `p` below it, `n` above it. */
  ghost predicate ApartBut(h: Heap, b: nat, p: nat, n: nat)
  {
    forall x, y | x in h.free && y in h.free && x < y && Touch(h, x, y) :: (x == p && y == b) || (x == b && y == n)
  }

  lemma InsertApart(h: Heap, p: nat, b: nat)
    requires Inv(h) && Below(h, p, b) && b in h.live
    ensures p in h.ptr && ApartBut(Inserted(h, p, b), b, p, h.ptr[p])
  {
    assert Link(h, p);
    var h', n := Inserted(h, p, b), h.ptr[p];
    forall x, y | x in h'.free && y in h'.free && x < y && Touch(h', x, y)
      ensures (x == p && y == b) || (x == b && y == n)
    {
      if y == b {
        if x != p && x != h.base {
          BlocksDisjoint(h, x, p);
        }
      } else if x == b {
        if y != n {
          BlocksDisjoint(h, b, n);
        }
      }
    }
  }

  /** The two joins at the end of free, after `b` was linked in behind `p`. */
  function JoinUp(h: Heap, b: nat): Heap
  {
    if b in h.ptr && b in h.size && h.ptr[b] in h.size && h.ptr[b] in h.ptr && b + h.size[b] == h.ptr[b]
    then Merged(h, b, h.ptr[b]) else h
  }

  lemma JoinUpOk(h: Heap, b: nat, p: nat)
    requires Ok(h) && b in h.free && p in h.free && h.base <= p < b && b in h.ptr && ApartBut(h, b, p, h.ptr[b])
    ensures var h' := JoinUp(h, b);
            Ok(h') && b in h'.free && p in h'.free && ApartBut(h', b, p, b) && h'.base == h.base
  {
    assert Link(h, b);
    var n := h.ptr[b];
    assert Link(h, n);
    if b + h.size[b] == n {
      MergeLinked(h, b, n);
      MergeTiled(h, b, n);
      JoinApart(h, b, n, p);
    }
  }

  lemma JoinApart(h: Heap, b: nat, n: nat, p: nat)
    requires Ok(h) && b in h.free && n in h.free && p in h.free && p < b < n && n in h.ptr
    requires Touch(h, b, n) && ApartBut(h, b, p, n)
    ensures ApartBut(Merged(h, b, n), b, p, b)
  {
    var h' := Merged(h, b, n);
    forall x, y | x in h'.free && y in h'.free && x < y && Touch(h', x, y) ensures x == p && y == b {
      assert Touch(h, if x == b then n else x, y);
    }
  }

  function JoinDown(h: Heap, p: nat, b: nat): Heap
  {
    if p in h.size && b in h.size && b in h.ptr && p + h.size[p] == b then Merged(h, p, b) else h
  }

  lemma JoinDownOk(h: Heap, p: nat, b: nat)
    requires Ok(h) && b in h.free && p in h.free && p < b && p in h.ptr && h.ptr[p] == b && ApartBut(h, b, p, b)
    ensures Inv(JoinDown(h, p, b)) && p in JoinDown(h, p, b).free
  {
    assert Link(h, p) && Link(h, b);
    var h' := JoinDown(h, p, b);
    if p + h.size[p] == b {
      MergeLinked(h, p, b);
      MergeTiled(h, p, b);
      forall x, y | x in h'.free && y in h'.free && x < y ensures !Touch(h', x, y) {
        assert !Touch(h, x, y) || (x == p && y == b);
        assert x == p ==> !Touch(h, b, y);
      }
    }
  }

  /** The heap after free of the live block `b`, `p` being the free block below it. */
  function FreedHeap(h: Heap, p: nat, b: nat): Heap
  {
    if p in h.ptr then JoinDown(JoinUp(Inserted(h, p, b), b), p, b) else h
  }

  lemma FreeKeeps(h: Heap, p: nat, b: nat)
    requires Inv(h) && Below(h, p, b) && b in h.live
    ensures Inv(FreedHeap(h, p, b)) && p in FreedHeap(h, p, b).free
    ensures FreedHeap(h, p, b).live == h.live - {b} && FreedHeap(h, p, b).owner.Keys == h.owner.Keys
    ensures FreedHeap(h, p, b).base == h.base
    ensures var h' := FreedHeap(h, p, b); exists f :: f in h'.free && f in h'.size && h'.size[f] >= h.live[b]
  {
    assert Link(h, p);
    var h1 := Inserted(h, p, b);
    assert Ok(h1) by { InsertOk(h, p, b); }
    assert ApartBut(h1, b, p, h1.ptr[b]) by { InsertApart(h, p, b); }
    var h2 := JoinUp(h1, b);
    assert h.base <= p;
    JoinUpOk(h1, b, p);
    assert h2.ptr[p] == b;
    var h3 := JoinDown(h2, p, b);
    JoinDownOk(h2, p, b);
    assert h3 == FreedHeap(h, p, b);
    assert h2.size[b] >= h.live[b];
    var f := if b in h3.free then b else p;
    assert f in h3.free && h3.size[f] >= h.live[b];
  }

  /** The headers after free, as the two branches at its end leave them. */
  lemma FreedHeaders(h: Heap, p: nat, b: nat)
    requires Link(h, p) && p != b && b in h.size && p in h.size && h.ptr[p] in h.size && h.ptr[p] in h.ptr
    requires h.ptr[p] != p ==> h.ptr[p] != b
    requires b + h.size[b] == h.ptr[p] ==> h.ptr[p] != p
    ensures var n := h.ptr[p];
            var up := b + h.size[b] == n;
            var size := if up then h.size[b := h.size[b] + h.size[n]] else h.size;
            var ptr := h.ptr[b := if up then h.ptr[n] else n];
            var down := p + h.size[p] == b;
            && FreedHeap(h, p, b).size == (if down then size[p := size[p] + size[b]] else size)
            && FreedHeap(h, p, b).ptr == ptr[p := if down then ptr[b] else b]
  {
  }

  // --- malloc ---

  /** The whole free block `p`, next after `prev`, is handed out. */
  function TookWhole(h: Heap, prev: nat, p: nat): Heap
    requires p in h.ptr && p in h.size
  {
    h.(ptr := h.ptr[prev := h.ptr[p]], free := h.free - {p}, live := h.live[p := h.size[p]])
  }

  lemma TookWholeLinked(h: Heap, prev: nat, p: nat)
    requires Linked(h) && prev in h.free && p in h.free && p in h.size && Link(h, prev) && Link(h, p)
    requires h.ptr[prev] == p && p != h.base
    ensures Linked(TookWhole(h, prev, p)) && prev in TookWhole(h, prev, p).free
  {
    var h' := TookWhole(h, prev, p);
    forall f | f in h'.free ensures Link(h', f) {
      assert Link(h, f);
    }
  }

  lemma TookWholeTiled(h: Heap, prev: nat, p: nat)
    requires p in h.ptr && Sized(h) && Tiled(h) && p in h.free && p != h.base
    ensures Sized(TookWhole(h, prev, p)) && Tiled(TookWhole(h, prev, p))
  {
    var h' := TookWhole(h, prev, p);
    forall x: nat, u: nat | IsBlock(h', x) && x <= u < x + h'.size[x] ensures Owned(h', x, u) {
      assert IsBlock(h, x) && Owned(h, x, u);
    }
  }

  lemma TookWholeKeeps(h: Heap, prev: nat, p: nat)
    requires Inv(h) && prev in h.free && p in h.free && prev in h.ptr && h.ptr[prev] == p && p != h.base
    ensures p in h.ptr && Inv(TookWhole(h, prev, p)) && prev in TookWhole(h, prev, p).free
  {
    assert Link(h, prev) && Link(h, p);
    TookWholeLinked(h, prev, p);
    TookWholeTiled(h, prev, p);
    var h' := TookWhole(h, prev, p);
    hide Linked, Tiled, Link;
    forall x, y | x in h'.free && y in h'.free && x < y ensures !Touch(h', x, y) {
      assert !Touch(h, x, y);
    }
  }

  /** The last `n` units of the free block `p` are handed out. */
  function TookTail(h: Heap, p: nat, n: nat): Heap
    requires p in h.size && n < h.size[p]
  {
    var q := p + (h.size[p] - n);
    h.(size := h.size[p := h.size[p] - n][q := n], live := h.live[q := n],
       owner := map u | u in h.owner :: if h.owner[u] == p && q <= u then q else h.owner[u])
  }

  lemma TookTailNew(h: Heap, p: nat, n: nat)
    requires Sized(h) && Tiled(h) && p in h.free && 0 < n < h.size[p]
    ensures var q := p + (h.size[p] - n); Owned(h, p, q) && q !in h.live && q !in h.free
    ensures Sized(TookTail(h, p, n))
  {
    var q := p + (h.size[p] - n);
    assert Owned(h, p, q);
    assert IsBlock(h, q) ==> Owned(h, q, q);
  }

  lemma TookTailTiled(h: Heap, p: nat, n: nat)
    requires Sized(h) && Tiled(h) && p in h.free && 0 < n < h.size[p]
    ensures Sized(TookTail(h, p, n)) && Tiled(TookTail(h, p, n))
  {
    var h', q := TookTail(h, p, n), p + (h.size[p] - n);
    TookTailNew(h, p, n);
    forall x: nat, u: nat | IsBlock(h', x) && x <= u < x + h'.size[x] ensures Owned(h', x, u) {
      assert if x == q then Owned(h, p, u) else IsBlock(h, x) && Owned(h, x, u);
    }
  }

  lemma SameLinks(h: Heap, h': Heap)
    requires Linked(h) && h'.ptr == h.ptr && h'.free == h.free && h'.base == h.base
    ensures Linked(h')
  {
    forall f | f in h'.free ensures Link(h', f) {
      assert Link(h, f);
    }
  }

  lemma TookTailKeeps(h: Heap, p: nat, n: nat)
    requires Inv(h) && p in h.free && 0 < n < h.size[p]
    ensures Inv(TookTail(h, p, n)) && p + (h.size[p] - n) !in h.live && p + (h.size[p] - n) !in h.free
  {
    var h' := TookTail(h, p, n);
    SameLinks(h, h');
    TookTailTiled(h, p, n);
    TookTailNew(h, p, n);
    forall x, y | x in h'.free && y in h'.free && x < y ensures !Touch(h', x, y) {
      assert !Touch(h, x, y);
      if x == p {
        BlocksDisjoint(h, p, y);
      }
    }
  }

  /** The addresses the list visits from `p` on before it wraps. */
  ghost function Chain(h: Heap, p: nat): seq<nat>
    requires Inv(h) && p in h.free
    decreases |Above(h, p)|
  {
    assert Link(h, p);
    AboveLess(h, p);
    if p < h.ptr[p] then [p] + Chain(h, h.ptr[p]) else [p]
  }

  lemma {:induction false} ChainVisits(h: Heap, p: nat)
    requires Inv(h) && p in h.free
    ensures var c := Chain(h, p);
            && c != [] && c[0] == p
            && (forall i | 0 <= i < |c| - 1 :: c[i] < c[i + 1] && c[i] in h.ptr && h.ptr[c[i]] == c[i + 1])
            && c[|c| - 1] in h.ptr && h.ptr[c[|c| - 1]] == h.base
            && (forall f | f in h.free && p <= f :: f in c) && forall f | f in c :: f in h.free
    decreases |Above(h, p)|
  {
    assert Link(h, p);
    AboveLess(h, p);
    if p < h.ptr[p] {
      ChainVisits(h, h.ptr[p]);
      var c, d := Chain(h, p), Chain(h, h.ptr[p]);
      assert forall i | 0 < i < |c| :: c[i] == d[i - 1];
    }
  }

  /** The free list is one cycle: from `base` up through all free blocks in address order and back. */
  lemma OneCycle(h: Heap)
    requires Inv(h)
    ensures var c := Chain(h, h.base);
            && c[0] == h.base
            && (forall i | 0 <= i < |c| - 1 :: c[i] < c[i + 1] && c[i] in h.ptr && h.ptr[c[i]] == c[i + 1])
            && c[|c| - 1] in h.ptr && h.ptr[c[|c| - 1]] == h.base
            && (forall f | f in h.free :: f in c) && forall f | f in c :: f in h.free
  {
    ChainVisits(h, h.base);
  }

  // --- sbrk ---

  /** `n` fresh units from `b` on become a live block (to be freed at once). */
  function Granted(h: Heap, b: nat, n: nat): Heap
  {
    h.(size := h.size[b := n], live := h.live[b := n],
       owner := h.owner + map u: nat | b <= u < b + n && InBlock(b, n, u) :: b)
  }

  predicate InBlock(b: nat, n: nat, u: nat) { b <= u < b + n }

  /** sbrk hands out units that no block has. */
  ghost predicate Fresh(owner: map<nat, nat>, b: nat, n: nat) { forall u | u in owner :: !InBlock(b, n, u) }

  lemma GrantKeeps(h: Heap, b: nat, n: nat)
    requires Inv(h) && h.base < b && 0 < n && Fresh(h.owner, b, n)
    ensures Inv(Granted(h, b, n)) && b !in h.live
  {
    var h' := Granted(h, b, n);
    assert !IsBlock(h, b) by {
      assert IsBlock(h, b) ==> Owned(h, b, b);
    }
    SameLinks(h, h');
    forall x: nat, u: nat | IsBlock(h', x) && x <= u < x + h'.size[x] ensures Owned(h', x, u) {
      assert x == b || Owned(h, x, u);
    }
    forall x, y | x in h'.free && y in h'.free && x < y ensures !Touch(h', x, y) {
      assert !Touch(h, x, y);
    }
  }

  /** sizeof(Header). */
  const UNIT: nat := 16

  /** Units for `nbytes` bytes and a header. */
  function Units(nbytes: nat): (n: nat)
    ensures (n - 1) * UNIT >= nbytes && (n - 2) * UNIT < nbytes
  {
    (nbytes + UNIT - 1) / UNIT + 1
  }

  /** The units morecore asks for. */
  function Request(nu: nat): nat { if nu < 4096 then 4096 else nu }

  /** The low 32 bits of `x` as a signed number: the conversion to sbrk's int parameter. */
  function ToInt(x: nat): int
  {
    var r := x % 0x1_0000_0000; if r < 0x8000_0000 then r else r - 0x1_0000_0000
  }

  /** sbrk is asked for the bytes morecore counts on exactly for requests below 2^27 units. */
  lemma SbrkArgument(nu: nat)
    requires nu <= Units(0xFFFF_FFFF)
    ensures ToInt(Request(nu) * UNIT) == Request(nu) * UNIT <==> nu < 0x800_0000
  {
  }

  /** A request of 2 GB less one header makes sbrk give memory back. */
  lemma HugeRequestShrinks()
    ensures ToInt(Request(Units(0x8000_0000 - UNIT)) * UNIT) < 0
  {
  }

  class Allocator {
    const base: nat
    var ptr: map<nat, nat>
    var size: map<nat, nat>
    var freep: nat                       // 0 is the null pointer
    ghost var free: set<nat>
    ghost var live: map<nat, nat>
    ghost var owner: map<nat, nat>

    ghost function View(): Heap
      reads this
    {
      Heap(base, ptr, size, free, live, owner)
    }

    /** Before the first malloc there is no list; after it `freep` is on the list. */
    ghost predicate Valid()
      reads this
    {
      0 < base && if freep == 0 then live == map[] && owner == map[] else Inv(View()) && freep in free
    }

    constructor (b: nat)
      requires 0 < b
      ensures Valid() && base == b && live == map[] && owner == map[]
    {
      base, ptr, size, freep := b, map[], map[], 0;
      free, live, owner := {}, map[], map[];
    }

    /** The search loop of free. */
    method Search(bp: nat) returns (p: nat)
      requires freep in free && Inv(View()) && base < bp && bp !in free
      ensures Below(View(), p, bp)
    {
      hide Inv;
      ghost var h := View();
      p := freep;
      LinkAt(h, p);
      while !(bp > p && bp < ptr[p])
        invariant p in free && Link(h, p)
        decreases p > bp, |Above(h, p)|
      {
        if p >= ptr[p] && (bp > p || bp < ptr[p]) {
          break;
        }
        AboveLess(h, p);
        LinkAt(h, ptr[p]);
        p := ptr[p];
      }
      FoundPlace(h, p, bp);
    }

    /** free of a pointer that malloc returned. */
    method Free(ap: nat)
      requires Valid() && 0 < ap && ap - 1 in live
      modifies this
      ensures Valid() && freep != 0 && live == old(live) - {ap - 1} && owner.Keys == old(owner).Keys
      ensures exists f :: f in free && f in size && size[f] >= old(live)[ap - 1]
    {
      hide Inv, FreedHeap, Follows, Link;
      var bp := ap - 1;
      ghost var h := View();
      LiveAbove(h, bp);
      var p := Search(bp);
      FreeKeeps(h, p, bp);
      LinkAt(h, p);
      LinkAt(h, ptr[p]);
      FreedHeaders(h, p, bp);
      ghost var up := bp + size[bp] == ptr[p];
      ghost var size1 := if up then h.size[bp := h.size[bp] + h.size[h.ptr[p]]] else h.size;
      ghost var ptr1 := h.ptr[bp := if up then h.ptr[h.ptr[p]] else h.ptr[p]];
      if bp + size[bp] == ptr[p] {
        size := size[bp := size[bp] + size[ptr[p]]];
        ptr := ptr[bp := ptr[ptr[p]]];
      } else {
        ptr := ptr[bp := ptr[p]];
      }
      assert size == size1 && ptr == ptr1;
      if p + size[p] == bp {
        size := size[p := size[p] + size[bp]];
        ptr := ptr[p := ptr[bp]];
      } else {
        ptr := ptr[p := bp];
      }
      freep := p;
      ghost var h' := FreedHeap(h, p, bp);
      assert size == h'.size && ptr == h'.ptr;
      free, live, owner := h'.free, h'.live, h'.owner;
      assert View() == h';
    }

    /** morecore; `sbrk` is the address sbrk returns, None its failure. */
    method Morecore(nu: nat, sbrk: Option<nat>) returns (p: nat)
      requires Valid() && freep != 0 && 0 < nu < 0x800_0000
      requires sbrk.Some? ==> base < sbrk.value && Fresh(owner, sbrk.value, Request(nu))
      modifies this
      ensures Valid() && freep != 0 && live == old(live)
      ensures sbrk.None? ==> p == 0 && View() == old(View()) && freep == old(freep)
      ensures sbrk.Some? ==> p == freep && owner.Keys == old(owner).Keys + New(sbrk.value, Request(nu))
      ensures sbrk.Some? ==> exists f :: f in free && f in size && size[f] >= nu
    {
      hide Inv;
      var n := Request(nu);
      if sbrk.None? {
        return 0;
      }
      var hp := sbrk.value;
      GrantKeeps(View(), hp, n);
      ghost var h := Granted(View(), hp, n);
      size := size[hp := n];
      live, owner := h.live, h.owner;
      assert View() == h;
      Free(hp + 1);
      p := freep;
    }

    /** The part of malloc that hands out `nunits` units of the free block `q`, next after `prevp`. */
    method Take(prevp: nat, q: nat, nunits: nat) returns (p: nat)
      requires 0 < base && Inv(View()) && prevp in free && q in free && prevp in ptr && ptr[prevp] == q
      requires q in size && 0 < nunits <= size[q]
      modifies this
      ensures Valid() && freep == prevp != 0
      ensures p !in old(live) && live == old(live)[p := nunits] && owner.Keys == old(owner).Keys
    {
      hide Inv, Fits;
      ghost var h := View();
      p := q;
      LinkAt(h, prevp);
      NotBase(h, p);
      if size[p] == nunits {
        TookWholeKeeps(h, prevp, p);
        h := TookWhole(h, prevp, p);
        ptr := ptr[prevp := ptr[p]];
      } else {
        TookTailKeeps(h, p, nunits);
        h := TookTail(h, p, nunits);
        size := size[p := size[p] - nunits];
        p := p + size[p];
        size := size[p := nunits];
      }
      freep := prevp;
      free, live, owner := h.free, h.live, h.owner;
      assert View() == h;
    }

    /** malloc; `sbrk` is what sbrk would return.  A pointer is to units that were free or fresh, and
        live blocks stay as they are; memory is asked for only when no free block is large enough. */
    method Malloc(nbytes: nat, sbrk: Option<nat>) returns (r: Option<nat>)
      requires Valid() && Units(nbytes) < 0x800_0000
      requires sbrk.Some? ==> base < sbrk.value && Fresh(owner, sbrk.value, Request(Units(nbytes)))
      modifies this
      ensures Valid() && freep != 0
      ensures r.Some? ==> 0 < r.value && r.value - 1 !in old(live) && live == old(live)[r.value - 1 := Units(nbytes)]
      ensures r.None? ==> sbrk.None? && live == old(live) && !Fits(View(), Units(nbytes))
      ensures owner.Keys == old(owner).Keys
              || (sbrk.Some? && !(old(freep) != 0 && Fits(old(View()), Units(nbytes)))
                  && owner.Keys == old(owner).Keys + New(sbrk.value, Request(Units(nbytes))))
    {
      hide Inv, Fresh, New, Follows;
      var nunits := Units(nbytes);
      if freep == 0 {
        ptr, size, freep := ptr[base := base], size[base := 0], base;
        free := {base};
        EmptyInv(View());
      }
      ghost var h0, asked := View(), false;
      var prevp := freep;
      LinkAt(View(), prevp);
      var p := ptr[prevp];
      assert forall x | x in free :: !Between(freep, p, x) by { FirstSeen(View(), freep); }
      while true
        invariant freep != 0 && freep in free && 0 < base == h0.base && Inv(View()) && live == h0.live
        invariant prevp in free && Link(View(), prevp) && ptr[prevp] == p && p in free
        invariant forall x | x in free && Between(freep, p, x) :: x in size && size[x] < nunits
        invariant if asked then Fits(View(), nunits) && sbrk.Some? && !Fits(h0, nunits)
                                && owner.Keys == h0.owner.Keys + New(sbrk.value, Request(nunits))
                  else View() == h0
        decreases !asked, p > freep, |Above(View(), p)|
      {
        ghost var h := View();
        LinkAt(h, p);
        if size[p] >= nunits {
          p := Take(prevp, p, nunits);
          return Some(p + 1);
        }
        if p == freep {
          AllSmall(h, p, nunits);
          assert !asked;
          p := Morecore(nunits, sbrk);
          if p == 0 {
            return None;
          }
          asked := true;
          LinkAt(View(), p);
          FirstSeen(View(), freep);
        } else {
          AboveLess(h, p);
          SeenMore(h, freep, p);
        }
        prevp, p := p, ptr[p];
      }
    }
  }

  /** Going up from `f` and around, `x` comes before `p`. */
  predicate Between(f: nat, p: nat, x: nat)
  {
    if f < p then f < x < p else f < x || x < p
  }

  /** Some free block is large enough. */
  ghost predicate Fits(h: Heap, n: nat) { exists f :: f in h.free && f in h.size && h.size[f] >= n }

  ghost function New(b: nat, n: nat): set<nat> { set u: nat | b <= u < b + n && InBlock(b, n, u) }

  lemma EmptyInv(h: Heap)
    requires h.free == {h.base} && h.live == map[] && h.owner == map[]
    requires h.base in h.ptr && h.ptr[h.base] == h.base && h.base in h.size && h.size[h.base] == 0
    ensures Inv(h)
  {
  }

  lemma FirstSeen(h: Heap, f: nat)
    requires Inv(h) && f in h.free
    ensures Link(h, f) && forall x | x in h.free :: !Between(f, h.ptr[f], x)
  {
    assert Link(h, f);
  }

  lemma SeenMore(h: Heap, f: nat, p: nat)
    requires Inv(h) && f in h.free && p in h.free && p != f
    ensures Link(h, p) && forall x | x in h.free && Between(f, h.ptr[p], x) :: Between(f, p, x) || x == p
    ensures f < p ==> p < h.ptr[p] || h.ptr[p] <= f
    ensures p <= f ==> h.ptr[p] <= f && p < h.ptr[p]
  {
    assert Link(h, p);
  }

  lemma AllSmall(h: Heap, f: nat, n: nat)
    requires Inv(h) && f in h.free && h.size[f] < n
    requires forall x | x in h.free && Between(f, f, x) :: x in h.size && h.size[x] < n
    ensures !Fits(h, n)
  {
  }

  lemma NotBase(h: Heap, p: nat)
    requires Inv(h) && p in h.free && h.size[p] > 0
    ensures p != h.base && p !in h.live
  {
  }

  ghost function Above(h: Heap, p: nat): set<nat> { set f | f in h.free && p < f }

  lemma LiveAbove(h: Heap, b: nat)
    requires Inv(h) && b in h.live
    ensures h.base < b && b !in h.free && b in h.size && h.size[b] == h.live[b]
  {
    assert Owned(h, b, b);
  }

  lemma LinkAt(h: Heap, p: nat)
    requires Inv(h) && p in h.free
    ensures Link(h, p) && p in h.size && h.base <= p
  {
  }

  lemma AboveLess(h: Heap, p: nat)
    requires Link(h, p)
    ensures p < h.ptr[p] ==> |Above(h, h.ptr[p])| < |Above(h, p)|
  {
    if p < h.ptr[p] {
      assert Above(h, h.ptr[p]) < Above(h, p) by { assert h.ptr[p] in Above(h, p) - Above(h, h.ptr[p]); }
      SubsetSmaller(Above(h, h.ptr[p]), Above(h, p));
    }
  }

  lemma {:induction false} SubsetSmaller(a: set<nat>, b: set<nat>)
    requires a < b
    ensures |a| < |b|
  {
    var x :| x in b && x !in a;
    assert |b| == |b - {x}| + 1;
    if a != b - {x} {
      SubsetSmaller(a, b - {x});
    }
  }

  lemma FoundPlace(h: Heap, p: nat, b: nat)
    requires Inv(h) && p in h.free && Link(h, p) && h.base < b && b !in h.free
    requires (b > p && b < h.ptr[p]) || (p >= h.ptr[p] && (b > p || b < h.ptr[p]))
    ensures Below(h, p, b)
  {
  }
}
