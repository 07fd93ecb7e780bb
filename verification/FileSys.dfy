/** The block level of kernel/fs.c: the free bitmap, the block maps of inodes, and who owns each
    block.  The disk is the one the cache presents: every change of a buffer takes effect at once. */
module FileSys {
  import opened Bytes
  import opened WriteAheadLog

  const NDIRECT: nat := 12
  const NINDIRECT: nat := 256
  const MAXFILE: nat := 268
  const BPB: nat := 8192

  /** The parts of the superblock used here. */
  datatype Super = Super(size: nat, bmapstart: nat, inodestart: nat)

  /** An inode in memory: `addrs` are NDIRECT blocks and the indirect block, 0 for none. */
  datatype Inode = Inode(size: nat, addrs: seq<nat>)

  /** What a block in use is for: fixed by the layout, block `bn` of an inode, the indirect block of
      an inode, or just allocated. */
  datatype Place = Meta | Data(inum: nat, bn: nat) | Ind(inum: nat) | Loose

  datatype Fs = Fs(sb: Super, disk: Disk, ino: map<nat, Inode>, owner: map<nat, Place>)

  /** BBLOCK: the bitmap block with the bit for block `b`. */
  function BBlock(sb: Super, b: nat): nat { sb.bmapstart + b / BPB }

  /** The bit for block `b` in its bitmap block. */
  predicate BitIn(data: Block, b: nat) { Bit(data[b % BPB / 8], b % BPB % 8) }

  predicate Marked(sb: Super, disk: Disk, b: nat) { BitIn(At(disk, BBlock(sb, b)).data, b) }

  function Addr(n: Inode, bn: nat): nat { if bn < |n.addrs| then n.addrs[bn] else 0 }

  /** Entry `j` of the indirect block `b`. */
  function Entry(disk: Disk, b: nat, j: nat): nat
    requires j < NINDIRECT
  {
    Le32(At(disk, b).data, 4 * j)
  }

  /** The block that holds block `bn` of the inode, 0 for none: what bmap looks up. */
  function BlockOf(disk: Disk, n: Inode, bn: nat): nat
  {
    if bn < NDIRECT then Addr(n, bn)
    else if bn < MAXFILE && Addr(n, NDIRECT) != 0 then Entry(disk, Addr(n, NDIRECT), bn - NDIRECT)
    else 0
  }

  // ---------------------------------------------------------------------------
  // The invariant
  // ---------------------------------------------------------------------------

  ghost predicate Framed(f: Fs)
  {
    && 0 < f.sb.size == |f.disk| <= UINT32
    && 0 in f.owner && f.owner[0] == Meta
    && (forall b: nat | b < f.sb.size :: MetaAt(f, BBlock(f.sb, b)))
    && (forall b | b in f.owner :: b < f.sb.size)
    && (forall i | i in f.ino :: |f.ino[i].addrs| == NDIRECT + 1)
  }

  ghost predicate MetaAt(f: Fs, b: nat) { b in f.owner && f.owner[b] == Meta && b < |f.disk| }

  /** A block is marked in the bitmap exactly if it has an owner. */
  ghost predicate Bits(f: Fs) { forall b: nat | b < f.sb.size :: Marked(f.sb, f.disk, b) <==> b in f.owner }

  /** What an inode points to is its own. */
  ghost predicate PointsTo(f: Fs, i: nat, bn: nat)
    requires i in f.ino
  {
    var p := BlockOf(f.disk, f.ino[i], bn); p == 0 || (p in f.owner && f.owner[p] == Data(i, bn))
  }

  ghost predicate IndOwn(f: Fs, i: nat)
    requires i in f.ino
  {
    var p := Addr(f.ino[i], NDIRECT); p == 0 || (p in f.owner && f.owner[p] == Ind(i))
  }

  /** What a block's owner says is where it is found. */
  ghost predicate FoundAt(f: Fs, b: nat)
    requires b in f.owner
  {
    match f.owner[b]
    case Data(i, bn) => i in f.ino && bn < MAXFILE && BlockOf(f.disk, f.ino[i], bn) == b
    case Ind(i) => i in f.ino && Addr(f.ino[i], NDIRECT) == b
    case _ => true
  }

  ghost predicate Maps(f: Fs)
  {
    && (forall i, bn: nat | i in f.ino && bn < MAXFILE :: PointsTo(f, i, bn))
    && (forall i | i in f.ino :: IndOwn(f, i))
    && (forall b | b in f.owner :: FoundAt(f, b))
  }

  /** Every block below the size is there. */
  ghost predicate Whole(disk: Disk, n: Inode)
  {
    n.size <= MAXFILE * BSIZE && forall bn: nat | bn * BSIZE < n.size :: BlockOf(disk, n, bn) != 0
  }

  ghost predicate NoHoles(f: Fs) { forall i | i in f.ino :: Whole(f.disk, f.ino[i]) }

  ghost predicate Inv(f: Fs) { Framed(f) && Bits(f) && Maps(f) && NoHoles(f) }

  // ---------------------------------------------------------------------------
  // A new file system
  // ---------------------------------------------------------------------------

  /** How many blocks mkfs sets aside: boot, superblock, log, inodes and bitmap. */
  function MetaBlocks(size: nat, nlog: nat, ninode: nat): nat { 2 + nlog + ninode + (size / BPB + 1) }

  /** The superblock of mkfs, as far as it is used here. */
  function FreshSuper(size: nat, nlog: nat, ninode: nat): Super { Super(size, 2 + nlog + ninode, 2 + nlog) }

  /** The owners of a disk without files. */
  ghost function SetAside(meta: nat): (m: map<nat, Place>)
    ensures forall b :: b in m <==> 0 <= b < meta
    ensures forall b | b in m :: m[b] == Meta
  {
    if meta == 0 then map[] else SetAside(meta - 1)[meta - 1 := Meta]
  }

  function EmptyInode(): Inode { Inode(0, seq(NDIRECT + 1, _ => 0)) }

  /** A disk as mkfs lays it out, without files: zeroed but for the superblock and the first bitmap
      block. */
  ghost function FreshFs(size: nat, nlog: nat, ninode: nat, inums: set<nat>, super: Block, bits: Block): Fs
  {
    var sb, meta := FreshSuper(size, nlog, ninode), MetaBlocks(size, nlog, ninode);
    Fs(sb, FreshDisk(sb, super, bits), map i | i in inums :: EmptyInode(), SetAside(meta))
  }

  function FreshDisk(sb: Super, super: Block, bits: Block): Disk
  {
    seq(sb.size, b => Sector(if b == 1 then super else if b == sb.bmapstart then bits else ZeroBlock()))
  }

  lemma {:induction false} ZeroBit(k: nat)
    ensures !Bit(0, k)
  {
    if k > 0 {
      ZeroBit(k - 1);
    }
  }

  lemma FreshBit(sb: Super, super: Block, bits: Block, b: nat)
    requires 1 < sb.bmapstart && BBlock(sb, b) < sb.size
    ensures Marked(sb, FreshDisk(sb, super, bits), b) <==> b < BPB && BitIn(bits, b)
  {
    var d := FreshDisk(sb, super, bits);
    assert b < BPB <==> b / BPB == 0;
    assert At(d, BBlock(sb, b)).data == if b < BPB then bits else ZeroBlock();
    ZeroBit(b % BPB % 8);
  }

  lemma {:induction false} FreshMaps(f: Fs)
    requires forall i | i in f.ino :: f.ino[i] == EmptyInode()
    requires forall b | b in f.owner :: f.owner[b] == Meta
    ensures Maps(f) && NoHoles(f)
  {
    forall i, bn: nat | i in f.ino ensures BlockOf(f.disk, f.ino[i], bn) == 0 {
    }
    hide BlockOf;
  }

  lemma FreshLayout(size: nat, nlog: nat, ninode: nat, b: nat)
    requires MetaBlocks(size, nlog, ninode) <= size && b < size
    ensures 1 < BBlock(FreshSuper(size, nlog, ninode), b) < MetaBlocks(size, nlog, ninode)
  {
    assert b / BPB <= size / BPB;
  }

  /** The new file system satisfies the invariant if its bitmap marks the blocks mkfs has used, which
      must leave room in the first bitmap block. */
  lemma {:induction false} FreshInv(size: nat, nlog: nat, ninode: nat, inums: set<nat>, super: Block, bits: Block)
    requires MetaBlocks(size, nlog, ninode) <= size <= UINT32 && MetaBlocks(size, nlog, ninode) < BPB
    requires forall b: nat | b < BPB :: BitIn(bits, b) <==> b < MetaBlocks(size, nlog, ninode)
    ensures Inv(FreshFs(size, nlog, ninode, inums, super, bits))
  {
    hide FreshDisk, MetaBlocks, EmptyInode, BitIn, BBlock;
    var f := FreshFs(size, nlog, ninode, inums, super, bits);
    FreshMaps(f);
    hide Maps, NoHoles, Marked;
    forall b: nat | b < size ensures MetaAt(f, BBlock(f.sb, b)) && (Marked(f.sb, f.disk, b) <==> b in f.owner) {
      FreshLayout(size, nlog, ninode, b);
      FreshSize(f.sb, super, bits);
      FreshBit(f.sb, super, bits, b);
    }
    FreshSize(f.sb, super, bits);
    assert |EmptyInode().addrs| == NDIRECT + 1 by { EmptyAddrs(); }
    assert 0 < MetaBlocks(size, nlog, ninode) by { FreshPositive(size, nlog, ninode); }
  }

  lemma EmptyAddrs()
    ensures |EmptyInode().addrs| == NDIRECT + 1
  {
  }

  lemma FreshPositive(size: nat, nlog: nat, ninode: nat)
    ensures 0 < MetaBlocks(size, nlog, ninode)
  {
  }

  lemma FreshSize(sb: Super, super: Block, bits: Block)
    ensures |FreshDisk(sb, super, bits)| == sb.size
  {
  }

  /** balloc of mkfs: a bitmap block with the bits of the first `used` blocks set. */
  method MarkUsed(used: nat) returns (bits: Block)
    requires used < BPB
    ensures forall b: nat | b < BPB :: BitIn(bits, b) <==> b < used
  {
    bits := ZeroBlock();
    forall b: nat | b < BPB ensures !BitIn(bits, b) {
      ZeroBit(b % BPB % 8);
    }
    for i := 0 to used
      invariant forall b: nat | b < BPB :: BitIn(bits, b) <==> b < i
    {
      bits := WithBit(bits, i, true);
    }
  }

  // ---------------------------------------------------------------------------
  // The contents of a file
  // ---------------------------------------------------------------------------

  /** Byte `off` of the inode; where there is no block, 0. */
  function FileByte(disk: Disk, n: Inode, off: nat): byte
  {
    var p := BlockOf(disk, n, off / BSIZE); if p == 0 then 0 else At(disk, p).data[off % BSIZE]
  }

  /** No byte of any inode, and no size, differs. */
  ghost predicate SameFiles(f: Fs, g: Fs)
  {
    && f.ino.Keys == g.ino.Keys
    && forall i | i in f.ino :: SameFile(f.disk, f.ino[i], g.disk, g.ino[i])
  }

  ghost predicate SameFile(d: Disk, n: Inode, e: Disk, m: Inode)
  {
    m.size == n.size && forall off: nat :: FileByte(e, m, off) == FileByte(d, n, off)
  }

  // ---------------------------------------------------------------------------
  // Allocating a block
  // ---------------------------------------------------------------------------

  /** `data[bi/8] |= m` and `data[bi/8] &= ~m` for the bit of block `b`. */
  function WithBit(data: Block, b: nat, set1: bool): (r: Block)
    ensures forall c: nat | c / BPB == b / BPB :: BitIn(r, c) == if c == b then set1 else BitIn(data, c)
  {
    var k, j := b % BPB / 8, b % BPB % 8;
    SetBitByte(data[k], j);
    var r: Block := data[k := if set1 then SetBit(data[k], j) else ClearBit(data[k], j)];
    assert forall c: nat | c / BPB == b / BPB :: c % BPB / 8 == k && c % BPB % 8 == j <==> c == b;
    r
  }

  /** The disk with the bit of block `b` changed. */
  function MarkDisk(sb: Super, disk: Disk, b: nat, set1: bool): Disk
  {
    Put(disk, BBlock(sb, b), Sector(WithBit(At(disk, BBlock(sb, b)).data, b, set1)))
  }

  lemma MarkDiskBits(sb: Super, disk: Disk, b: nat, set1: bool, c: nat)
    requires BBlock(sb, b) < |disk|
    ensures Marked(sb, MarkDisk(sb, disk, b, set1), c) == if c == b then set1 else Marked(sb, disk, c)
  {
    hide BitIn;
    assert BBlock(sb, c) == BBlock(sb, b) <==> c / BPB == b / BPB;
  }

  /** balloc: the bit set, the block zeroed, the block in nobody's map yet. */
  function Alloced(f: Fs, b: nat): Fs
  {
    f.(disk := Put(MarkDisk(f.sb, f.disk, b, true), b, Sector(ZeroBlock())), owner := f.owner[b := Loose])
  }

  lemma AllocLayout(f: Fs, b: nat)
    requires Framed(f) && b < f.sb.size && b !in f.owner
    ensures Framed(Alloced(f, b))
  {
    var g := Alloced(f, b);
    hide BBlock, MarkDisk;
    assert |g.disk| == |f.disk| by { MarkSize(f.sb, f.disk, b, true); }
    forall c: nat | c < f.sb.size ensures MetaAt(g, BBlock(g.sb, c)) {
      assert MetaAt(f, BBlock(f.sb, c));
    }
  }

  lemma MarkSize(sb: Super, disk: Disk, b: nat, set1: bool)
    ensures |MarkDisk(sb, disk, b, set1)| == |disk|
    ensures forall c | c != BBlock(sb, b) :: At(MarkDisk(sb, disk, b, set1), c) == At(disk, c)
  {
  }

  lemma AllocBit(f: Fs, b: nat, c: nat)
    requires Framed(f) && b < f.sb.size && b !in f.owner && c < f.sb.size
    ensures Marked(f.sb, Alloced(f, b).disk, c) <==> c == b || Marked(f.sb, f.disk, c)
  {
    hide BBlock, MarkDisk, BitIn;
    assert MetaAt(f, BBlock(f.sb, b)) && MetaAt(f, BBlock(f.sb, c));
    MarkDiskBits(f.sb, f.disk, b, true, c);
  }

  lemma AllocBits(f: Fs, b: nat)
    requires Framed(f) && Bits(f) && b < f.sb.size && b !in f.owner
    ensures Bits(Alloced(f, b))
  {
    hide Framed, Marked;
    var g := Alloced(f, b);
    forall c: nat | c < f.sb.size ensures Marked(g.sb, g.disk, c) <==> c in g.owner {
      AllocBit(f, b, c);
      assert Marked(f.sb, f.disk, c) <==> c in f.owner;
    }
  }

  // ---------------------------------------------------------------------------
  // Changes that leave every file alone
  // ---------------------------------------------------------------------------

  predicate InMap(p: Place) { p.Data? || p.Ind? }

  /** The blocks of files, and which file each belongs to, are as they were. */
  ghost predicate Quiet(f: Fs, g: Fs)
  {
    && g.ino == f.ino
    && (forall b | b in f.owner && InMap(f.owner[b]) ::
          b in g.owner && g.owner[b] == f.owner[b] && At(g.disk, b) == At(f.disk, b))
    && forall b | b in g.owner && InMap(g.owner[b]) :: b in f.owner && f.owner[b] == g.owner[b]
  }

  lemma QuietLookup(f: Fs, g: Fs, i: nat, bn: nat)
    requires Quiet(f, g) && i in f.ino && IndOwn(f, i)
    ensures BlockOf(g.disk, g.ino[i], bn) == BlockOf(f.disk, f.ino[i], bn)
  {
  }

  lemma QuietMaps(f: Fs, g: Fs)
    requires Quiet(f, g) && Maps(f)
    ensures Maps(g)
  {
    forall i, bn: nat | i in g.ino && bn < MAXFILE ensures PointsTo(g, i, bn) {
      assert PointsTo(f, i, bn) && IndOwn(f, i);
      QuietLookup(f, g, i, bn);
    }
    forall i | i in g.ino ensures IndOwn(g, i) {
      assert IndOwn(f, i);
    }
    forall b | b in g.owner ensures FoundAt(g, b) {
      if InMap(g.owner[b]) {
        assert FoundAt(f, b);
        if g.owner[b].Data? {
          assert IndOwn(f, g.owner[b].inum);
          QuietLookup(f, g, g.owner[b].inum, g.owner[b].bn);
        }
      }
    }
  }

  lemma QuietFiles(f: Fs, g: Fs)
    requires Quiet(f, g) && Maps(f) && NoHoles(f)
    ensures NoHoles(g) && SameFiles(f, g)
  {
    forall i | i in f.ino ensures Whole(g.disk, g.ino[i]) && SameFile(f.disk, f.ino[i], g.disk, g.ino[i]) {
      assert IndOwn(f, i) && Whole(f.disk, f.ino[i]);
      forall bn: nat ensures BlockOf(g.disk, g.ino[i], bn) == BlockOf(f.disk, f.ino[i], bn) {
        QuietLookup(f, g, i, bn);
      }
      forall off: nat ensures FileByte(g.disk, g.ino[i], off) == FileByte(f.disk, f.ino[i], off) {
        if off / BSIZE < MAXFILE {
          assert PointsTo(f, i, off / BSIZE);
        }
      }
    }
  }

  lemma AllocQuiet(f: Fs, b: nat)
    requires Framed(f) && b < f.sb.size && b !in f.owner
    ensures Quiet(f, Alloced(f, b))
  {
    hide BBlock;
    assert MetaAt(f, BBlock(f.sb, b));
    MarkSize(f.sb, f.disk, b, true);
    hide MarkDisk;
  }

  /** balloc keeps the invariant and no file changes. */
  lemma AllocKeeps(f: Fs, b: nat)
    requires Inv(f) && b < f.sb.size && b !in f.owner
    ensures Inv(Alloced(f, b)) && SameFiles(f, Alloced(f, b))
  {
    var g := Alloced(f, b);
    AllocLayout(f, b);
    AllocBits(f, b);
    AllocQuiet(f, b);
    hide Framed, Bits, Maps, NoHoles, Quiet, Alloced, SameFiles;
    QuietMaps(f, g);
    QuietFiles(f, g);
  }

  /** bfree of a block that is in nobody's map. */
  function Freed(f: Fs, b: nat): Fs
  {
    f.(disk := MarkDisk(f.sb, f.disk, b, false), owner := f.owner - {b})
  }

  lemma FreeLayout(f: Fs, b: nat)
    requires Framed(f) && b in f.owner && f.owner[b] == Loose
    ensures Framed(Freed(f, b))
  {
    var g := Freed(f, b);
    hide BBlock, MarkDisk;
    assert |g.disk| == |f.disk| by { MarkSize(f.sb, f.disk, b, false); }
    forall c: nat | c < f.sb.size ensures MetaAt(g, BBlock(g.sb, c)) {
      assert MetaAt(f, BBlock(f.sb, c));
    }
  }

  lemma FreeBits(f: Fs, b: nat)
    requires Framed(f) && Bits(f) && b in f.owner && f.owner[b] == Loose
    ensures Bits(Freed(f, b))
  {
    hide Marked, MarkDisk, BBlock;
    var g := Freed(f, b);
    assert MetaAt(f, BBlock(f.sb, b));
    forall c: nat | c < f.sb.size ensures Marked(g.sb, g.disk, c) <==> c in g.owner {
      MarkDiskBits(f.sb, f.disk, b, false, c);
      assert Marked(f.sb, f.disk, c) <==> c in f.owner;
    }
  }

  lemma FreeQuiet(f: Fs, b: nat)
    requires Framed(f) && b in f.owner && f.owner[b] == Loose
    ensures Quiet(f, Freed(f, b))
  {
    hide BBlock;
    assert MetaAt(f, BBlock(f.sb, b));
    MarkSize(f.sb, f.disk, b, false);
    hide MarkDisk;
  }

  lemma FreeKeeps(f: Fs, b: nat)
    requires Inv(f) && b in f.owner && f.owner[b] == Loose
    ensures Inv(Freed(f, b)) && SameFiles(f, Freed(f, b)) && Marked(f.sb, f.disk, b)
  {
    var g := Freed(f, b);
    assert Marked(f.sb, f.disk, b);
    FreeLayout(f, b);
    FreeBits(f, b);
    FreeQuiet(f, b);
    hide Framed, Bits, Maps, NoHoles, Quiet, Freed, SameFiles;
    QuietMaps(f, g);
    QuietFiles(f, g);
  }

  // ---------------------------------------------------------------------------
  // Entering a block in a map
  // ---------------------------------------------------------------------------

  /** The owners change only among the blocks of files, and no fixed block is written. */
  ghost predicate Settled(f: Fs, g: Fs)
  {
    && g.sb == f.sb && |g.disk| == |f.disk| && g.ino.Keys == f.ino.Keys && g.owner.Keys == f.owner.Keys
    && (forall i | i in f.ino :: |g.ino[i].addrs| == |f.ino[i].addrs|)
    && (forall b | b in f.owner && f.owner[b] == Meta :: g.owner[b] == Meta && At(g.disk, b) == At(f.disk, b))
  }

  lemma SettledBit(f: Fs, g: Fs, c: nat)
    requires Settled(f, g) && MetaAt(f, BBlock(f.sb, c))
    ensures MetaAt(g, BBlock(g.sb, c)) && (Marked(g.sb, g.disk, c) <==> Marked(f.sb, f.disk, c))
  {
    hide BBlock, BitIn;
  }

  lemma SettledKeeps(f: Fs, g: Fs)
    requires Settled(f, g) && Framed(f) && Bits(f)
    ensures Framed(g) && Bits(g)
  {
    hide BBlock, Marked, MetaAt;
    forall c: nat | c < f.sb.size ensures MetaAt(g, BBlock(g.sb, c)) && (Marked(g.sb, g.disk, c) <==> c in g.owner) {
      assert MetaAt(f, BBlock(f.sb, c));
      assert Marked(f.sb, f.disk, c) <==> c in f.owner;
      SettledBit(f, g, c);
    }
  }

  predicate ZeroAt(disk: Disk, b: nat) { At(disk, b) == Sector(ZeroBlock()) }

  /** A loose, zeroed block becomes block `bn` of inode `i`, which had none there. */
  ghost predicate Entered(f: Fs, g: Fs, i: nat, bn: nat, b: nat)
  {
    && i in f.ino && bn < MAXFILE && BlockOf(f.disk, f.ino[i], bn) == 0
    && 0 in f.owner && f.owner[0] == Meta
    && 0 < b && b in f.owner && f.owner[b] == Loose && ZeroAt(f.disk, b) && ZeroAt(g.disk, b)
    && g.owner == f.owner[b := Data(i, bn)] && g.ino.Keys == f.ino.Keys
    && (forall k | k in f.ino :: g.ino[k].size == f.ino[k].size && Addr(g.ino[k], NDIRECT) == Addr(f.ino[k], NDIRECT))
    && (forall k, x: nat | k in f.ino && x < MAXFILE :: Moved(f, g, i, bn, b, k, x))
    && (forall c | c in f.owner && f.owner[c].Data? :: At(g.disk, c) == At(f.disk, c))
  }

  ghost predicate Moved(f: Fs, g: Fs, i: nat, bn: nat, b: nat, k: nat, x: nat)
    requires k in f.ino && k in g.ino
  {
    BlockOf(g.disk, g.ino[k], x) == if k == i && x == bn then b else BlockOf(f.disk, f.ino[k], x)
  }

  lemma EnteredMaps(f: Fs, g: Fs, i: nat, bn: nat, b: nat)
    requires Entered(f, g, i, bn, b) && Maps(f)
    ensures Maps(g)
  {
    hide BlockOf;
    forall k, x: nat | k in g.ino && x < MAXFILE ensures PointsTo(g, k, x) {
      assert PointsTo(f, k, x) && Moved(f, g, i, bn, b, k, x);
    }
    forall k | k in g.ino ensures IndOwn(g, k) {
      assert IndOwn(f, k);
    }
    forall c | c in g.owner ensures FoundAt(g, c) {
      assert FoundAt(f, c);
      if g.owner[c].Data? && c != b {
        assert Moved(f, g, i, bn, b, g.owner[c].inum, g.owner[c].bn);
      }
      assert Moved(f, g, i, bn, b, i, bn);
    }
  }

  lemma EnteredFiles(f: Fs, g: Fs, i: nat, bn: nat, b: nat)
    requires Entered(f, g, i, bn, b) && Maps(f) && NoHoles(f)
    ensures NoHoles(g) && SameFiles(f, g)
  {
    forall k | k in f.ino ensures Whole(g.disk, g.ino[k]) && SameFile(f.disk, f.ino[k], g.disk, g.ino[k]) {
      assert Whole(f.disk, f.ino[k]);
      forall x: nat | x * BSIZE < g.ino[k].size ensures BlockOf(g.disk, g.ino[k], x) != 0 {
        assert Moved(f, g, i, bn, b, k, x);
      }
      forall off: nat ensures FileByte(g.disk, g.ino[k], off) == FileByte(f.disk, f.ino[k], off) {
        if off / BSIZE < MAXFILE {
          assert Moved(f, g, i, bn, b, k, off / BSIZE) && PointsTo(f, k, off / BSIZE);
        }
      }
    }
  }

  function WithAddr(f: Fs, i: nat, k: nat, b: nat): map<nat, Inode>
    requires i in f.ino && k < |f.ino[i].addrs|
  {
    f.ino[i := f.ino[i].(addrs := f.ino[i].addrs[k := b])]
  }

  /** ip->addrs[bn] = addr. */
  function SetDirect(f: Fs, i: nat, bn: nat, b: nat): Fs
    requires i in f.ino && bn < |f.ino[i].addrs|
  {
    f.(ino := WithAddr(f, i, bn, b), owner := f.owner[b := Data(i, bn)])
  }

  /** A block that can be entered in a map. */
  ghost predicate Fresh(f: Fs, b: nat)
  {
    && 0 in f.owner && f.owner[0] == Meta && 0 < b < |f.disk| <= UINT32
    && b in f.owner && f.owner[b] == Loose && ZeroAt(f.disk, b)
  }

  lemma SetDirectEnters(f: Fs, i: nat, bn: nat, b: nat)
    requires i in f.ino && bn < NDIRECT && |f.ino[i].addrs| == NDIRECT + 1 && Addr(f.ino[i], bn) == 0 && Fresh(f, b)
    ensures Settled(f, SetDirect(f, i, bn, b)) && Entered(f, SetDirect(f, i, bn, b), i, bn, b)
  {
    var g := SetDirect(f, i, bn, b);
    forall k, x: nat | k in f.ino && x < MAXFILE ensures Moved(f, g, i, bn, b, k, x) {
    }
  }

  lemma SetDirectKeeps(f: Fs, i: nat, bn: nat, b: nat)
    requires Inv(f) && i in f.ino && bn < NDIRECT && Addr(f.ino[i], bn) == 0 && Fresh(f, b)
    ensures |f.ino[i].addrs| == NDIRECT + 1
    ensures Inv(SetDirect(f, i, bn, b)) && SameFiles(f, SetDirect(f, i, bn, b))
  {
    assert |f.ino[i].addrs| == NDIRECT + 1 by { hide Bits, Maps, NoHoles; }
    var g := SetDirect(f, i, bn, b);
    hide Framed, Bits, Maps, NoHoles, SameFiles, Settled, Entered, SetDirect, Fresh;
    SetDirectEnters(f, i, bn, b);
    SettledKeeps(f, g);
    EnteredMaps(f, g, i, bn, b);
    EnteredFiles(f, g, i, bn, b);
  }

  /** a[j] = addr in the indirect block. */
  function SetEntry(f: Fs, i: nat, j: nat, b: nat): Fs
    requires i in f.ino && j < NINDIRECT
  {
    var p := Addr(f.ino[i], NDIRECT);
    f.(disk := Put(f.disk, p, Sector(PutLe32(At(f.disk, p).data, 4 * j, b))),
       owner := f.owner[b := Data(i, NDIRECT + j)])
  }

  lemma EntryAfter(data: Block, j: nat, b: nat, x: nat)
    requires j < NINDIRECT && x < NINDIRECT && b < UINT32
    ensures Le32(PutLe32(data, 4 * j, b), 4 * x) == if x == j then b else Le32(data, 4 * x)
  {
    hide PutLe32;
  }

  lemma SetEntryMoved(f: Fs, i: nat, j: nat, b: nat, k: nat, x: nat)
    requires i in f.ino && k in f.ino && j < NINDIRECT && x < MAXFILE && IndOwn(f, i) && IndOwn(f, k)
    requires 0 < Addr(f.ino[i], NDIRECT) < |f.disk| && b < UINT32
    ensures Moved(f, SetEntry(f, i, j, b), i, NDIRECT + j, b, k, x)
  {
    if x >= NDIRECT && k == i {
      EntryAfter(At(f.disk, Addr(f.ino[i], NDIRECT)).data, j, b, x - NDIRECT);
    }
    hide PutLe32;
  }

  lemma SetEntryEnters(f: Fs, i: nat, j: nat, bn: nat, b: nat)
    requires i in f.ino && j < NINDIRECT && bn == NDIRECT + j && 0 < Addr(f.ino[i], NDIRECT) < |f.disk| && IndOwn(f, i)
    requires BlockOf(f.disk, f.ino[i], bn) == 0 && Fresh(f, b) && forall k | k in f.ino :: IndOwn(f, k)
    ensures Settled(f, SetEntry(f, i, j, b)) && Entered(f, SetEntry(f, i, j, b), i, bn, b)
  {
    var g := SetEntry(f, i, j, b);
    forall k, x: nat | k in f.ino && x < MAXFILE ensures Moved(f, g, i, bn, b, k, x) {
      assert IndOwn(f, k);
      SetEntryMoved(f, i, j, b, k, x);
    }
    hide PutLe32, Moved, BlockOf;
  }

  lemma SetEntryKeeps(f: Fs, i: nat, j: nat, b: nat)
    requires Inv(f) && i in f.ino && j < NINDIRECT && Addr(f.ino[i], NDIRECT) != 0
    requires BlockOf(f.disk, f.ino[i], NDIRECT + j) == 0 && Fresh(f, b)
    ensures Inv(SetEntry(f, i, j, b)) && SameFiles(f, SetEntry(f, i, j, b))
  {
    var g, p := SetEntry(f, i, j, b), Addr(f.ino[i], NDIRECT);
    assert IndOwn(f, i) && p < |f.disk| by { hide Bits, NoHoles, PointsTo, FoundAt; }
    hide Framed, Bits, PointsTo, IndOwn, FoundAt, NoHoles, SameFiles, Settled, Entered, SetEntry, Fresh, BlockOf;
    SetEntryEnters(f, i, j, NDIRECT + j, b);
    hide Maps;
    SettledKeeps(f, g);
    EnteredMaps(f, g, i, NDIRECT + j, b);
    EnteredFiles(f, g, i, NDIRECT + j, b);
  }

  /** ip->addrs[NDIRECT] = addr: a zeroed block has no entries. */
  function SetInd(f: Fs, i: nat, b: nat): Fs
    requires i in f.ino && NDIRECT < |f.ino[i].addrs|
  {
    f.(ino := WithAddr(f, i, NDIRECT, b), owner := f.owner[b := Ind(i)])
  }

  lemma SetIndLookup(f: Fs, i: nat, b: nat, k: nat, x: nat)
    requires i in f.ino && k in f.ino && |f.ino[i].addrs| == NDIRECT + 1 && Addr(f.ino[i], NDIRECT) == 0 && Fresh(f, b)
    ensures BlockOf(f.disk, SetInd(f, i, b).ino[k], x) == BlockOf(f.disk, f.ino[k], x)
  {
  }

  lemma SetIndMaps(f: Fs, i: nat, b: nat)
    requires Maps(f) && i in f.ino && |f.ino[i].addrs| == NDIRECT + 1 && Addr(f.ino[i], NDIRECT) == 0 && Fresh(f, b)
    ensures Maps(SetInd(f, i, b))
  {
    var g := SetInd(f, i, b);
    hide BlockOf;
    forall k, x: nat | k in g.ino && x < MAXFILE ensures PointsTo(g, k, x) {
      assert PointsTo(f, k, x);
      SetIndLookup(f, i, b, k, x);
    }
    forall k | k in g.ino ensures IndOwn(g, k) {
      assert IndOwn(f, k);
    }
    forall c | c in g.owner ensures FoundAt(g, c) {
      assert FoundAt(f, c);
      if f.owner[c].Data? {
        SetIndLookup(f, i, b, f.owner[c].inum, f.owner[c].bn);
      }
    }
  }

  lemma SetIndFiles(f: Fs, i: nat, b: nat)
    requires NoHoles(f) && i in f.ino && |f.ino[i].addrs| == NDIRECT + 1 && Addr(f.ino[i], NDIRECT) == 0 && Fresh(f, b)
    ensures NoHoles(SetInd(f, i, b)) && SameFiles(f, SetInd(f, i, b))
  {
    var g := SetInd(f, i, b);
    hide BlockOf;
    forall k | k in f.ino ensures Whole(g.disk, g.ino[k]) && SameFile(f.disk, f.ino[k], g.disk, g.ino[k]) {
      assert Whole(f.disk, f.ino[k]);
      forall x: nat ensures BlockOf(g.disk, g.ino[k], x) == BlockOf(f.disk, f.ino[k], x) {
        SetIndLookup(f, i, b, k, x);
      }
    }
  }

  lemma SetIndSettles(f: Fs, i: nat, b: nat)
    requires i in f.ino && NDIRECT < |f.ino[i].addrs| && b in f.owner && f.owner[b] == Loose
    ensures Settled(f, SetInd(f, i, b))
  {
  }

  lemma SetIndKeeps(f: Fs, i: nat, b: nat)
    requires Inv(f) && i in f.ino && Addr(f.ino[i], NDIRECT) == 0 && Fresh(f, b)
    ensures |f.ino[i].addrs| == NDIRECT + 1
    ensures Inv(SetInd(f, i, b)) && SameFiles(f, SetInd(f, i, b))
  {
    assert |f.ino[i].addrs| == NDIRECT + 1 by { hide Bits, Maps, NoHoles; }
    var g := SetInd(f, i, b);
    SetIndSettles(f, i, b);
    hide Framed, Bits, Maps, NoHoles, SameFiles, Settled, SetInd, Fresh;
    SetIndMaps(f, i, b);
    SetIndFiles(f, i, b);
    SettledKeeps(f, g);
  }

  // ---------------------------------------------------------------------------
  // Writing the bytes of a file
  // ---------------------------------------------------------------------------

  function Wrote(f: Fs, p: nat, data: Block): Fs { f.(disk := Put(f.disk, p, Sector(data))) }

  ghost predicate IsData(f: Fs, p: nat, i: nat, bn: nat) { p in f.owner && f.owner[p] == Data(i, bn) && p < |f.disk| }

  lemma WroteLookup(f: Fs, p: nat, data: Block, i: nat, bn: nat, k: nat, x: nat)
    requires IsData(f, p, i, bn) && k in f.ino && IndOwn(f, k)
    ensures BlockOf(Wrote(f, p, data).disk, f.ino[k], x) == BlockOf(f.disk, f.ino[k], x)
  {
  }

  lemma WroteMaps(f: Fs, p: nat, data: Block, i: nat, bn: nat)
    requires Maps(f) && IsData(f, p, i, bn)
    ensures Maps(Wrote(f, p, data))
  {
    var g := Wrote(f, p, data);
    hide BlockOf;
    forall k, x: nat | k in g.ino && x < MAXFILE ensures PointsTo(g, k, x) {
      assert PointsTo(f, k, x) && IndOwn(f, k);
      WroteLookup(f, p, data, i, bn, k, x);
    }
    forall k | k in g.ino ensures IndOwn(g, k) {
      assert IndOwn(f, k);
    }
    forall c | c in g.owner ensures FoundAt(g, c) {
      assert FoundAt(f, c);
      if f.owner[c].Data? {
        assert IndOwn(f, f.owner[c].inum);
        WroteLookup(f, p, data, i, bn, f.owner[c].inum, f.owner[c].bn);
      }
    }
  }

  lemma WroteHoles(f: Fs, p: nat, data: Block, i: nat, bn: nat)
    requires Maps(f) && NoHoles(f) && IsData(f, p, i, bn)
    ensures NoHoles(Wrote(f, p, data))
  {
    var g := Wrote(f, p, data);
    hide BlockOf;
    forall k | k in f.ino ensures Whole(g.disk, g.ino[k]) {
      assert Whole(f.disk, f.ino[k]) && IndOwn(f, k);
      forall x: nat | x * BSIZE < f.ino[k].size ensures BlockOf(g.disk, g.ino[k], x) != 0 {
        WroteLookup(f, p, data, i, bn, k, x);
      }
    }
  }

  /** The bytes of block `bn` of inode `i` are the new ones, and no other byte of any file changes. */
  lemma WroteByte(f: Fs, p: nat, data: Block, i: nat, bn: nat, k: nat, off: nat)
    requires Maps(f) && IsData(f, p, i, bn) && k in f.ino && 0 < p
    ensures FileByte(Wrote(f, p, data).disk, f.ino[k], off)
            == if k == i && off / BSIZE == bn then data[off % BSIZE] else FileByte(f.disk, f.ino[k], off)
  {
    assert IndOwn(f, k) && FoundAt(f, p);
    WroteLookup(f, p, data, i, bn, k, off / BSIZE);
    if off / BSIZE < MAXFILE {
      assert PointsTo(f, k, off / BSIZE);
    }
    hide BlockOf, Maps;
  }

  lemma WroteKeeps(f: Fs, p: nat, data: Block, i: nat, bn: nat)
    requires Inv(f) && IsData(f, p, i, bn)
    ensures Inv(Wrote(f, p, data))
  {
    var g := Wrote(f, p, data);
    assert Settled(f, g) by { hide Framed, Bits, Maps, NoHoles; }
    hide Framed, Bits, Maps, NoHoles, Settled, IsData;
    WroteMaps(f, p, data, i, bn);
    WroteHoles(f, p, data, i, bn);
    SettledKeeps(f, g);
  }

  function Resized(f: Fs, i: nat, n: nat): Fs
    requires i in f.ino
  {
    f.(ino := f.ino[i := f.ino[i].(size := n)])
  }

  lemma ResizedLookup(f: Fs, i: nat, n: nat, k: nat, x: nat)
    requires i in f.ino && k in f.ino
    ensures BlockOf(f.disk, Resized(f, i, n).ino[k], x) == BlockOf(f.disk, f.ino[k], x)
  {
  }

  lemma ResizedMaps(f: Fs, i: nat, n: nat)
    requires Maps(f) && i in f.ino
    ensures Maps(Resized(f, i, n))
  {
    var g := Resized(f, i, n);
    hide BlockOf;
    forall k, x: nat | k in g.ino && x < MAXFILE ensures PointsTo(g, k, x) {
      assert PointsTo(f, k, x);
      ResizedLookup(f, i, n, k, x);
    }
    forall k | k in g.ino ensures IndOwn(g, k) {
      assert IndOwn(f, k);
    }
    forall c | c in g.owner ensures FoundAt(g, c) {
      assert FoundAt(f, c);
      if f.owner[c].Data? {
        ResizedLookup(f, i, n, f.owner[c].inum, f.owner[c].bn);
      }
    }
  }

  lemma ResizedHoles(f: Fs, i: nat, n: nat)
    requires NoHoles(f) && i in f.ino && Whole(f.disk, f.ino[i].(size := n))
    ensures NoHoles(Resized(f, i, n))
  {
    hide Whole;
  }

  lemma ResizedSettles(f: Fs, i: nat, n: nat)
    requires i in f.ino
    ensures Settled(f, Resized(f, i, n))
  {
  }

  lemma ResizedKeeps(f: Fs, i: nat, n: nat)
    requires Inv(f) && i in f.ino && Whole(f.disk, f.ino[i].(size := n))
    ensures Inv(Resized(f, i, n))
  {
    var g := Resized(f, i, n);
    hide Framed, Bits, Maps, NoHoles, Settled, Resized, Whole;
    ResizedSettles(f, i, n);
    ResizedMaps(f, i, n);
    ResizedHoles(f, i, n);
    SettledKeeps(f, g);
  }

  // ---------------------------------------------------------------------------
  // Truncating an inode
  // ---------------------------------------------------------------------------

  predicate Of(p: Place, i: nat) { (p.Data? || p.Ind?) && p.inum == i }

  /** The file system without inode `i`: its blocks are marked but in nobody's map. */
  function Detached(f: Fs, i: nat): Fs
  {
    f.(ino := f.ino - {i}, owner := map b | b in f.owner :: if Of(f.owner[b], i) then Loose else f.owner[b])
  }

  lemma DetachedMaps(f: Fs, i: nat)
    requires Maps(f)
    ensures Maps(Detached(f, i))
  {
    var g := Detached(f, i);
    hide BlockOf;
    forall k, x: nat | k in g.ino && x < MAXFILE ensures PointsTo(g, k, x) {
      assert PointsTo(f, k, x);
    }
    forall k | k in g.ino ensures IndOwn(g, k) {
      assert IndOwn(f, k);
    }
    forall c | c in g.owner ensures FoundAt(g, c) {
      assert FoundAt(f, c);
    }
  }

  lemma DetachedBits(f: Fs, i: nat)
    requires Bits(f)
    ensures Bits(Detached(f, i))
  {
    hide Marked;
    assert Detached(f, i).owner.Keys == f.owner.Keys;
  }

  lemma DetachedFramed(f: Fs, i: nat)
    requires Framed(f)
    ensures Framed(Detached(f, i))
  {
    var g := Detached(f, i);
    hide BBlock;
    assert g.owner.Keys == f.owner.Keys;
    forall b | b in f.owner && f.owner[b] == Meta ensures g.owner[b] == Meta {
    }
    hide Detached;
    forall c: nat | c < f.sb.size ensures MetaAt(g, BBlock(g.sb, c)) {
      assert MetaAt(f, BBlock(f.sb, c));
    }
  }

  lemma DetachedLayout(f: Fs, i: nat)
    requires Framed(f) && Bits(f)
    ensures Framed(Detached(f, i)) && Bits(Detached(f, i))
  {
    DetachedBits(f, i);
    DetachedFramed(f, i);
    hide *;
  }

  lemma DetachedKeeps(f: Fs, i: nat)
    requires Inv(f)
    ensures Inv(Detached(f, i))
  {
    DetachedMaps(f, i);
    DetachedLayout(f, i);
    assert NoHoles(Detached(f, i)) by { hide Framed, Bits, Maps; }
    hide Framed, Bits, Maps, NoHoles;
  }

  /** Inode `i` back, empty. */
  function Emptied(f: Fs, i: nat): Fs { f.(ino := f.ino[i := Inode(0, seq(NDIRECT + 1, _ => 0))]) }

  lemma EmptiedMaps(f: Fs, i: nat)
    requires Maps(f) && i !in f.ino
    ensures Maps(Emptied(f, i))
  {
    var g := Emptied(f, i);
    forall k, x: nat | k in g.ino && x < MAXFILE ensures PointsTo(g, k, x) {
      assert k != i ==> PointsTo(f, k, x);
    }
    forall k | k in g.ino ensures IndOwn(g, k) {
      assert k != i ==> IndOwn(f, k);
    }
    forall c | c in g.owner ensures FoundAt(g, c) {
      assert FoundAt(f, c);
    }
  }

  lemma EmptiedLayout(f: Fs, i: nat)
    requires Framed(f) && Bits(f)
    ensures Framed(Emptied(f, i)) && Bits(Emptied(f, i))
  {
    var g := Emptied(f, i);
    hide Marked, BBlock;
    forall c: nat | c < f.sb.size ensures MetaAt(g, BBlock(g.sb, c)) {
      assert MetaAt(f, BBlock(f.sb, c));
    }
    forall c: nat | c < f.sb.size ensures Marked(g.sb, g.disk, c) <==> c in g.owner {
      assert Marked(f.sb, f.disk, c) <==> c in f.owner;
    }
  }

  lemma EmptiedHoles(f: Fs, i: nat)
    requires NoHoles(f)
    ensures NoHoles(Emptied(f, i))
  {
    forall k | k in Emptied(f, i).ino ensures Whole(f.disk, Emptied(f, i).ino[k]) {
      assert k != i ==> Whole(f.disk, f.ino[k]);
    }
  }

  lemma EmptiedKeeps(f: Fs, i: nat)
    requires Inv(f) && i !in f.ino
    ensures Inv(Emptied(f, i))
  {
    hide Framed, Bits, Maps, NoHoles, Emptied;
    EmptiedMaps(f, i);
    EmptiedLayout(f, i);
    EmptiedHoles(f, i);
  }
}
