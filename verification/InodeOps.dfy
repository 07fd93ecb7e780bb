/** kernel/fs.c on the file system of module FileSys: balloc, bfree, bmap, itrunc, readi and writei,
    and the write loop of kernel/file.c.  `logged` collects the blocks passed to log_write. */
module InodeOps {
  import opened Common
  import opened Bytes
  import opened WriteAheadLog
  import opened FileSys

  /** No free block is left. */
  ghost predicate DiskFull(f: Fs) { forall b: nat | b < f.sb.size :: b in f.owner }

  /** The blocks of the bitmap. */
  ghost function Bitmap(sb: Super): set<nat> { set b: nat | b < sb.size :: BBlock(sb, b) }

  function NonZero(s: set<nat>): set<nat> { s - {0} }

  /** Blocks are only added to maps. */
  ghost predicate Grows(f: Fs, g: Fs)
  {
    && g.sb == f.sb && g.ino.Keys == f.ino.Keys
    && (forall k | k in f.ino && Addr(f.ino[k], NDIRECT) != 0 :: Addr(g.ino[k], NDIRECT) == Addr(f.ino[k], NDIRECT))
    && forall k, x: nat | k in f.ino && BlockOf(f.disk, f.ino[k], x) != 0 ::
         BlockOf(g.disk, g.ino[k], x) == BlockOf(f.disk, f.ino[k], x)
  }

  lemma GrowsTrans(f: Fs, g: Fs, h: Fs)
    requires Grows(f, g) && Grows(g, h)
    ensures Grows(f, h)
  {
    hide BlockOf;
    forall k, x: nat | k in f.ino && BlockOf(f.disk, f.ino[k], x) != 0
      ensures BlockOf(h.disk, h.ino[k], x) == BlockOf(f.disk, f.ino[k], x)
    {
      assert BlockOf(g.disk, g.ino[k], x) == BlockOf(f.disk, f.ino[k], x);
    }
  }

  lemma SameFilesTrans(f: Fs, g: Fs, h: Fs)
    requires SameFiles(f, g) && SameFiles(g, h)
    ensures SameFiles(f, h)
  {
    hide FileByte;
    forall i | i in f.ino ensures SameFile(f.disk, f.ino[i], h.disk, h.ino[i]) {
      assert SameFile(f.disk, f.ino[i], g.disk, g.ino[i]) && SameFile(g.disk, g.ino[i], h.disk, h.ino[i]);
      forall off: nat ensures FileByte(h.disk, h.ino[i], off) == FileByte(f.disk, f.ino[i], off) {
        assert FileByte(g.disk, g.ino[i], off) == FileByte(f.disk, f.ino[i], off);
      }
    }
  }

  lemma QuietGrows(f: Fs, g: Fs)
    requires Quiet(f, g) && Maps(f) && g.sb == f.sb
    ensures Grows(f, g)
  {
    hide BlockOf;
    forall k, x: nat | k in f.ino ensures BlockOf(g.disk, g.ino[k], x) == BlockOf(f.disk, f.ino[k], x) {
      assert IndOwn(f, k);
      QuietLookup(f, g, k, x);
    }
  }

  /** From disk `d0` to disk `d`, every block that changed is among the logged ones, which only grew. */
  ghost predicate Logs(d0: Disk, d: Disk, l0: set<nat>, l: set<nat>)
  {
    l0 <= l && |d| == |d0| && forall b: nat | At(d, b) != At(d0, b) :: b in l
  }

  lemma LogsTrans(d0: Disk, d1: Disk, d2: Disk, l0: set<nat>, l1: set<nat>, l2: set<nat>)
    requires Logs(d0, d1, l0, l1) && Logs(d1, d2, l1, l2)
    ensures Logs(d0, d2, l0, l2)
  {
    forall b: nat | At(d2, b) != At(d0, b) ensures b in l2 {
      assert At(d1, b) != At(d0, b) || At(d2, b) != At(d1, b);
    }
  }

  lemma LogsUnion(d0: Disk, d1: Disk, d2: Disk, all: set<nat>, l: set<nat>)
    requires Logs(d0, d1, {}, all) && Logs(d1, d2, {}, l)
    ensures Logs(d0, d2, {}, all + l)
  {
    forall b: nat | At(d2, b) != At(d0, b) ensures b in all + l {
      assert At(d1, b) != At(d0, b) || At(d2, b) != At(d1, b);
    }
  }

  lemma AllocLogs(f: Fs, b: nat, l: set<nat>)
    ensures Logs(f.disk, Alloced(f, b).disk, l, l + {BBlock(f.sb, b), b})
  {
    hide BBlock;
  }

  lemma FreeLogs(f: Fs, b: nat, l: set<nat>)
    ensures Logs(f.disk, Freed(f, b).disk, l, l + {BBlock(f.sb, b)})
  {
    hide BBlock;
  }

  /** The same, except perhaps for block `x`. */
  ghost predicate LogsBut(d0: Disk, d: Disk, l0: set<nat>, l: set<nat>, x: nat)
  {
    l0 <= l && |d| == |d0| && forall b: nat | At(d, b) != At(d0, b) && b != x :: b in l
  }

  lemma PutBut(d: Disk, b: nat, l: set<nat>)
    ensures LogsBut(d, d, l, l, b) && forall x: Sector :: LogsBut(d, Put(d, b, x), l, l, b)
  {
  }

  lemma LogsButTrans(d0: Disk, d1: Disk, d2: Disk, l0: set<nat>, l1: set<nat>, l2: set<nat>, x: nat)
    requires Logs(d0, d1, l0, l1) && LogsBut(d1, d2, l1, l2, x)
    ensures LogsBut(d0, d2, l0, l2, x)
  {
    forall b: nat | At(d2, b) != At(d0, b) && b != x ensures b in l2 {
      assert At(d1, b) != At(d0, b) || At(d2, b) != At(d1, b);
    }
  }

  lemma LogsSame(d: Disk, l: set<nat>)
    ensures Logs(d, d, l, l)
  {
  }

  lemma PutLogs(d: Disk, b: nat, x: Sector, l: set<nat>)
    ensures Logs(d, Put(d, b, x), l, l + {b})
  {
  }

  /** The most filewrite passes to one writei. */
  const CHUNK: nat := 3 * BSIZE

  /** `k` full chunks make `n` bytes. */
  predicate AllChunks(k: nat, n: nat) { n == k * CHUNK }

  /** `k` chunks, and no fewer, hold `n` bytes. */
  predicate InChunk(k: nat, n: nat) { (k - 1) * CHUNK < n <= k * CHUNK }

  /** `k` chunks hold `n` bytes, and all but the last of them are full. */
  predicate UpToChunk(k: nat, n: nat) { (k - 1) * CHUNK <= n <= k * CHUNK }

  lemma NoChunks()
    ensures AllChunks(0, 0)
  {
  }

  lemma NextCount(k: nat, n: nat, v: nat)
    requires AllChunks(k, n) && v <= CHUNK
    ensures UpToChunk(k + 1, n + v) && UpToChunk(k + 1, n)
    ensures v == CHUNK ==> AllChunks(k + 1, n + v)
    ensures v > 0 ==> InChunk(k + 1, n + v)
  {
  }

  /** `addr` is the block that holds byte `o` of inode `i`. */
  predicate BlockFor(f: Fs, i: nat, o: nat, addr: nat)
  {
    i in f.ino && o / BSIZE < MAXFILE && addr == BlockOf(f.disk, f.ino[i], o / BSIZE) != 0
  }

  class FileSystem {
    const sb: Super
    var disk: Disk
    var ino: map<nat, Inode>
    var dino: map<nat, Inode>             // the inodes on disk
    ghost var owner: map<nat, Place>
    ghost var logged: set<nat>

    ghost function View(): Fs
      reads this
    {
      Fs(sb, disk, ino, owner)
    }

    ghost predicate Valid()
      reads this
    {
      Inv(View())
    }

    /** The file system mkfs makes, before it adds files: its balloc marks the blocks set aside. */
    constructor (size: nat, nlog: nat, ninode: nat, inums: set<nat>, super: Block)
      requires MetaBlocks(size, nlog, ninode) <= size <= UINT32 && MetaBlocks(size, nlog, ninode) < BPB
      ensures Valid() && sb == FreshSuper(size, nlog, ninode) && ino.Keys == dino.Keys == inums && logged == {}
      ensures forall b :: b in owner <==> 0 <= b < MetaBlocks(size, nlog, ninode)
      ensures forall i | i in inums :: ino[i].size == 0 && dino[i] == ino[i]
    {
      hide Inv, FreshDisk, MetaBlocks, FreshSuper, BitIn;
      var used := MetaBlocks(size, nlog, ninode);
      var bits := MarkUsed(used);
      sb := FreshSuper(size, nlog, ninode);
      disk := FreshDisk(FreshSuper(size, nlog, ninode), super, bits);
      ino := map k | k in inums :: EmptyInode();
      dino := map k | k in inums :: EmptyInode();
      owner := SetAside(used);
      logged := {};
      FreshInv(size, nlog, ninode, inums, super, bits);
      new;
      assert View() == FreshFs(size, nlog, ninode, inums, super, bits);
    }

    /** The buffer of block `b` is changed and passed to log_write. */
    method LogWrite(b: nat, data: Block)
      modifies this`disk, this`logged
      ensures disk == Put(old(disk), b, Sector(data)) && logged == old(logged) + {b}
    {
      disk := Put(disk, b, Sector(data));
      logged := logged + {b};
    }

    /** The search of balloc: the first block whose bit is clear, 0 if there is none. */
    method FindFree() returns (r: nat)
      requires Valid()
      ensures r == 0 ==> DiskFull(View())
      ensures r != 0 ==> r < sb.size && r !in owner
    {
      hide Marked, Maps, NoHoles;
      var b := 0;
      while b < sb.size
        invariant b % BPB == 0 && forall c: nat | c < b && c < sb.size :: Marked(sb, disk, c)
        decreases sb.size - b
      {
        var bi := 0;
        while bi < BPB && b + bi < sb.size
          invariant bi <= BPB && forall c: nat | c < b + bi && c < sb.size :: Marked(sb, disk, c)
        {
          assert Marked(sb, disk, b + bi) <==> b + bi in owner;
          var data := At(disk, sb.bmapstart + b / BPB).data;
          BitOf(sb, disk, b, bi);
          if !Bit(data[bi / 8], bi % 8) {
            return b + bi;
          }
          bi := bi + 1;
        }
        b := b + BPB;
      }
      r := 0;
      forall c: nat | c < sb.size ensures c in owner {
        assert Marked(sb, disk, c);
      }
    }

    /** balloc: a zeroed block that was free, 0 if the disk is full. */
    method Balloc() returns (b: nat)
      requires Valid()
      modifies this`disk, this`owner, this`logged
      ensures Valid()
      ensures b == 0 ==> View() == old(View()) && logged == old(logged) && DiskFull(View())
      ensures b != 0 ==> b < sb.size && b !in old(owner) && View() == Alloced(old(View()), b)
                         && logged == old(logged) + {BBlock(sb, b), b}
      ensures Logs(old(disk), disk, old(logged), logged)
    {
      hide Inv, Logs;
      LogsSame(disk, logged);
      b := FindFree();
      if b != 0 {
        AllocKeeps(View(), b);
        AllocLogs(View(), b, logged);
        var data := At(disk, BBlock(sb, b)).data;
        LogWrite(BBlock(sb, b), WithBit(data, b, true));
        LogWrite(b, ZeroBlock());
        owner := owner[b := Loose];
      }
    }

    /** bfree of a block in nobody's map: "freeing free block" is not reached. */
    method Bfree(b: nat)
      requires Valid() && b in owner && owner[b] == Loose
      modifies this`disk, this`owner, this`logged
      ensures Valid() && View() == Freed(old(View()), b) && logged == old(logged) + {BBlock(sb, b)}
      ensures Logs(old(disk), disk, old(logged), logged)
    {
      hide Inv, Logs;
      FreeKeeps(View(), b);
      FreeLogs(View(), b, logged);
      var data := At(disk, BBlock(sb, b)).data;
      assert BitIn(data, b);
      LogWrite(BBlock(sb, b), WithBit(data, b, false));
      owner := owner - {b};
    }

    /** bmap for a direct block. */
    method BmapDirect(i: nat, bn: nat) returns (addr: nat)
      requires Valid() && i in ino && bn < NDIRECT
      modifies this`disk, this`ino, this`owner, this`logged
      ensures Valid() && Mapped(old(View()), View(), i, bn, addr)
      ensures logged <= old(logged) + Bitmap(sb) + NonZero({addr}) && Logs(old(disk), disk, old(logged), logged)
      ensures BlockOf(old(disk), old(ino)[i], bn) != 0 ==> logged == old(logged)
    {
      hide Inv, Mapped, Logs;
      LogsSame(disk, logged);
      AddrsSize(View(), i);
      addr := ino[i].addrs[bn];
      if addr != 0 {
        MappedSame(View(), i, bn);
        return;
      }
      ghost var f := View();
      addr := Balloc();
      if addr == 0 {
        MappedSame(f, i, bn);
        return 0;
      }
      InBitmap(sb, addr);
      AllocMapped(f, i, addr);
      SetDirectKeeps(View(), i, bn, addr);
      SetDirectMapped(f, View(), i, bn, addr);
      ino := ino[i := ino[i].(addrs := ino[i].addrs[bn := addr])];
      owner := owner[addr := Data(i, bn)];
    }

    /** The first half of bmap for an indirect block: the indirect block itself. */
    method LoadInd(i: nat) returns (addr: nat)
      requires Valid() && i in ino
      modifies this`disk, this`ino, this`owner, this`logged
      ensures Valid() && i in ino && addr == Addr(ino[i], NDIRECT)
      ensures SameFiles(old(View()), View()) && Grows(old(View()), View())
      ensures addr == 0 ==> DiskFull(View())
      ensures Addr(old(ino)[i], NDIRECT) != 0 ==> View() == old(View()) && logged == old(logged)
      ensures Addr(old(ino)[i], NDIRECT) == 0 ==> forall x: nat | NDIRECT <= x :: BlockOf(disk, ino[i], x) == 0
      ensures logged <= old(logged) + Bitmap(sb) + NonZero({addr}) && Logs(old(disk), disk, old(logged), logged)
    {
      hide Inv, SameFiles, Grows, BlockOf, DiskFull, Alloced, Logs;
      LogsSame(disk, logged);
      AddrsSize(View(), i);
      SameRefl(View());
      addr := ino[i].addrs[NDIRECT];
      if addr != 0 {
        return;
      }
      ghost var f := View();
      NoIndirect(disk, ino[i]);
      addr := Balloc();
      if addr == 0 {
        return 0;
      }
      InBitmap(sb, addr);
      AllocMapped(f, i, addr);
      AllocSame(f, addr);
      SetIndKeeps(View(), i, addr);
      SetIndMapped(f, View(), i, addr);
      ino := ino[i := ino[i].(addrs := ino[i].addrs[NDIRECT := addr])];
      owner := owner[addr := Ind(i)];
    }

    /** bmap for a block listed in the indirect block. */
    method BmapIndirect(i: nat, bn: nat) returns (addr: nat)
      requires Valid() && i in ino && NDIRECT <= bn < MAXFILE
      modifies this`disk, this`ino, this`owner, this`logged
      ensures Valid() && Mapped(old(View()), View(), i, bn, addr)
      ensures logged <= old(logged) + Bitmap(sb) + NonZero({addr, Addr(ino[i], NDIRECT)})
      ensures Logs(old(disk), disk, old(logged), logged)
      ensures BlockOf(old(disk), old(ino)[i], bn) != 0 ==> logged == old(logged)
    {
      hide Inv, SameFiles, Grows, Mapped, DiskFull, Alloced, BlockOf, Logs;
      ghost var f := View();
      assert Addr(ino[i], NDIRECT) == 0 ==> BlockOf(disk, ino[i], bn) == 0 by {
        if Addr(ino[i], NDIRECT) == 0 { NoIndirect(disk, ino[i]); }
      }
      var ind := LoadInd(i);
      ghost var g := View();
      if ind == 0 {
        LoadFailed(f, g, i, bn);
        return 0;
      }
      EntryIs(disk, ino[i], bn);
      var a := At(disk, ind).data;
      addr := Le32(a, 4 * (bn - NDIRECT));
      ghost var l1 := logged;
      if addr == 0 {
        addr := Balloc();
        LogsTrans(f.disk, g.disk, disk, old(logged), l1, logged);
        if addr == 0 {
          BallocFailed(f, g, i, bn);
          return 0;
        }
        InBitmap(sb, addr);
        AllocMapped(g, i, addr);
        AllocSame(g, addr);
        IndKept(g, addr, i);
        SetEntryKeeps(View(), i, bn - NDIRECT, addr);
        SetEntryMapped(f, g, View(), i, bn, addr);
        ghost var d2, l2 := disk, logged;
        LogWrite(ind, PutLe32(a, 4 * (bn - NDIRECT), addr));
        PutLogs(d2, ind, Sector(PutLe32(a, 4 * (bn - NDIRECT), addr)), l2);
        LogsTrans(f.disk, d2, disk, old(logged), l2, logged);
        owner := owner[addr := Data(i, bn)];
      } else {
        EntryFound(f, g, i, bn);
      }
    }

    /** bmap. */
    method Bmap(i: nat, bn: nat) returns (addr: nat)
      requires Valid() && i in ino && bn < MAXFILE
      modifies this`disk, this`ino, this`owner, this`logged
      ensures Valid() && Mapped(old(View()), View(), i, bn, addr)
      ensures logged <= old(logged) + Bitmap(sb) + NonZero({addr, Addr(ino[i], NDIRECT)})
      ensures Logs(old(disk), disk, old(logged), logged)
      ensures BlockOf(old(disk), old(ino)[i], bn) != 0 ==> logged == old(logged)
    {
      hide Inv, Mapped, Logs;
      if bn < NDIRECT {
        addr := BmapDirect(i, bn);
      } else {
        addr := BmapIndirect(i, bn);
      }
    }

    /** iupdate: the inode on disk becomes the one in memory. */
    method Iupdate(i: nat)
      requires i in ino
      modifies this`dino, this`logged
      ensures dino == old(dino)[i := ino[i]] && logged == old(logged) + {IBlock(sb, i)}
    {
      dino := dino[i := ino[i]];
      logged := logged + {IBlock(sb, i)};
    }

    /** readi into a destination of which the first `room` bytes can be written; `dst` is what is put
        there, None is -1.  It changes nothing, not even through bmap. */
    method Readi(i: nat, off: nat, n: nat, room: nat) returns (r: Option<nat>, dst: seq<byte>)
      requires Valid() && i in ino && off < UINT32 && n < UINT32
      modifies this`disk, this`ino, this`owner, this`logged
      ensures View() == old(View()) && logged == old(logged)
      ensures off > ino[i].size || off + n >= UINT32 ==> r == Some(0) && dst == []
      ensures off <= ino[i].size && off + n < UINT32 ==>
                var n1 := if off + n > ino[i].size then ino[i].size - off else n;
                && r == (if n1 <= room then Some(n1) else None)
                && |dst| == (if n1 <= room then n1 else room)
                && Reads(disk, ino[i], off, dst)
    {
      hide Inv, Mapped, Reads, BlockOf;
      if off > ino[i].size || (off + n) % UINT32 < off {
        return Some(0), [];
      }
      var n1 := if off + n > ino[i].size then ino[i].size - off else n;
      dst := [];
      ReadsNone(disk, ino[i], off);
      ghost var f := View();
      while |dst| < n1
        invariant View() == f && logged == old(logged) && |dst| <= n1 && |dst| <= room
        invariant Reads(disk, ino[i], off, dst)
      {
        var o := off + |dst|;
        WholeAt(f, i, o);
        var addr := Bmap(i, o / BSIZE);
        MappedWas(f, View(), i, o / BSIZE, addr);
        var m := if n1 - |dst| < BSIZE - o % BSIZE then n1 - |dst| else BSIZE - o % BSIZE;
        var k := if |dst| + m <= room then m else room - |dst|;
        ReadsMore(disk, ino[i], off, dst, addr, k);
        dst := dst + At(disk, addr).data[o % BSIZE..o % BSIZE + k];
        if k < m {
          return None, dst;
        }
      }
      r := Some(n1);
    }

    /** The buffer of the block at `addr` with `t` put in at offset `o`. */
    function Spliced(addr: nat, o: nat, t: seq<byte>): Block
      requires o + |t| <= BSIZE
      reads this`disk
    {
      SplicedAt(disk, addr, o, t)
    }

    /** The copy of the next `m` of `n` bytes into the block at `addr`, `tot` having been copied, when
        only `src` can be read.  If it fails, the bytes before the failure stay in the buffer, without
        log_write. */
    method CopyIn(i: nat, addr: nat, off: nat, src: seq<byte>, n: nat, tot: nat, ghost f: Fs) returns (turn: Turn)
      requires BlockFor(View(), i, off + tot, addr) && tot <= |src| <= n && tot < n
      requires Valid() && Progress(f, View(), i, off, src, tot)
      modifies this`disk, this`logged
      ensures BlockFor(View(), i, off + tot, addr)
      ensures logged <= old(logged) + {addr}
      ensures turn.Copied? || tot == |src| ==> Logs(old(disk), disk, old(logged), logged)
      ensures LogsBut(old(disk), disk, old(logged), logged, addr)
      ensures Valid() && After(f, View(), i, off, src, n, tot, turn) && !turn.Full?
    {
      hide Inv, Progress, BlockOf;
      PutBut(disk, addr, logged);
      var o := off + tot;
      ghost var h := View();
      var m := if n - tot < BSIZE - o % BSIZE then n - tot else BSIZE - o % BSIZE;
      NextTurn(off, tot, m, n);
      DataAt(h, i, o / BSIZE, addr);
      hide After, Splices, SplicedAt, IsData;
      var k := if tot + m > |src| then |src| - tot else m;
      var data := Spliced(addr, o % BSIZE, src[tot..tot + k]);
      StaysThere(h, i, addr, o / BSIZE, data);
      if k > 0 {
        SplicesAt(h, i, addr, off, src[..tot], src[tot..tot + k]);
      }
      if k < m {
        AfterFault(f, h, i, addr, off, src, n, tot, m, data);
        if k > 0 {
          disk := Put(disk, addr, Sector(data));
        }
        return Fault;
      }
      AfterCopy(f, h, i, addr, off, src, n, tot, m, data);
      PutLogs(disk, addr, Sector(data), logged);
      LogWrite(addr, data);
      turn := Copied(m);
    }

    /** One turn of the loop of writei, after `tot` of `n` bytes, of which only `src` can be read. */
    method WriteOne(i: nat, off: nat, src: seq<byte>, n: nat, tot: nat, ghost f: Fs)
      returns (turn: Turn, ghost b: nat)
      requires Valid() && |src| <= n && tot < n && off + n <= MAXFILE * BSIZE && Progress(f, View(), i, off, src, tot)
      modifies this`disk, this`ino, this`owner, this`logged
      ensures Valid() && i in ino && i in old(ino) && After(f, View(), i, off, src, n, tot, turn)
      ensures Addr(old(ino)[i], NDIRECT) == 0 || Addr(ino[i], NDIRECT) == Addr(old(ino)[i], NDIRECT)
      ensures logged <= old(logged) + Bitmap(sb) + NonZero({b, Addr(ino[i], NDIRECT)})
      ensures !turn.Fault? || tot == |src| ==> Logs(old(disk), disk, old(logged), logged)
      ensures turn.Fault? ==> LogsBut(old(disk), disk, old(logged), logged, BlockOf(disk, ino[i], (off + tot) / BSIZE))
    {
      hide Inv, Mapped, Progress, BlockOf, DiskFull, Bitmap, NonZero, Logs, LogsBut;
      ghost var g := View();
      TurnBound(off, tot, n);
      ProgressIn(f, g, i, off, src, tot);
      var addr := Bmap(i, (off + tot) / BSIZE);
      b := addr;
      ghost var d1, l1 := disk, logged;
      AfterBmap(f, g, View(), i, (off + tot) / BSIZE, addr, off, src, tot);
      if addr == 0 {
        return Full, b;
      }
      hide After;
      turn := CopyIn(i, addr, off, src, n, tot, f);
      LogsButTrans(g.disk, d1, disk, old(logged), l1, logged, addr);
      if turn.Copied? || tot == |src| {
        LogsTrans(g.disk, d1, disk, old(logged), l1, logged);
      }
      assert addr in NonZero({b, Addr(ino[i], NDIRECT)}) by { InNonZero(addr, Addr(ino[i], NDIRECT)); }
    }

    /** The loop of writei: `tot` bytes are written and `seen` of them show, which is more only after
        a copy that failed in the middle of a block. */
    method WriteBlocks(i: nat, off: nat, src: seq<byte>, n: nat)
      returns (tot: nat, ghost seen: nat, ghost blocks: set<nat>)
      requires Valid() && i in ino && off <= ino[i].size && |src| <= n && off + n <= MAXFILE * BSIZE
      modifies this`disk, this`ino, this`owner, this`logged
      ensures Valid() && i in ino && Progress(old(View()), View(), i, off, src, seen)
      ensures Stopped(View(), off, |src|, n, tot, seen)
      ensures logged <= old(logged) + Bitmap(sb) + blocks + NonZero({Addr(ino[i], NDIRECT)})
      ensures |blocks| <= Spans(off, n)
      ensures LoggedUpTo(old(View()), View(), i, old(logged), logged, off + tot, tot == seen)
    {
      hide Inv, Progress, DiskFull, Bitmap, NonZero, Spans, Logs, LogsBut, BlockOf;
      ghost var f := View();
      LogsSame(disk, logged);
      ProgressNone(f, i, off, src);
      tot, seen, blocks := 0, 0, {};
      ghost var turns := 0;
      while tot < n
        invariant seen == tot <= |src| && Valid() && i in ino && Progress(f, View(), i, off, src, tot)
        invariant |blocks| <= turns <= Spans(off, n)
        invariant tot < n ==> turns == (off + tot) / BSIZE - off / BSIZE && (tot == 0 || (off + tot) % BSIZE == 0)
        invariant logged <= old(logged) + Bitmap(sb) + blocks + NonZero({Addr(ino[i], NDIRECT)})
        invariant Logs(f.disk, disk, old(logged), logged)
        decreases n - tot
      {
        TurnBound(off, tot, n);
        ghost var d, l, ind0 := disk, logged, Addr(ino[i], NDIRECT);
        var turn, b := WriteOne(i, off, src, n, tot, f);
        AddBlock(blocks, b);
        AddLogged(old(logged), l, logged, Bitmap(sb), blocks, b, ind0, Addr(ino[i], NDIRECT));
        blocks, turns := blocks + NonZero({b}), turns + 1;
        if turn.Fault? {
          WholeIs(off, tot, |src|);
          seen := |src|;
          if tot == |src| {
            LogsTrans(f.disk, d, disk, old(logged), l, logged);
          }
          LogsButTrans(f.disk, d, disk, old(logged), l, logged, BlockOf(disk, ino[i], (off + tot) / BSIZE));
          break;
        }
        LogsTrans(f.disk, d, disk, old(logged), l, logged);
        if turn.Full? {
          break;
        }
        tot := tot + turn.m;
        seen := tot;
      }
    }

    /** writei of `n` bytes from a source of which only `src` can be read; None is -1. */
    method Writei(i: nat, off: nat, src: seq<byte>, n: nat) returns (r: Option<nat>, ghost seen: nat)
      requires Valid() && i in ino && off < UINT32 && |src| <= n < UINT32
      modifies this`disk, this`ino, this`dino, this`owner, this`logged
      ensures Valid() && i in ino && seen <= |src|
      ensures r.None? <==> off > old(ino)[i].size || off + n > MAXFILE * BSIZE
      ensures r.None? ==> View() == old(View()) && logged == old(logged) && dino == old(dino) && seen == 0
      ensures r.Some? ==> && Stopped(View(), off, |src|, n, r.value, seen)
                          && WrittenTo(old(View()), View(), i, off, src[..seen], r.value)
                          && dino == old(dino)[i := ino[i]] && IBlock(sb, i) in logged
                          && LoggedUpTo(old(View()), View(), i, old(logged), logged, off + r.value, r.value == seen)
      ensures |logged| <= |old(logged)| + Spans(off, n) + |Bitmap(sb)| + 2
    {
      hide Inv, Progress, DiskFull, Bitmap, NonZero, Spans, Whole, WrittenTo, Logs, LogsBut, LoggedUpTo;
      if off > ino[i].size || (off + n) % UINT32 < off {
        return None, 0;
      }
      if (off + n) % UINT32 > MAXFILE * BSIZE {
        return None, 0;
      }
      ghost var f := View();
      var tot, seen1, blocks := WriteBlocks(i, off, src, n);
      seen := seen1;
      ghost var g, size := View(), if off + tot > ino[i].size then off + tot else ino[i].size;
      GrownSize(f, g, i, off, src, seen, tot, size);
      ResizedKeeps(g, i, size);
      assert size == ino[i].size ==> Resized(g, i, size) == g by { SameSize(g, i); }
      if off + tot > ino[i].size {
        ino := ino[i := ino[i].(size := off + tot)];
      }
      ghost var l := logged;
      Iupdate(i);
      LoggedMore(f, g, View(), i, old(logged), l, logged, off + tot, tot == seen);
      LogBound(old(logged), logged, Bitmap(sb), blocks, Addr(ino[i], NDIRECT), IBlock(sb, i));
      FullSame(g, View());
      r := Some(tot);
    }

    /** The loop over an inode in filewrite, each chunk one operation on the log; `counts` is how many
        blocks each of them logged, `all` which blocks they logged, `done` how far the offset has moved. */
    method FileWrite(i: nat, off: nat, src: seq<byte>, n: nat)
      returns (ok: bool, done: nat, ghost seen: nat, ghost counts: seq<nat>, ghost all: set<nat>)
      requires Valid() && i in ino && off < UINT32 && |src| <= n < UINT32
      modifies this`disk, this`ino, this`dino, this`owner, this`logged
      ensures Valid() && done <= seen <= |src| && WrittenTo(old(View()), View(), i, off, src[..seen], done)
      ensures ok <==> done == n
      ensures |src| == n ==> seen == done
      ensures !ok ==> DiskFull(View()) || off > old(ino)[i].size || off + n > MAXFILE * BSIZE || |src| < n
      ensures sb.size <= BPB ==> forall k | 0 <= k < |counts| :: counts[k] <= MAXOPBLOCKS
      ensures done == seen ==> Logs(old(disk), disk, {}, all)
      ensures n > 0 ==> UpToChunk(|counts|, done)
      ensures ok && n > 0 ==> InChunk(|counts|, n)
    {
      hide Inv, DiskFull, Bitmap, Spans, WrittenTo, Logs, LogsBut, AllChunks, InChunk, UpToChunk;
      var max := (MAXOPBLOCKS - 1 - 1 - 2) / 2 * BSIZE;
      ghost var f := View();
      var at := off;
      done, seen, counts, all := 0, 0, [], {};
      LogsSame(disk, {});
      NoChunks();
      WrittenToNone(f, i, off);
      assert src[..0] == [];
      while done < n
        invariant Valid() && i in ino && done == seen <= |src| && at == off + done && sb == f.sb
        invariant WrittenTo(f, View(), i, off, src[..done], done)
        invariant done > 0 ==> at <= ino[i].size
        invariant done == 0 ==> View() == f
        invariant sb.size <= BPB ==> forall k | 0 <= k < |counts| :: counts[k] <= MAXOPBLOCKS
        invariant Logs(f.disk, disk, {}, all)
        invariant done <= n && if done < n then AllChunks(|counts|, done) else n == 0 || InChunk(|counts|, done)
        invariant done == n > 0 ==> UpToChunk(|counts|, done)
        decreases n - done
      {
        var n1 := if n - done > max then max else n - done;
        var end := if done + n1 <= |src| then done + n1 else |src|;
        SizeBound(View(), i);
        logged := {};
        ghost var g := View();
        var r, part := Writei(i, at, src[done..end], n1);
        NextCount(|counts|, done, if r.Some? then r.value else 0);
        counts := counts + [|logged|];
        ChunkFits(sb, at, n1);
        if r.None? {
          break;
        }
        if r.value == part {
          LogsUnion(f.disk, g.disk, disk, all, logged);
        }
        all := all + logged;
        NextChunk(f, g, View(), i, off, src, done, end, part, r.value);
        at := at + r.value;
        done, seen := done + r.value, done + part;
        if r.value != n1 {
          break;
        }
      }
      ok := done == n;
    }

    /** The first loop of itrunc, and one turn of the second: block `k` of the inode, if there is one,
        is freed. */
    method FreeBlock(ghost f: Fs, ghost i: nat, b: nat, ghost k: nat)
      requires Valid() && View() == Detached(f, i).(disk := disk, owner := Left(f, i, k)) && Inv(f) && i in f.ino
      requires k < MAXFILE && b == BlockOf(f.disk, f.ino[i], k)
      modifies this`disk, this`owner, this`logged
      ensures Valid() && View() == Detached(f, i).(disk := disk, owner := Left(f, i, k + 1))
      ensures SameFiles(old(View()), View()) && logged <= old(logged) + Bitmap(sb)
      ensures Logs(old(disk), disk, old(logged), logged)
      ensures forall c | c in owner && owner[c] == Loose :: At(disk, c) == At(old(disk), c)
    {
      hide Inv, SameFiles, BlockOf, Logs;
      LogsSame(disk, logged);
      LeftStep(f, i, k);
      if b != 0 {
        LeftLoose(f, i, k, b);
        FreeKeeps(View(), b);
        InBitmap(sb, b);
        FreedKeepsLoose(View(), b);
        Bfree(b);
      } else {
        SameRefl(View());
      }
    }

    /** The blocks listed in the indirect block, and the indirect block: the second half of itrunc. */
    method FreeIndirect(ghost f: Fs, ghost i: nat, ind: nat)
      requires Valid() && Inv(f) && i in f.ino && ind == Addr(f.ino[i], NDIRECT) != 0
      requires View() == Detached(f, i).(disk := disk, owner := Left(f, i, NDIRECT)) && At(disk, ind) == At(f.disk, ind)
      modifies this`disk, this`owner, this`logged
      ensures Valid() && View() == Detached(f, i).(disk := disk, owner := Without(f, i))
      ensures SameFiles(old(View()), View()) && logged <= old(logged) + Bitmap(sb)
      ensures Logs(old(disk), disk, old(logged), logged)
    {
      hide Inv, SameFiles, BlockOf, Left, Bitmap, Logs;
      LogsSame(disk, logged);
      SameRefl(View());
      LeftInd(f, i, NDIRECT);
      var a := At(disk, ind).data;
      var j := 0;
      while j < NINDIRECT
        invariant j <= NINDIRECT && Valid() && View() == Detached(f, i).(disk := disk, owner := Left(f, i, NDIRECT + j))
        invariant SameFiles(old(View()), View()) && logged <= old(logged) + Bitmap(sb)
        invariant Logs(old(disk), disk, old(logged), logged)
      {
        ghost var g, l := View(), logged;
        EntryIs(f.disk, f.ino[i], NDIRECT + j);
        FreeBlock(f, i, Le32(a, 4 * j), NDIRECT + j);
        SameFilesTrans(old(View()), g, View());
        LogsTrans(old(disk), g.disk, disk, old(logged), l, logged);
        j := j + 1;
      }
      ghost var g, l := View(), logged;
      LeftInd(f, i, MAXFILE);
      WithoutAll(f, i);
      FreeKeeps(g, ind);
      InBitmap(sb, ind);
      Bfree(ind);
      SameFilesTrans(old(View()), g, View());
      LogsTrans(old(disk), g.disk, disk, old(logged), l, logged);
    }

    /** itrunc: the inode is empty, exactly its blocks are free, and no other file changes.  While it is
        being emptied the inode is kept aside. */
    method Itrunc(i: nat)
      requires Valid() && i in ino
      modifies this
      ensures Valid() && ino == old(ino)[i := Inode(0, seq(NDIRECT + 1, _ => 0))] && dino == old(dino)[i := ino[i]]
      ensures owner == Without(old(View()), i)
      ensures forall k | k in old(ino) && k != i :: SameFile(old(disk), old(ino)[k], disk, ino[k])
      ensures logged <= old(logged) + Bitmap(sb) + {IBlock(sb, i)} && IBlock(sb, i) in logged
      ensures Logs(old(disk), disk, old(logged), logged)
    {
      hide Inv, SameFiles, BlockOf, Left, Bitmap, SameFile, Logs;
      LogsSame(disk, logged);
      ghost var f := View();
      AddrsSize(f, i);
      DetachedKeeps(f, i);
      LeftNone(f, i);
      var ip := ino[i];
      var ind := ip.addrs[NDIRECT];
      ino := ino - {i};
      owner := Detached(f, i).owner;
      SameRefl(View());
      ghost var e := View();
      var k := 0;
      while k < NDIRECT
        invariant k <= NDIRECT && Valid() && |ip.addrs| == NDIRECT + 1
        invariant View() == Detached(f, i).(disk := disk, owner := Left(f, i, k))
        invariant SameFiles(e, View()) && logged <= old(logged) + Bitmap(sb) && dino == old(dino)
        invariant Logs(f.disk, disk, old(logged), logged)
        invariant ind == ip.addrs[NDIRECT] && forall x | k <= x <= NDIRECT :: ip.addrs[x] == f.ino[i].addrs[x]
        invariant forall x | 0 <= x < k :: ip.addrs[x] == 0
        invariant ind != 0 ==> At(disk, ind) == At(f.disk, ind)
      {
        ghost var g, l := View(), logged;
        DirectIs(f, i, k);
        if ind != 0 {
          LeftInd(f, i, k + 1);
        }
        FreeBlock(f, i, ip.addrs[k], k);
        ip := ip.(addrs := ip.addrs[k := 0]);
        SameFilesTrans(e, g, View());
        LogsTrans(f.disk, g.disk, disk, old(logged), l, logged);
        k := k + 1;
      }
      if ind != 0 {
        ghost var g, l := View(), logged;
        FreeIndirect(f, i, ind);
        SameFilesTrans(e, g, View());
        LogsTrans(f.disk, g.disk, disk, old(logged), l, logged);
      } else {
        WithoutDirect(f, i);
      }
      OthersSame(f, View(), i);
      EmptiedKeeps(View(), i);
      ip := ip.(addrs := ip.addrs[NDIRECT := 0], size := 0);
      assert ip.addrs == seq(NDIRECT + 1, _ => 0);
      ino := ino[i := ip];
      ghost var l := logged;
      Iupdate(i);
      LogsGrow(f.disk, disk, old(logged), l, logged);
    }
  }

  lemma LogsGrow(d0: Disk, d: Disk, l0: set<nat>, l: set<nat>, l': set<nat>)
    requires Logs(d0, d, l0, l) && l <= l'
    ensures Logs(d0, d, l0, l')
  {
  }

  lemma BitOf(sb: Super, disk: Disk, b: nat, bi: nat)
    requires b % BPB == 0 && bi < BPB
    ensures Marked(sb, disk, b + bi) <==> Bit(At(disk, sb.bmapstart + b / BPB).data[bi / 8], bi % 8)
  {
    assert (b + bi) / BPB == b / BPB && (b + bi) % BPB == bi;
  }

  // ---------------------------------------------------------------------------
  // bmap
  // ---------------------------------------------------------------------------

  /** What bmap achieves: no file changes, maps only grow, and block `bn` of inode `i` is at `addr`
      (0 only if the disk is full). */
  ghost predicate Mapped(f: Fs, g: Fs, i: nat, bn: nat, addr: nat)
  {
    && SameFiles(f, g) && Grows(f, g) && i in f.ino && i in g.ino
    && addr == BlockOf(g.disk, g.ino[i], bn)
    && (addr == 0 ==> DiskFull(g))
    && (BlockOf(f.disk, f.ino[i], bn) != 0 ==> g == f)
  }

  lemma AddrsSize(f: Fs, i: nat)
    requires Inv(f) && i in f.ino
    ensures |f.ino[i].addrs| == NDIRECT + 1
  {
    hide Bits, Maps, NoHoles;
  }

  lemma MappedSame(f: Fs, i: nat, bn: nat)
    requires i in f.ino && (BlockOf(f.disk, f.ino[i], bn) == 0 ==> DiskFull(f))
    ensures Mapped(f, f, i, bn, BlockOf(f.disk, f.ino[i], bn))
  {
    hide BlockOf, FileByte;
  }

  lemma InBitmap(sb: Super, b: nat)
    requires b < sb.size
    ensures BBlock(sb, b) in Bitmap(sb)
  {
  }

  lemma AllocFresh(f: Fs, b: nat)
    requires Framed(f) && 0 < b < f.sb.size
    ensures FileSys.Fresh(Alloced(f, b), b)
  {
    MarkSize(f.sb, f.disk, b, true);
    hide MarkDisk, BBlock, MetaAt;
  }

  lemma QuietLookups(f: Fs, g: Fs, i: nat)
    requires Quiet(f, g) && Maps(f) && i in f.ino
    ensures forall x: nat :: BlockOf(g.disk, f.ino[i], x) == BlockOf(f.disk, f.ino[i], x)
  {
    assert IndOwn(f, i);
    forall x: nat ensures BlockOf(g.disk, f.ino[i], x) == BlockOf(f.disk, f.ino[i], x) {
      QuietLookup(f, g, i, x);
    }
  }

  /** A block from balloc can be entered in a map. */
  lemma AllocMapped(f: Fs, i: nat, b: nat)
    requires Inv(f) && 0 < b < f.sb.size && b !in f.owner && i in f.ino
    ensures SameFiles(f, Alloced(f, b)) && Grows(f, Alloced(f, b)) && FileSys.Fresh(Alloced(f, b), b)
    ensures forall x: nat :: BlockOf(Alloced(f, b).disk, f.ino[i], x) == BlockOf(f.disk, f.ino[i], x)
  {
    var g := Alloced(f, b);
    assert g.sb == f.sb;
    hide BlockOf, Framed, Bits, Maps, NoHoles, Quiet, SameFiles, Grows, Alloced, FileSys.Fresh;
    AllocKeeps(f, b);
    AllocQuiet(f, b);
    QuietGrows(f, g);
    QuietLookups(f, g, i);
    AllocFresh(f, b);
  }

  lemma EnteredMapped(f: Fs, g: Fs, h: Fs, i: nat, bn: nat, b: nat)
    requires SameFiles(f, g) && Grows(f, g) && SameFiles(g, h) && Entered(g, h, i, bn, b) && h.sb == g.sb
    requires i in f.ino && BlockOf(f.disk, f.ino[i], bn) == 0
    ensures Mapped(f, h, i, bn, b)
  {
    hide BlockOf;
    assert Moved(g, h, i, bn, b, i, bn);
    forall k, x: nat | k in g.ino && BlockOf(g.disk, g.ino[k], x) != 0
      ensures BlockOf(h.disk, h.ino[k], x) == BlockOf(g.disk, g.ino[k], x)
    {
      Beyond(g.disk, g.ino[k], x);
      assert Moved(g, h, i, bn, b, k, x);
    }
    assert Grows(g, h);
    GrowsTrans(f, g, h);
    SameFilesTrans(f, g, h);
  }

  lemma Beyond(disk: Disk, n: Inode, x: nat)
    ensures x >= MAXFILE ==> BlockOf(disk, n, x) == 0
  {
  }

  lemma SetDirectMapped(f: Fs, g: Fs, i: nat, bn: nat, b: nat)
    requires SameFiles(f, g) && Grows(f, g) && i in f.ino && i in g.ino
    requires bn < NDIRECT && |g.ino[i].addrs| == NDIRECT + 1
    requires BlockOf(f.disk, f.ino[i], bn) == 0 && Addr(g.ino[i], bn) == 0 && FileSys.Fresh(g, b)
    requires SameFiles(g, SetDirect(g, i, bn, b))
    ensures Mapped(f, SetDirect(g, i, bn, b), i, bn, b)
  {
    hide BlockOf, Mapped, SameFiles, Grows;
    SetDirectEnters(g, i, bn, b);
    EnteredMapped(f, g, SetDirect(g, i, bn, b), i, bn, b);
  }

  lemma SameRefl(f: Fs)
    ensures SameFiles(f, f) && Grows(f, f)
  {
    hide BlockOf, FileByte;
  }

  lemma AllocSame(f: Fs, b: nat)
    ensures Alloced(f, b).ino == f.ino && Alloced(f, b).sb == f.sb
  {
  }

  lemma NoIndirect(disk: Disk, n: Inode)
    requires Addr(n, NDIRECT) == 0
    ensures forall x: nat | NDIRECT <= x :: BlockOf(disk, n, x) == 0
  {
  }

  lemma EntryIs(disk: Disk, n: Inode, bn: nat)
    requires NDIRECT <= bn < MAXFILE && Addr(n, NDIRECT) != 0
    ensures BlockOf(disk, n, bn) == Le32(At(disk, Addr(n, NDIRECT)).data, 4 * (bn - NDIRECT))
  {
  }

  lemma SetIndMapped(f: Fs, g: Fs, i: nat, b: nat)
    requires SameFiles(f, g) && Grows(f, g) && i in g.ino && |g.ino[i].addrs| == NDIRECT + 1
    requires Addr(g.ino[i], NDIRECT) == 0 && FileSys.Fresh(g, b) && SameFiles(g, SetInd(g, i, b))
    ensures SameFiles(f, SetInd(g, i, b)) && Grows(f, SetInd(g, i, b))
    ensures forall x: nat | NDIRECT <= x :: BlockOf(g.disk, SetInd(g, i, b).ino[i], x) == 0
  {
    hide BlockOf, SameFiles;
    var h := SetInd(g, i, b);
    forall k, x: nat | k in g.ino ensures BlockOf(h.disk, h.ino[k], x) == BlockOf(g.disk, g.ino[k], x) {
      SetIndLookup(g, i, b, k, x);
    }
    assert Grows(g, h);
    GrowsTrans(f, g, h);
    SameFilesTrans(f, g, h);
    NoIndirect(g.disk, g.ino[i]);
    forall x: nat | NDIRECT <= x ensures BlockOf(g.disk, h.ino[i], x) == 0 {
      SetIndLookup(g, i, b, i, x);
    }
  }

  /** No indirect block could be had. */
  lemma LoadFailed(f: Fs, g: Fs, i: nat, bn: nat)
    requires SameFiles(f, g) && Grows(f, g) && i in f.ino && i in g.ino && DiskFull(g) && NDIRECT <= bn
    requires Addr(g.ino[i], NDIRECT) == 0
    requires Addr(f.ino[i], NDIRECT) != 0 ==> g == f
    ensures Mapped(f, g, i, bn, 0)
  {
    NoIndirect(g.disk, g.ino[i]);
    if Addr(f.ino[i], NDIRECT) == 0 {
      NoIndirect(f.disk, f.ino[i]);
    }
    hide BlockOf;
  }

  lemma BallocFailed(f: Fs, g: Fs, i: nat, bn: nat)
    requires SameFiles(f, g) && Grows(f, g) && i in f.ino && i in g.ino && DiskFull(g)
    requires BlockOf(g.disk, g.ino[i], bn) == 0
    ensures Mapped(f, g, i, bn, 0)
  {
    hide BlockOf, FileByte;
  }

  lemma EntryFound(f: Fs, g: Fs, i: nat, bn: nat)
    requires SameFiles(f, g) && Grows(f, g) && i in f.ino && i in g.ino && NDIRECT <= bn
    requires BlockOf(g.disk, g.ino[i], bn) != 0
    requires Addr(f.ino[i], NDIRECT) != 0 ==> g == f
    requires Addr(f.ino[i], NDIRECT) == 0 ==> forall x: nat | NDIRECT <= x :: BlockOf(g.disk, g.ino[i], x) == 0
    ensures Mapped(f, g, i, bn, BlockOf(g.disk, g.ino[i], bn))
  {
    hide BlockOf, FileByte;
  }

  lemma IndKept(f: Fs, b: nat, i: nat)
    requires Inv(f) && i in f.ino && Addr(f.ino[i], NDIRECT) != 0 && b !in f.owner && b < f.sb.size
    ensures var p := Addr(f.ino[i], NDIRECT); At(Alloced(f, b).disk, p) == At(f.disk, p)
  {
    assert IndOwn(f, i) by { hide Framed, Bits, NoHoles; }
    AllocQuiet(f, b);
    hide Framed, Bits, Maps, NoHoles, Alloced;
  }

  lemma AllIndOwn(f: Fs, i: nat)
    requires Inv(f) && i in f.ino
    ensures (forall k | k in f.ino :: IndOwn(f, k)) && Addr(f.ino[i], NDIRECT) < |f.disk|
  {
    hide Bits, NoHoles;
    assert IndOwn(f, i);
  }

  lemma SetEntryMapped(f: Fs, e: Fs, g: Fs, i: nat, bn: nat, b: nat)
    requires SameFiles(f, e) && Grows(f, e) && SameFiles(e, g) && Grows(e, g)
    requires i in f.ino && i in e.ino && i in g.ino && NDIRECT <= bn < MAXFILE
    requires BlockOf(e.disk, e.ino[i], bn) == 0 && BlockOf(g.disk, g.ino[i], bn) == 0
    requires 0 < Addr(g.ino[i], NDIRECT) && Inv(g) && FileSys.Fresh(g, b)
    requires SameFiles(g, SetEntry(g, i, bn - NDIRECT, b))
    ensures Mapped(f, SetEntry(g, i, bn - NDIRECT, b), i, bn, b)
  {
    hide Inv, BlockOf, Mapped, SameFiles, FileSys.Fresh, IndOwn, SetEntry, Entered;
    assert BlockOf(f.disk, f.ino[i], bn) == 0;
    AllIndOwn(g, i);
    hide Grows;
    GrowsTrans(f, e, g);
    SameFilesTrans(f, e, g);
    SetEntryEnters(g, i, bn - NDIRECT, bn, b);
    EnteredMapped(f, g, SetEntry(g, i, bn - NDIRECT, b), i, bn, b) by { SetEntrySb(g, i, bn - NDIRECT, b); }
  }

  lemma SetEntrySb(f: Fs, i: nat, j: nat, b: nat)
    requires i in f.ino && j < NINDIRECT
    ensures SetEntry(f, i, j, b).sb == f.sb
  {
  }

  // ---------------------------------------------------------------------------
  // readi and writei
  // ---------------------------------------------------------------------------

  /** IBLOCK, with IPB inodes to a block. */
  function IBlock(sb: Super, i: nat): nat { i / 16 + sb.inodestart }

  /** The file holds `s` at `off`. */
  ghost predicate Reads(disk: Disk, n: Inode, off: nat, s: seq<byte>)
  {
    forall k | 0 <= k < |s| :: ReadsByte(disk, n, off + k, s[k])
  }

  predicate ReadsByte(disk: Disk, n: Inode, off: nat, b: byte) { FileByte(disk, n, off) == b }

  lemma ReadsNone(disk: Disk, n: Inode, off: nat)
    ensures Reads(disk, n, off, [])
  {
  }

  lemma ReadsMore(disk: Disk, n: Inode, off: nat, s: seq<byte>, addr: nat, m: nat)
    requires Reads(disk, n, off, s) && addr == BlockOf(disk, n, (off + |s|) / BSIZE) != 0
    requires (off + |s|) % BSIZE + m <= BSIZE
    ensures var o := (off + |s|) % BSIZE; Reads(disk, n, off, s + At(disk, addr).data[o..o + m])
  {
    hide BlockOf;
    var o := (off + |s|) % BSIZE;
    var t := s + At(disk, addr).data[o..o + m];
    forall k | 0 <= k < |t| ensures ReadsByte(disk, n, off + k, t[k]) {
      if k < |s| {
        assert ReadsByte(disk, n, off + k, s[k]);
      } else {
        assert (off + k) / BSIZE == (off + |s|) / BSIZE && (off + k) % BSIZE == o + (k - |s|);
      }
    }
  }

  lemma WholeAt(f: Fs, i: nat, off: nat)
    requires Inv(f) && i in f.ino && off < f.ino[i].size
    ensures off / BSIZE < MAXFILE && BlockOf(f.disk, f.ino[i], off / BSIZE) != 0
  {
    hide Framed, Bits, Maps, BlockOf;
    assert Whole(f.disk, f.ino[i]);
    assert off / BSIZE * BSIZE < f.ino[i].size;
  }

  lemma MappedWas(f: Fs, g: Fs, i: nat, bn: nat, addr: nat)
    requires Mapped(f, g, i, bn, addr) && i in f.ino && BlockOf(f.disk, f.ino[i], bn) != 0
    ensures g == f && addr == BlockOf(f.disk, f.ino[i], bn)
  {
    hide BlockOf, SameFiles, Grows;
  }

  /** From `f` to `g` the bytes of inode `i` from `off` on became `s`, and no other byte of any file
      and no size changed. */
  ghost predicate Written(f: Fs, g: Fs, i: nat, off: nat, s: seq<byte>)
  {
    && g.ino.Keys == f.ino.Keys
    && (forall k | k in f.ino :: g.ino[k].size == f.ino[k].size)
    && forall k, x: nat | k in f.ino :: NewByte(f, g, i, off, s, k, x)
  }

  ghost predicate NewByte(f: Fs, g: Fs, i: nat, off: nat, s: seq<byte>, k: nat, x: nat)
    requires k in f.ino && k in g.ino
  {
    FileByte(g.disk, g.ino[k], x)
    == if k == i && off <= x < off + |s| then s[x - off] else FileByte(f.disk, f.ino[k], x)
  }

  /** Every block of `[off, off + n)` is in the map. */
  ghost predicate Covered(f: Fs, i: nat, off: nat, n: nat)
  {
    && i in f.ino
    && forall bn: nat | 0 < n && off / BSIZE <= bn && bn * BSIZE < off + n :: BlockOf(f.disk, f.ino[i], bn) != 0
  }

  /** How many blocks `n` bytes at `off` touch. */
  function Spans(off: nat, n: nat): nat { if n == 0 then 0 else (off + n - 1) / BSIZE - off / BSIZE + 1 }

  /** What writei has done to the file system after `tot` bytes. */
  ghost predicate Progress(f: Fs, g: Fs, i: nat, off: nat, src: seq<byte>, tot: nat)
  {
    tot <= |src| && Written(f, g, i, off, src[..tot]) && Grows(f, g) && Covered(g, i, off, tot)
  }

  /** How one turn of writei's loop ends: no block, a copy that failed, or `m` bytes copied. */
  datatype Turn = Full | Fault | Copied(m: nat)

  ghost predicate After(f: Fs, g: Fs, i: nat, off: nat, src: seq<byte>, n: nat, tot: nat, turn: Turn)
  {
    match turn
    case Full => DiskFull(g) && Progress(f, g, i, off, src, tot)
    case Fault => tot <= |src| < n && (off + |src|) / BSIZE == (off + tot) / BSIZE && Progress(f, g, i, off, src, |src|)
    case Copied(m) =>
      && 0 < m && tot + m <= |src| && Progress(f, g, i, off, src, tot + m)
      && (tot + m < n ==> (off + tot + m) / BSIZE == (off + tot) / BSIZE + 1 && (off + tot + m) % BSIZE == 0)
  }

  /** The bytes among the first `k` that are in blocks before the one with byte `off + k`. */
  function WholeBlocks(off: nat, k: nat): nat
  {
    if (off + k) / BSIZE == off / BSIZE then 0 else (off + k) / BSIZE * BSIZE - off
  }

  lemma WholeIs(off: nat, tot: nat, k: nat)
    requires tot <= k && (off + k) / BSIZE == (off + tot) / BSIZE && (tot == 0 || (off + tot) % BSIZE == 0)
    ensures tot == WholeBlocks(off, k)
  {
  }

  /** Why writei ends with `tot` of `n` bytes written, `k` of them readable, and `seen` of them showing:
      all are written, the disk is full, or the copy failed in the block with byte `k`. */
  ghost predicate Stopped(g: Fs, off: nat, k: nat, n: nat, tot: nat, seen: nat)
  {
    && tot <= seen <= k
    && (|| (seen == tot && (tot == n || DiskFull(g)))
        || (seen == k < n && tot == WholeBlocks(off, k)))
  }

  /** Every block changed between `f` and `g` is logged, except, unless `all`, the one that holds byte
      `at` of the inode. */
  ghost predicate LoggedUpTo(f: Fs, g: Fs, i: nat, l0: set<nat>, l: set<nat>, at: nat, all: bool)
  {
    if all then Logs(f.disk, g.disk, l0, l)
    else i in g.ino && LogsBut(f.disk, g.disk, l0, l, BlockOf(g.disk, g.ino[i], at / BSIZE))
  }

  lemma LoggedMore(f: Fs, g: Fs, h: Fs, i: nat, l0: set<nat>, l: set<nat>, l': set<nat>, at: nat, all: bool)
    requires LoggedUpTo(f, g, i, l0, l, at, all) && l <= l' && h.disk == g.disk && i in g.ino && i in h.ino
    requires h.ino[i].addrs == g.ino[i].addrs
    ensures LoggedUpTo(f, h, i, l0, l', at, all)
  {
    hide At;
    assert BlockOf(h.disk, h.ino[i], at / BSIZE) == BlockOf(g.disk, g.ino[i], at / BSIZE);
  }

  lemma FullSame(f: Fs, g: Fs)
    requires g.sb == f.sb && g.owner == f.owner
    ensures DiskFull(g) <==> DiskFull(f)
  {
  }

  lemma ProgressNone(f: Fs, i: nat, off: nat, src: seq<byte>)
    requires i in f.ino
    ensures Progress(f, f, i, off, src, 0)
  {
    SameRefl(f);
    hide BlockOf, FileByte;
  }

  lemma ProgressIn(f: Fs, g: Fs, i: nat, off: nat, src: seq<byte>, tot: nat)
    requires Progress(f, g, i, off, src, tot)
    ensures i in g.ino && tot <= |src|
  {
    hide Written, Grows;
  }

  lemma InNonZero(a: nat, b: nat)
    requires a != 0
    ensures a in NonZero({a, b})
  {
  }

  lemma AddLogged(l0: set<nat>, l1: set<nat>, l2: set<nat>, bits: set<nat>, blocks: set<nat>,
                  b: nat, ind0: nat, ind: nat)
    requires l1 <= l0 + bits + blocks + NonZero({ind0}) && l2 <= l1 + bits + NonZero({b, ind})
    requires ind0 == 0 || ind == ind0
    ensures l2 <= l0 + bits + (blocks + NonZero({b})) + NonZero({ind})
  {
  }

  lemma TurnBound(off: nat, tot: nat, n: nat)
    requires tot < n && off + n <= MAXFILE * BSIZE
    ensures (off + tot) / BSIZE < MAXFILE && (off + tot) / BSIZE - off / BSIZE < Spans(off, n)
  {
  }

  lemma NextTurn(off: nat, tot: nat, m: nat, n: nat)
    requires tot < n && m == if n - tot < BSIZE - (off + tot) % BSIZE then n - tot else BSIZE - (off + tot) % BSIZE
    ensures 0 < m && tot + m <= n && (tot + m < n ==> (off + tot + m) / BSIZE == (off + tot) / BSIZE + 1)
    ensures tot + m < n ==> (off + tot + m) % BSIZE == 0
  {
  }

  lemma AddBlock(blocks: set<nat>, b: nat)
    ensures |blocks + NonZero({b})| <= |blocks| + 1
  {
    if b in blocks || b == 0 {
      assert blocks + NonZero({b}) == blocks;
    } else {
      assert blocks + NonZero({b}) == blocks + {b};
    }
  }

  lemma DataAt(f: Fs, i: nat, bn: nat, p: nat)
    requires Inv(f) && i in f.ino && bn < MAXFILE && p == BlockOf(f.disk, f.ino[i], bn) != 0
    ensures IsData(f, p, i, bn)
  {
    hide Bits, NoHoles, BlockOf;
    assert PointsTo(f, i, bn);
  }

  lemma SameWritten(f: Fs, g: Fs, h: Fs, i: nat, off: nat, s: seq<byte>)
    requires Written(f, g, i, off, s) && SameFiles(g, h)
    ensures Written(f, h, i, off, s)
  {
    hide FileByte;
    forall k, x: nat | k in f.ino ensures h.ino[k].size == f.ino[k].size && NewByte(f, h, i, off, s, k, x) {
      assert NewByte(f, g, i, off, s, k, x) && SameFile(g.disk, g.ino[k], h.disk, h.ino[k]);
      assert FileByte(h.disk, h.ino[k], x) == FileByte(g.disk, g.ino[k], x);
    }
    forall k | k in f.ino ensures h.ino[k].size == f.ino[k].size {
      assert SameFile(g.disk, g.ino[k], h.disk, h.ino[k]);
    }
  }

  lemma AfterBmap(f: Fs, g: Fs, h: Fs, i: nat, bn: nat, addr: nat, off: nat, src: seq<byte>, tot: nat)
    requires Progress(f, g, i, off, src, tot) && Mapped(g, h, i, bn, addr) && i in g.ino
    ensures Progress(f, h, i, off, src, tot) && i in h.ino
    ensures addr == BlockOf(h.disk, h.ino[i], bn) && (addr == 0 ==> DiskFull(h))
    ensures Addr(g.ino[i], NDIRECT) == 0 || Addr(h.ino[i], NDIRECT) == Addr(g.ino[i], NDIRECT)
  {
    hide BlockOf, FileByte, Written, SameFiles;
    SameWritten(f, g, h, i, off, src[..tot]);
    GrowsTrans(f, g, h);
  }

  lemma IndOwnOf(f: Fs, i: nat)
    requires Inv(f) && i in f.ino
    ensures IndOwn(f, i)
  {
    hide Framed, Bits, NoHoles;
  }

  /** `t` goes into the block at `p` behind the `|s|` bytes written before. */
  ghost predicate Splices(h: Fs, i: nat, p: nat, off: nat, s: seq<byte>, t: seq<byte>, data: Block)
  {
    var b := off + |s|;
    && i in h.ino && 0 < p && IsData(h, p, i, b / BSIZE) && p == BlockOf(h.disk, h.ino[i], b / BSIZE)
    && 0 < |t| && b % BSIZE + |t| <= BSIZE
    && data == At(h.disk, p).data[..b % BSIZE] + t + At(h.disk, p).data[b % BSIZE + |t|..]
  }

  lemma AfterWrite(f: Fs, h: Fs, i: nat, p: nat, off: nat, src: seq<byte>, tot: nat, n: nat, data: Block)
    requires Inv(h) && Progress(f, h, i, off, src, tot) && tot + n <= |src|
    requires Splices(h, i, p, off, src[..tot], src[tot..tot + n], data)
    ensures Progress(f, Wrote(h, p, data), i, off, src, tot + n)
  {
    hide BlockOf, Written, Grows, Inv, IsData, Splices, Covered;
    var g, s, t := Wrote(h, p, data), src[..tot], src[tot..tot + n];
    SplicesData(h, i, p, off, s, t, data);
    WroteGrows(h, p, data, i, (off + |s|) / BSIZE);
    GrowsTrans(f, h, g);
    IndOwnOf(h, i);
    WroteCovers(h, p, data, i, off, s, t);
    WroteWritten(f, h, i, p, off, s, t, data);
    assert s + t == src[..tot + n];
  }

  function SplicedAt(disk: Disk, addr: nat, o: nat, t: seq<byte>): Block
    requires o + |t| <= BSIZE
  {
    At(disk, addr).data[..o] + t + At(disk, addr).data[o + |t|..]
  }

  lemma SplicesAt(h: Fs, i: nat, p: nat, off: nat, s: seq<byte>, t: seq<byte>)
    requires i in h.ino && 0 < p == BlockOf(h.disk, h.ino[i], (off + |s|) / BSIZE)
    requires IsData(h, p, i, (off + |s|) / BSIZE) && 0 < |t| && (off + |s|) % BSIZE + |t| <= BSIZE
    ensures Splices(h, i, p, off, s, t, SplicedAt(h.disk, p, (off + |s|) % BSIZE, t))
  {
    hide IsData, BlockOf;
  }

  lemma StaysThere(h: Fs, i: nat, p: nat, bn: nat, data: Block)
    requires Inv(h) && i in h.ino && p == BlockOf(h.disk, h.ino[i], bn) != 0 && IsData(h, p, i, bn)
    ensures BlockOf(Wrote(h, p, data).disk, h.ino[i], bn) == p
  {
    hide Inv, BlockOf, IsData;
    WroteGrows(h, p, data, i, bn);
  }

  /** `k` bytes go into the block at `p`. */
  lemma PartCopied(f: Fs, h: Fs, i: nat, p: nat, off: nat, src: seq<byte>, tot: nat, k: nat, data: Block)
    requires Inv(h) && Progress(f, h, i, off, src, tot) && tot + k <= |src|
    requires Splices(h, i, p, off, src[..tot], src[tot..tot + k], data)
    ensures Inv(Wrote(h, p, data)) && Progress(f, Wrote(h, p, data), i, off, src, tot + k)
  {
    hide Inv, Progress, BlockOf, IsData, Splices;
    SplicesData(h, i, p, off, src[..tot], src[tot..tot + k], data);
    WroteKeeps(h, p, data, i, (off + tot) / BSIZE);
    AfterWrite(f, h, i, p, off, src, tot, k, data);
  }

  lemma AfterCopy(f: Fs, h: Fs, i: nat, p: nat, off: nat, src: seq<byte>, n: nat, tot: nat, m: nat, data: Block)
    requires Inv(h) && Progress(f, h, i, off, src, tot) && 0 < m && tot + m <= |src|
    requires Splices(h, i, p, off, src[..tot], src[tot..tot + m], data)
    requires tot + m < n ==> (off + tot + m) / BSIZE == (off + tot) / BSIZE + 1 && (off + tot + m) % BSIZE == 0
    ensures Inv(Wrote(h, p, data)) && After(f, Wrote(h, p, data), i, off, src, n, tot, Copied(m))
  {
    hide Inv, Progress, Splices;
    PartCopied(f, h, i, p, off, src, tot, m, data);
  }

  /** A copy of `m` bytes fails after those of `src` that are left, if any. */
  lemma AfterFault(f: Fs, h: Fs, i: nat, p: nat, off: nat, src: seq<byte>, n: nat, tot: nat, m: nat, data: Block)
    requires Inv(h) && Progress(f, h, i, off, src, tot) && tot <= |src| < tot + m <= n
    requires (off + tot) % BSIZE + m <= BSIZE
    requires tot < |src| ==> Splices(h, i, p, off, src[..tot], src[tot..|src|], data)
    ensures tot == |src| ==> After(f, h, i, off, src, n, tot, Fault)
    ensures tot < |src| ==> Inv(Wrote(h, p, data)) && After(f, Wrote(h, p, data), i, off, src, n, tot, Fault)
  {
    hide Inv, Progress, Splices;
    SameBlock(off + tot, m, off + |src|);
    if tot < |src| {
      PartCopied(f, h, i, p, off, src, tot, |src| - tot, data);
    }
  }

  lemma SplicesData(h: Fs, i: nat, p: nat, off: nat, s: seq<byte>, t: seq<byte>, data: Block)
    requires Splices(h, i, p, off, s, t, data)
    ensures IsData(h, p, i, (off + |s|) / BSIZE) && i in h.ino
  {
  }

  lemma WroteWritten(f: Fs, h: Fs, i: nat, p: nat, off: nat, s: seq<byte>, t: seq<byte>, data: Block)
    requires Inv(h) && Written(f, h, i, off, s) && Splices(h, i, p, off, s, t, data)
    ensures Written(f, Wrote(h, p, data), i, off, s + t)
  {
    hide Inv, Splices, FileByte;
    forall k, x: nat | k in f.ino ensures NewByte(f, Wrote(h, p, data), i, off, s + t, k, x) {
      WriteByteStep(f, h, i, p, off, s, t, data, k, x);
    }
  }

  lemma WroteGrows(f: Fs, p: nat, data: Block, i: nat, bn: nat)
    requires Inv(f) && IsData(f, p, i, bn)
    ensures Grows(f, Wrote(f, p, data))
  {
    hide BlockOf, Framed, Bits, NoHoles;
    forall k, x: nat | k in f.ino ensures BlockOf(Wrote(f, p, data).disk, f.ino[k], x) == BlockOf(f.disk, f.ino[k], x) {
      assert IndOwn(f, k);
      WroteLookup(f, p, data, i, bn, k, x);
    }
  }

  lemma SplicedByte(d: Block, o: nat, t: seq<byte>, y: nat)
    requires o + |t| <= BSIZE && y < BSIZE
    ensures (d[..o] + t + d[o + |t|..])[y] == if o <= y < o + |t| then t[y - o] else d[y]
  {
  }

  lemma SameBlock(b: nat, n: nat, x: nat)
    requires b % BSIZE + n <= BSIZE
    ensures b <= x < b + n <==> x / BSIZE == b / BSIZE && b % BSIZE <= x % BSIZE < b % BSIZE + n
    ensures b <= x < b + n ==> x % BSIZE - b % BSIZE == x - b
  {
  }

  lemma ByteCases(same: bool, off: nat, s: seq<byte>, t: seq<byte>, d: Block, data: Block, x: nat,
                  fb: byte, hb: byte, gb: byte)
    requires var o := (off + |s|) % BSIZE; o + |t| <= BSIZE && data == d[..o] + t + d[o + |t|..]
    requires hb == if same && off <= x < off + |s| then s[x - off] else fb
    requires same && x / BSIZE == (off + |s|) / BSIZE ==> hb == d[x % BSIZE]
    requires gb == if same && x / BSIZE == (off + |s|) / BSIZE then data[x % BSIZE] else hb
    ensures gb == if same && off <= x < off + |s + t| then (s + t)[x - off] else fb
  {
    SameBlock(off + |s|, |t|, x);
    SplicedByte(d, (off + |s|) % BSIZE, t, x % BSIZE);
  }

  lemma WriteByteStep(f: Fs, h: Fs, i: nat, p: nat, off: nat, s: seq<byte>, t: seq<byte>, data: Block, k: nat, x: nat)
    requires Inv(h) && Written(f, h, i, off, s) && k in f.ino && Splices(h, i, p, off, s, t, data)
    ensures k in h.ino && NewByte(f, Wrote(h, p, data), i, off, s + t, k, x)
  {
    hide Framed, Bits, Maps, NoHoles, BlockOf, IsData;
    var bn, d := (off + |s|) / BSIZE, At(h.disk, p).data;
    assert NewByte(f, h, i, off, s, k, x);
    hide Written;
    assert k == i && x / BSIZE == bn ==> FileByte(h.disk, h.ino[k], x) == d[x % BSIZE];
    hide FileByte;
    WroteByte(h, p, data, i, bn, k, x);
    ByteCases(k == i, off, s, t, d, data, x, FileByte(f.disk, f.ino[k], x), FileByte(h.disk, h.ino[k], x),
              FileByte(Wrote(h, p, data).disk, h.ino[k], x));
  }

  lemma WroteCovers(h: Fs, p: nat, data: Block, i: nat, off: nat, s: seq<byte>, t: seq<byte>)
    requires Covered(h, i, off, |s|) && Splices(h, i, p, off, s, t, data) && i in h.ino && IndOwn(h, i)
    ensures Covered(Wrote(h, p, data), i, off, |s + t|)
  {
    hide BlockOf;
    forall bn: nat | off / BSIZE <= bn && bn * BSIZE < off + |s + t|
      ensures BlockOf(Wrote(h, p, data).disk, h.ino[i], bn) != 0
    {
      WroteLookup(h, p, data, i, (off + |s|) / BSIZE, i, bn);
      assert bn * BSIZE < off + |s| || bn == (off + |s|) / BSIZE;
    }
  }

  // --- writei as a whole ---

  function Max(a: nat, b: nat): nat { if a > b then a else b }

  /** From `f` to `g` the bytes of inode `i` from `off` on became `s` and its size grew to hold the
      first `tot` of them; no other byte of any file and no other size changed. */
  ghost predicate WrittenTo(f: Fs, g: Fs, i: nat, off: nat, s: seq<byte>, tot: nat)
  {
    && g.ino.Keys == f.ino.Keys && i in f.ino
    && (forall k | k in f.ino && k != i :: g.ino[k].size == f.ino[k].size)
    && g.ino[i].size == (if tot == 0 then f.ino[i].size else Max(f.ino[i].size, off + tot))
    && forall k, x: nat | k in f.ino :: NewByte(f, g, i, off, s, k, x)
  }

  lemma SizeFree(disk: Disk, n: Inode, size: nat)
    ensures forall x: nat :: BlockOf(disk, n.(size := size), x) == BlockOf(disk, n, x)
    ensures forall x: nat :: FileByte(disk, n.(size := size), x) == FileByte(disk, n, x)
  {
  }

  lemma SameSize(f: Fs, i: nat)
    requires i in f.ino
    ensures Resized(f, i, f.ino[i].size) == f
  {
    assert f.ino[i].(size := f.ino[i].size) == f.ino[i];
    assert f.ino[i := f.ino[i]] == f.ino;
  }

  lemma GrownSize(f: Fs, g: Fs, i: nat, off: nat, src: seq<byte>, seen: nat, tot: nat, n: nat)
    requires Inv(g) && Progress(f, g, i, off, src, seen) && i in g.ino && i in f.ino && off <= f.ino[i].size
    requires tot <= seen && off + |src| <= MAXFILE * BSIZE && n == Max(g.ino[i].size, off + tot)
    ensures Whole(g.disk, g.ino[i].(size := n)) && WrittenTo(f, Resized(g, i, n), i, off, src[..seen], tot)
  {
    hide Framed, Bits, Maps, BlockOf, FileByte, Grows;
    SizeFree(g.disk, g.ino[i], n);
    assert Whole(g.disk, g.ino[i]);
    forall bn: nat | bn * BSIZE < n ensures BlockOf(g.disk, g.ino[i].(size := n), bn) != 0 {
      if bn * BSIZE >= g.ino[i].size {
        assert off / BSIZE <= bn;
      }
    }
    forall k, x: nat | k in f.ino ensures NewByte(f, Resized(g, i, n), i, off, src[..seen], k, x) {
      assert NewByte(f, g, i, off, src[..seen], k, x);
    }
  }

  lemma LogBound(l0: set<nat>, l: set<nat>, bits: set<nat>, blocks: set<nat>, ind: nat, ib: nat)
    requires l <= l0 + bits + blocks + NonZero({ind}) + {ib}
    ensures |l| <= |l0| + |blocks| + |bits| + 2
  {
    Union(l0, blocks);
    Union(l0 + blocks, bits);
    AddBlock(l0 + blocks + bits, ind);
    Union(l0 + blocks + bits + NonZero({ind}), {ib});
    Subset(l, l0 + blocks + bits + NonZero({ind}) + {ib});
  }

  lemma Union(a: set<nat>, b: set<nat>)
    ensures |a + b| <= |a| + |b|
  {
    assert a + b == a + (b - a);
    assert |b - a| <= |b| by { Subset(b - a, b); }
  }

  lemma {:induction false} Subset(a: set<nat>, b: set<nat>)
    requires a <= b
    ensures |a| <= |b|
  {
    if a != {} {
      var x :| x in a;
      Subset(a - {x}, b - {x});
    }
  }

  // --- filewrite ---

  lemma WrittenToNone(f: Fs, i: nat, off: nat)
    requires i in f.ino
    ensures WrittenTo(f, f, i, off, [], 0)
  {
    hide FileByte;
  }

  lemma SizeBound(f: Fs, i: nat)
    requires Inv(f) && i in f.ino
    ensures f.ino[i].size <= MAXFILE * BSIZE
  {
    hide Framed, Bits, Maps;
    assert Whole(f.disk, f.ino[i]);
  }

  /** A chunk of filewrite stays within the log reservation of one operation when the bitmap is one
      block. */
  lemma ChunkFits(sb: Super, off: nat, n: nat)
    requires n <= (MAXOPBLOCKS - 1 - 1 - 2) / 2 * BSIZE
    ensures sb.size <= BPB ==> Spans(off, n) + |Bitmap(sb)| + 2 <= MAXOPBLOCKS
  {
    if sb.size <= BPB {
      assert Bitmap(sb) <= {sb.bmapstart};
      Subset(Bitmap(sb), {sb.bmapstart});
    }
  }

  lemma WrittenToMore(f: Fs, g: Fs, h: Fs, i: nat, off: nat, s: seq<byte>, t: seq<byte>, tot: nat)
    requires WrittenTo(f, g, i, off, s, |s|) && WrittenTo(g, h, i, off + |s|, t, tot)
    ensures WrittenTo(f, h, i, off, s + t, |s| + tot)
  {
    hide FileByte;
    forall k, x: nat | k in f.ino ensures NewByte(f, h, i, off, s + t, k, x) {
      assert NewByte(f, g, i, off, s, k, x) && NewByte(g, h, i, off + |s|, t, k, x);
    }
  }

  lemma NextChunk(f: Fs, g: Fs, h: Fs, i: nat, off: nat, src: seq<byte>, done: nat, end: nat, part: nat, r: nat)
    requires done <= end <= |src| && r <= part <= end - done && WrittenTo(f, g, i, off, src[..done], done)
    requires WrittenTo(g, h, i, off + done, src[done..end][..part], r)
    ensures WrittenTo(f, h, i, off, src[..done + part], done + r) && i in h.ino
    ensures 0 < r ==> off + done + r <= h.ino[i].size
  {
    hide FileByte;
    var s, t := src[..done], src[done..end][..part];
    WrittenToMore(f, g, h, i, off, s, t, r);
    assert s + t == src[..done + part];
  }

  // ---------------------------------------------------------------------------
  // itrunc
  // ---------------------------------------------------------------------------

  /** The owners once the first `k` blocks of inode `i` are free; the rest of its blocks are loose. */
  ghost function Left(f: Fs, i: nat, k: nat): map<nat, Place>
  {
    map b | b in f.owner && !(f.owner[b].Data? && f.owner[b].inum == i && f.owner[b].bn < k) ::
      if Of(f.owner[b], i) then Loose else f.owner[b]
  }

  lemma LeftNone(f: Fs, i: nat)
    ensures Left(f, i, 0) == Detached(f, i).owner
  {
  }

  lemma LeftStep(f: Fs, i: nat, k: nat)
    requires Inv(f) && i in f.ino && k < MAXFILE
    ensures var b := BlockOf(f.disk, f.ino[i], k);
            Left(f, i, k + 1) == if b == 0 then Left(f, i, k) else Left(f, i, k) - {b}
  {
    hide Bits, NoHoles, BlockOf;
    var b := BlockOf(f.disk, f.ino[i], k);
    assert PointsTo(f, i, k);
    forall c | c in f.owner && f.owner[c] == Data(i, k) ensures c == b && c != 0 {
      assert FoundAt(f, c);
    }
    hide Framed, Maps;
  }

  lemma LeftLoose(f: Fs, i: nat, k: nat, b: nat)
    requires Inv(f) && i in f.ino && k < MAXFILE && b == BlockOf(f.disk, f.ino[i], k) != 0
    ensures b in Left(f, i, k) && Left(f, i, k)[b] == Loose && b < f.sb.size
  {
    hide Bits, NoHoles, BlockOf;
    assert PointsTo(f, i, k);
  }

  lemma FreedKeepsLoose(f: Fs, b: nat)
    requires Inv(f) && b in f.owner && b < f.sb.size
    ensures forall c | c in f.owner && f.owner[c] == Loose :: At(Freed(f, b).disk, c) == At(f.disk, c)
  {
    hide Bits, Maps, NoHoles, BBlock;
    assert MetaAt(f, BBlock(f.sb, b));
    MarkSize(f.sb, f.disk, b, false);
    hide MarkDisk;
  }

  /** The owners without the blocks of inode `i`. */
  ghost function Without(f: Fs, i: nat): map<nat, Place>
  {
    map b | b in f.owner && !Of(f.owner[b], i) :: f.owner[b]
  }

  lemma LeftInd(f: Fs, i: nat, k: nat)
    requires Inv(f) && i in f.ino && Addr(f.ino[i], NDIRECT) != 0
    ensures var p := Addr(f.ino[i], NDIRECT); p in Left(f, i, k) && Left(f, i, k)[p] == Loose && p < f.sb.size
  {
    hide Bits, NoHoles;
    assert IndOwn(f, i);
  }

  lemma DirectIs(f: Fs, i: nat, k: nat)
    requires i in f.ino && |f.ino[i].addrs| == NDIRECT + 1 && k < NDIRECT
    ensures BlockOf(f.disk, f.ino[i], k) == f.ino[i].addrs[k]
  {
  }

  lemma WithoutAll(f: Fs, i: nat)
    requires Inv(f) && i in f.ino && Addr(f.ino[i], NDIRECT) != 0
    ensures Without(f, i) == Left(f, i, MAXFILE) - {Addr(f.ino[i], NDIRECT)}
  {
    hide Bits, NoHoles, BlockOf;
    assert IndOwn(f, i);
    forall c | c in f.owner && Of(f.owner[c], i)
      ensures (f.owner[c].Data? && f.owner[c].bn < MAXFILE) || c == Addr(f.ino[i], NDIRECT)
    {
      assert FoundAt(f, c);
    }
    hide Framed, Maps;
  }

  lemma WithoutDirect(f: Fs, i: nat)
    requires Inv(f) && i in f.ino && Addr(f.ino[i], NDIRECT) == 0
    ensures Without(f, i) == Left(f, i, NDIRECT)
  {
    hide Bits, NoHoles, BlockOf;
    NoIndirect(f.disk, f.ino[i]);
    forall c | c in f.owner && Of(f.owner[c], i) ensures f.owner[c].Data? && f.owner[c].bn < NDIRECT {
      assert FoundAt(f, c) && c != 0;
    }
    hide Framed, Maps;
  }

  lemma OthersSame(f: Fs, g: Fs, i: nat)
    requires SameFiles(Detached(f, i), g)
    ensures g.ino.Keys == f.ino.Keys - {i}
    ensures forall k | k in f.ino && k != i :: k in g.ino && SameFile(f.disk, f.ino[k], g.disk, g.ino[k])
  {
    hide SameFile;
  }

  // ---------------------------------------------------------------------------
  // What this says about blocks and bytes
  // ---------------------------------------------------------------------------

  /** A block reachable from an inode is marked, and reachable from one place only. */
  lemma OnePlace(f: Fs, i: nat, bn: nat, k: nat, x: nat)
    requires Inv(f) && i in f.ino && k in f.ino && bn < MAXFILE && x < MAXFILE
    requires BlockOf(f.disk, f.ino[i], bn) != 0
    ensures BlockOf(f.disk, f.ino[i], bn) < f.sb.size && Marked(f.sb, f.disk, BlockOf(f.disk, f.ino[i], bn))
    ensures BlockOf(f.disk, f.ino[k], x) == BlockOf(f.disk, f.ino[i], bn) ==> k == i && x == bn
    ensures Addr(f.ino[k], NDIRECT) != BlockOf(f.disk, f.ino[i], bn)
  {
    hide NoHoles, BlockOf, Marked;
    assert PointsTo(f, i, bn) && PointsTo(f, k, x) && IndOwn(f, k);
  }

  lemma OneIndirect(f: Fs, i: nat, k: nat)
    requires Inv(f) && i in f.ino && k in f.ino && Addr(f.ino[i], NDIRECT) != 0
    ensures Addr(f.ino[i], NDIRECT) < f.sb.size && Marked(f.sb, f.disk, Addr(f.ino[i], NDIRECT))
    ensures Addr(f.ino[k], NDIRECT) == Addr(f.ino[i], NDIRECT) ==> k == i
  {
    hide NoHoles, BlockOf, Marked;
    assert IndOwn(f, i) && IndOwn(f, k);
  }

  /** What was written is what is read. */
  lemma ReadBack(f: Fs, g: Fs, i: nat, off: nat, s: seq<byte>, tot: nat)
    requires WrittenTo(f, g, i, off, s, tot)
    ensures i in g.ino && Reads(g.disk, g.ino[i], off, s)
  {
    hide FileByte;
    forall k | 0 <= k < |s| ensures FileByte(g.disk, g.ino[i], off + k) == s[k] {
      assert NewByte(f, g, i, off, s, i, off + k);
    }
  }

  lemma ReadsOnce(disk: Disk, n: Inode, off: nat, s: seq<byte>, t: seq<byte>)
    requires Reads(disk, n, off, s) && Reads(disk, n, off, t) && |s| == |t|
    ensures s == t
  {
    hide FileByte;
    forall k | 0 <= k < |s| ensures s[k] == t[k] {
      assert ReadsByte(disk, n, off + k, s[k]) && ReadsByte(disk, n, off + k, t[k]);
    }
  }

  /** When a write that did not run out of disk shows exactly the bytes it counts: everything could be
      read, or what could be read ends at a block boundary or is nothing. */
  lemma ShowsExactly(g: Fs, off: nat, k: nat, n: nat, tot: nat, seen: nat)
    requires Stopped(g, off, k, n, tot, seen) && k <= n && !DiskFull(g)
    ensures seen == tot <==> k == n || k == 0 || (off + k) % BSIZE == 0
  {
    hide DiskFull;
    assert k > 0 && (off + k) % BSIZE == 0 ==> (off + k) / BSIZE > off / BSIZE;
  }

  lemma WrittenSize(f: Fs, g: Fs, i: nat, off: nat, s: seq<byte>, tot: nat)
    requires WrittenTo(f, g, i, off, s, tot) && off <= f.ino[i].size
    ensures i in g.ino && off + tot <= g.ino[i].size
  {
    hide FileByte;
  }

  /** What writei has written is what readi returns. */
  method WriteThenRead(fs: FileSystem, i: nat, off: nat, src: seq<byte>) returns (r: Option<nat>, dst: seq<byte>)
    requires fs.Valid() && i in fs.ino && off <= fs.ino[i].size && off + |src| <= MAXFILE * BSIZE
    modifies fs
    ensures fs.Valid() && r.Some? && r.value <= |src| && dst == src[..r.value]
    ensures r.value < |src| ==> DiskFull(fs.View())
  {
    hide Inv, DiskFull, Reads, WrittenTo, Bitmap, Spans;
    SizeBound(fs.View(), i);
    ghost var f := fs.View();
    ghost var seen;
    r, seen := fs.Writei(i, off, src, |src|);
    ghost var g := fs.View();
    ReadBack(f, g, i, off, src[..seen], r.value);
    WrittenSize(f, g, i, off, src[..seen], r.value);
    var count;
    count, dst := fs.Readi(i, off, r.value, r.value);
    ReadsOnce(g.disk, g.ino[i], off, src[..seen], dst);
  }
}
