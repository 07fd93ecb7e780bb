/** The physical redo log of kernel/log.c, run by one process over a disk whose single-block
    writes are atomic and ordered.  A ghost trace records the disk after every block write, so
    a crash between any two writes is a choice of one entry of the trace. */
module WriteAheadLog {
  import opened Bytes

  const MAXOPBLOCKS: nat := 10
  const LOGSIZE: nat := 30

  /** The contents of one disk block. */
  datatype Sector = Sector(data: Block)

  type Disk = seq<Sector>

  function At(d: Disk, b: nat): Sector
  {
    if b < |d| then d[b] else Sector(ZeroBlock())
  }

  function Put(d: Disk, b: nat, s: Sector): (r: Disk)
    ensures |r| == |d|
  {
    if b < |d| then d[b := s] else d
  }

  // ---------------------------------------------------------------------------
  // The header block
  // ---------------------------------------------------------------------------

  /** The list of home block numbers recorded in a header block (read_head).  A count that does
      not fit the log, which the kernel never writes, is read as an empty list. */
  function DecodeHead(b: Block): (lh: seq<nat>)
  {
    if Le32(b, 0) <= LOGSIZE then Entries(b, Le32(b, 0)) else []
  }

  function Entries(b: Block, n: nat): (r: seq<nat>)
    requires n <= LOGSIZE
  {
    seq(n, i requires 0 <= i < LOGSIZE => Le32(b, 4 + 4 * i))
  }

  predicate Encodable(lh: seq<nat>)
  {
    |lh| <= LOGSIZE && forall i | 0 <= i < |lh| :: lh[i] < UINT32
  }

  /** The first `k` entries of `lh` stored behind the count. */
  function PutEntries(b: Block, lh: seq<nat>, k: nat): (r: Block)
    requires k <= |lh| && k <= LOGSIZE
  {
    if k == 0 then b else PutLe32(PutEntries(b, lh, k - 1), 4 + 4 * (k - 1), lh[k - 1])
  }

  lemma WordKept(b: seq<byte>, at: nat, v: nat, x: nat)
    requires at + 4 <= |b| && x + 4 <= |b| && (x + 4 <= at || at + 4 <= x)
    ensures Le32(PutLe32(b, at, v), x) == Le32(b, x)
  {
  }

  lemma {:induction false} PutEntriesAt(b: Block, lh: seq<nat>, k: nat)
    requires Encodable(lh) && k <= |lh|
    ensures Le32(PutEntries(b, lh, k), 0) == Le32(b, 0)
    ensures forall i | 0 <= i < k :: Le32(PutEntries(b, lh, k), 4 + 4 * i) == lh[i]
  {
    hide Le32, PutLe32;
    if k > 0 {
      PutEntriesAt(b, lh, k - 1);
      var c, at := PutEntries(b, lh, k - 1), 4 + 4 * (k - 1);
      WordKept(c, at, lh[k - 1], 0);
      forall i | 0 <= i < k ensures Le32(PutEntries(b, lh, k), 4 + 4 * i) == lh[i] {
        if i < k - 1 {
          WordKept(c, at, lh[k - 1], 4 + 4 * i);
        }
      }
    }
  }

  /** The header block after write_head: the count, then the entries, over the old bytes. */
  function EncodeHead(b: Block, lh: seq<nat>): (r: Block)
    requires |lh| <= LOGSIZE
  {
    PutEntries(PutLe32(b, 0, |lh|), lh, |lh|)
  }

  /** Reading a header back gives exactly what was written, whatever the block held before. */
  lemma HeadRoundTrip(b: Block, lh: seq<nat>)
    requires Encodable(lh)
    ensures DecodeHead(EncodeHead(b, lh)) == lh && Le32(EncodeHead(b, lh), 0) == |lh|
  {
    var e := EncodeHead(b, lh);
    PutEntriesAt(PutLe32(b, 0, |lh|), lh, |lh|);
    assert forall i | 0 <= i < |lh| :: DecodeHead(e)[i] == lh[i];
  }

  // ---------------------------------------------------------------------------
  // Installing and recovering, as functions on disks
  // ---------------------------------------------------------------------------

  /** `start` is the header block, `start + 1 .. start + size` hold log data. */
  datatype Layout = Layout(start: nat, size: nat)
  {
    predicate InLog(b: int) { start <= b < start + size }
  }

  /** `lh` is a transaction that fits the log region and names home blocks only. */
  predicate Loggable(lay: Layout, d: Disk, lh: seq<nat>)
  {
    && lay.start + lay.size <= |d|
    && Encodable(lh)
    && |lh| < lay.size
    && forall i | 0 <= i < |lh| :: lh[i] < |d| && !lay.InLog(lh[i])
  }

  /** The disk after write_head stores `lh`. */
  function SetHead(lay: Layout, d: Disk, lh: seq<nat>): (r: Disk)
    requires |lh| <= LOGSIZE
    ensures |r| == |d|
  {
    Put(d, lay.start, Sector(EncodeHead(At(d, lay.start).data, lh)))
  }

  /** The transaction recorded on disk; the empty list if there is none. */
  function Head(lay: Layout, d: Disk): seq<nat>
  {
    DecodeHead(At(d, lay.start).data)
  }

  predicate HeadFits(lay: Layout, d: Disk)
  {
    Le32(At(d, lay.start).data, 0) <= LOGSIZE
  }

  /** No transaction is recorded on disk. */
  predicate NoHead(lay: Layout, d: Disk)
  {
    HeadFits(lay, d) && Head(lay, d) == []
  }

  lemma SetHeadHead(lay: Layout, d: Disk, lh: seq<nat>)
    requires lay.start < |d| && Encodable(lh)
    ensures Head(lay, SetHead(lay, d, lh)) == lh && HeadFits(lay, SetHead(lay, d, lh))
  {
    HeadRoundTrip(At(d, lay.start).data, lh);
  }

  lemma SetHeadFrame(lay: Layout, d: Disk, lh: seq<nat>)
    requires |lh| <= LOGSIZE
    ensures forall b | 0 <= b < |d| && b != lay.start :: SetHead(lay, d, lh)[b] == d[b]
  {
  }

  /** A disk whose header names a loggable transaction. */
  predicate DiskOk(lay: Layout, d: Disk)
  {
    HeadFits(lay, d) && Loggable(lay, d, Head(lay, d))
  }

  /** The disk after the first `k` iterations of install_trans. */
  function Install(lay: Layout, d: Disk, lh: seq<nat>, k: nat): (r: Disk)
    requires k <= |lh|
    ensures |r| == |d|
  {
    if k == 0 then d else
      var e := Install(lay, d, lh, k - 1);
      Put(e, lh[k - 1], At(e, lay.start + k))
  }

  /** Installing changes no block but the first `k` recorded ones, and nothing in the log. */
  lemma {:induction false} InstallFrame(lay: Layout, d: Disk, lh: seq<nat>, k: nat)
    requires Loggable(lay, d, lh) && k <= |lh|
    ensures forall b | 0 <= b < |d| && b !in lh[..k] :: Install(lay, d, lh, k)[b] == d[b]
    ensures forall b | lay.InLog(b) :: Install(lay, d, lh, k)[b] == d[b]
  {
    if k > 0 {
      InstallFrame(lay, d, lh, k - 1);
      assert lh[..k] == lh[..k - 1] + [lh[k - 1]];
    }
  }

  /** The disk after the first `k` block writes of recover_from_log: one per recorded block,
      then the cleared header. */
  function PartialRecover(lay: Layout, d: Disk, k: nat): (r: Disk)
    ensures |r| == |d|
  {
    var lh := Head(lay, d);
    if k <= |lh| then Install(lay, d, lh, k) else SetHead(lay, Install(lay, d, lh, |lh|), [])
  }

  /** The disk after an undisturbed recover_from_log. */
  function Recover(lay: Layout, d: Disk): (r: Disk)
  {
    PartialRecover(lay, d, |Head(lay, d)| + 1)
  }

  /** While a recovery is in progress the header still names the same transaction; when it is
      complete the header is empty.  Either way the disk can be recovered again. */
  lemma PartialRecoverHead(lay: Layout, d: Disk, k: nat)
    requires DiskOk(lay, d)
    ensures DiskOk(lay, PartialRecover(lay, d, k))
    ensures Head(lay, PartialRecover(lay, d, k)) == if k <= |Head(lay, d)| then Head(lay, d) else []
  {
    var lh := Head(lay, d);
    if k <= |lh| {
      InstallFrame(lay, d, lh, k);
      assert lay.InLog(lay.start);
    } else {
      SetHeadHead(lay, Install(lay, d, lh, |lh|), []);
    }
  }

  /** One more block write of a recovery in progress. */
  lemma PartialRecoverStep(lay: Layout, boot: Disk, k: nat)
    requires DiskOk(lay, boot) && k <= |Head(lay, boot)|
    ensures var d, lh := PartialRecover(lay, boot, k), Head(lay, boot);
            && Head(lay, d) == lh
            && (k < |lh| ==> PartialRecover(lay, boot, k + 1) == Put(d, lh[k], At(d, lay.start + k + 1)))
            && (k == |lh| ==> Recover(lay, boot) == SetHead(lay, d, []))
  {
    PartialRecoverHead(lay, boot, k);
  }

  /** `c` and `d` agree on every block outside the log region. */
  predicate SameHome(lay: Layout, c: Disk, d: Disk)
  {
    |c| == |d| && forall b | 0 <= b < |c| && !lay.InLog(b) :: c[b] == d[b]
  }

  /** Installing from a disk on which part of the same transaction is already installed. */
  lemma {:induction false} InstallAgain(lay: Layout, d: Disk, e: Disk, lh: seq<nat>, k: nat)
    requires Loggable(lay, d, lh) && |e| == |d| && k <= |lh|
    requires forall b | lay.InLog(b) :: e[b] == d[b]
    ensures forall b | 0 <= b < |d| ::
              Install(lay, e, lh, k)[b] == if b in lh[..k] then Install(lay, d, lh, k)[b] else e[b]
  {
    if k > 0 {
      InstallAgain(lay, d, e, lh, k - 1);
      InstallFrame(lay, d, lh, k - 1);
      InstallFrame(lay, e, lh, k - 1);
      assert lh[..k] == lh[..k - 1] + [lh[k - 1]];
    }
  }

  /** Recovery after a recovery that stopped after any number of block writes gives the same
      home blocks as one undisturbed recovery. */
  lemma RecoverAfterPartial(lay: Layout, d: Disk, k: nat)
    requires DiskOk(lay, d)
    ensures SameHome(lay, Recover(lay, PartialRecover(lay, d, k)), Recover(lay, d))
  {
    var lh := Head(lay, d);
    var e := PartialRecover(lay, d, k);
    PartialRecoverHead(lay, d, k);
    if k <= |lh| {
      InstallFrame(lay, d, lh, k);
      InstallFrame(lay, d, lh, |lh|);
      InstallAgain(lay, d, e, lh, |lh|);
      assert lh[..|lh|] == lh;
    }
  }

  /** The disk after recoveries that were cut off after `cuts[0]`, `cuts[1]`, ... block writes
      (a cut beyond the last write is a completed recovery). */
  function Interrupted(lay: Layout, d: Disk, cuts: seq<nat>): (r: Disk)
    decreases |cuts|
  {
    if cuts == [] then d else Interrupted(lay, PartialRecover(lay, d, cuts[0]), cuts[1..])
  }

  /** Any number of interrupted recoveries before a completed one makes no difference. */
  lemma {:induction false} RecoveryIdempotent(lay: Layout, d: Disk, cuts: seq<nat>)
    requires DiskOk(lay, d)
    ensures SameHome(lay, Recover(lay, Interrupted(lay, d, cuts)), Recover(lay, d))
    decreases |cuts|
  {
    if cuts != [] {
      RecoverAfterPartial(lay, d, cuts[0]);
      PartialRecoverHead(lay, d, cuts[0]);
      RecoveryIdempotent(lay, PartialRecover(lay, d, cuts[0]), cuts[1..]);
    }
  }

  /** A machine that stops with disk `d` ends up with the home blocks of `home`. */
  predicate RecoversTo(lay: Layout, d: Disk, home: Disk)
  {
    DiskOk(lay, d) && SameHome(lay, Recover(lay, d), home)
  }

  /** The crash guarantee in full: interrupted recoveries do not change where a disk ends up. */
  lemma RecoversToAlways(lay: Layout, d: Disk, home: Disk, cuts: seq<nat>)
    requires RecoversTo(lay, d, home)
    ensures SameHome(lay, Recover(lay, Interrupted(lay, d, cuts)), home)
  {
    RecoveryIdempotent(lay, d, cuts);
  }

  // ---------------------------------------------------------------------------
  // Committing, as functions on disks
  // ---------------------------------------------------------------------------

  predicate Distinct(lh: seq<nat>)
  {
    forall i, j | 0 <= i < j < |lh| :: lh[i] != lh[j]
  }

  /** The disk after the first `k` iterations of write_log, `view` being the cached contents. */
  function CopyToLog(lay: Layout, d: Disk, view: Disk, lh: seq<nat>, k: nat): (r: Disk)
    requires k <= |lh|
    ensures |r| == |d|
  {
    if k == 0 then d else Put(CopyToLog(lay, d, view, lh, k - 1), lay.start + k, At(view, lh[k - 1]))
  }

  lemma {:induction false} CopyToLogAt(lay: Layout, d: Disk, view: Disk, lh: seq<nat>, k: nat)
    requires Loggable(lay, d, lh) && |view| == |d| && k <= |lh|
    ensures SameHome(lay, CopyToLog(lay, d, view, lh, k), d)
    ensures CopyToLog(lay, d, view, lh, k)[lay.start] == d[lay.start]
    ensures forall i | 0 <= i < k :: CopyToLog(lay, d, view, lh, k)[lay.start + 1 + i] == view[lh[i]]
  {
    if k > 0 {
      CopyToLogAt(lay, d, view, lh, k - 1);
    }
  }

  /** The disk after the `j`-th block write of commit: write_log, write_head, install_trans and
      write_head again make `2 * |lh| + 2` writes in all. */
  function CommitDisk(lay: Layout, d: Disk, view: Disk, lh: seq<nat>, j: nat): (r: Disk)
    requires |lh| <= LOGSIZE
  {
    if j <= |lh| then
      CopyToLog(lay, d, view, lh, j)
    else
      var e := SetHead(lay, CopyToLog(lay, d, view, lh, |lh|), lh);
      if j <= 2 * |lh| + 1 then Install(lay, e, lh, j - |lh| - 1)
      else SetHead(lay, Install(lay, e, lh, |lh|), [])
  }

  /** With distinct entries, installing copies log block `i + 1` to home block `lh[i]`. */
  lemma {:induction false} InstallAt(lay: Layout, d: Disk, lh: seq<nat>, k: nat, i: nat)
    requires Loggable(lay, d, lh) && Distinct(lh) && i < k <= |lh|
    ensures Install(lay, d, lh, k)[lh[i]] == d[lay.start + 1 + i]
  {
    if i == k - 1 {
      InstallFrame(lay, d, lh, k - 1);
      assert lay.InLog(lay.start + k);
    } else {
      InstallAt(lay, d, lh, k - 1, i);
    }
  }

  /** A committed disk (header and copies on disk) recovers to the transaction's contents, and
      so does every disk on the way through install_trans and the second write_head. */
  lemma CommittedRecovers(lay: Layout, d: Disk, lh: seq<nat>, home: Disk, k: nat)
    requires DiskOk(lay, d) && Head(lay, d) == lh && Distinct(lh) && |home| == |d|
    requires forall i | 0 <= i < |lh| :: d[lay.start + 1 + i] == home[lh[i]]
    requires forall b | 0 <= b < |d| && !lay.InLog(b) && b !in lh :: d[b] == home[b]
    ensures RecoversTo(lay, PartialRecover(lay, d, k), home)
  {
    RecoverAfterPartial(lay, d, k);
    PartialRecoverHead(lay, d, k);
    var e := Install(lay, d, lh, |lh|);
    InstallFrame(lay, d, lh, |lh|);
    forall b | 0 <= b < |d| && !lay.InLog(b) ensures e[b] == home[b] {
      if i :| 0 <= i < |lh| && lh[i] == b {
        InstallAt(lay, d, lh, |lh|, i);
      } else {
        assert b !in lh[..|lh|];
      }
    }
  }

  /** A disk with an empty header recovers to its own home blocks. */
  lemma UncommittedRecovers(lay: Layout, d: Disk, home: Disk)
    requires lay.start + lay.size <= |d| && 0 < lay.size && HeadFits(lay, d)
    requires Head(lay, d) == [] && SameHome(lay, d, home)
    ensures RecoversTo(lay, d, home)
  {
  }

  /** Crash atomicity of commit: a machine that stops after any number `j` of block writes of
      commit ends up with the old home blocks if the first header write had not reached the disk,
      and with the file system's view if it had. */
  lemma CommitAtomic(lay: Layout, d: Disk, view: Disk, lh: seq<nat>, j: nat)
    requires Loggable(lay, d, lh) && Distinct(lh) && NoHead(lay, d) && |view| == |d|
    requires forall b | 0 <= b < |d| && !lay.InLog(b) && b !in lh :: view[b] == d[b]
    ensures RecoversTo(lay, CommitDisk(lay, d, view, lh, j), if j <= |lh| then d else view)
  {
    if j <= |lh| {
      CommitBefore(lay, d, view, lh, j);
    } else {
      CommitAfter(lay, d, view, lh, j);
    }
    hide *;
  }

  /** Up to the header write. */
  lemma CommitBefore(lay: Layout, d: Disk, view: Disk, lh: seq<nat>, j: nat)
    requires Loggable(lay, d, lh) && NoHead(lay, d) && |view| == |d| && j <= |lh|
    ensures RecoversTo(lay, CommitDisk(lay, d, view, lh, j), d)
  {
    CopyToLogAt(lay, d, view, lh, j);
    UncommittedRecovers(lay, CommitDisk(lay, d, view, lh, j), d);
  }

  /** After it. */
  lemma CommitAfter(lay: Layout, d: Disk, view: Disk, lh: seq<nat>, j: nat)
    requires Loggable(lay, d, lh) && Distinct(lh) && |view| == |d| && |lh| < j
    requires forall b | 0 <= b < |d| && !lay.InLog(b) && b !in lh :: view[b] == d[b]
    ensures RecoversTo(lay, CommitDisk(lay, d, view, lh, j), view)
  {
    hide *;
    CommittedDisk(lay, d, view, lh);
    CommitIs(lay, d, view, lh, j);
    CommittedRecovers(lay, SetHead(lay, CopyToLog(lay, d, view, lh, |lh|), lh), lh, view, j - |lh| - 1);
  }

  /** The disk at the commit point: the header lists the blocks and the log holds their contents. */
  lemma CommittedDisk(lay: Layout, d: Disk, view: Disk, lh: seq<nat>)
    requires Loggable(lay, d, lh) && |view| == |d|
    requires forall b | 0 <= b < |d| && !lay.InLog(b) && b !in lh :: view[b] == d[b]
    ensures |lh| <= LOGSIZE
    ensures var e := SetHead(lay, CopyToLog(lay, d, view, lh, |lh|), lh);
            && DiskOk(lay, e) && Head(lay, e) == lh && |e| == |d|
            && (forall i | 0 <= i < |lh| :: e[lay.start + 1 + i] == view[lh[i]])
            && forall b | 0 <= b < |d| && !lay.InLog(b) && b !in lh :: e[b] == view[b]
  {
    var c := CopyToLog(lay, d, view, lh, |lh|);
    CopyToLogAt(lay, d, view, lh, |lh|);
    SetHeadHead(lay, c, lh);
    SetHeadFrame(lay, c, lh);
    hide CopyToLog, Head, SetHead, HeadFits, Encodable;
  }

  /** From the header write on, commit does what a recovery would do. */
  lemma CommitIs(lay: Layout, d: Disk, view: Disk, lh: seq<nat>, j: nat)
    requires |lh| < j && |lh| <= LOGSIZE
    requires Head(lay, SetHead(lay, CopyToLog(lay, d, view, lh, |lh|), lh)) == lh
    ensures CommitDisk(lay, d, view, lh, j)
            == PartialRecover(lay, SetHead(lay, CopyToLog(lay, d, view, lh, |lh|), lh), j - |lh| - 1)
  {
    hide CopyToLog, Head, SetHead, Install;
  }

  /** The block list after log_write: a block already in it is absorbed. */
  function Absorb(lh: seq<nat>, b: nat): (r: seq<nat>)
    ensures Distinct(lh) ==> Distinct(r)
    ensures b in r && forall x :: x in r <==> x in lh || x == b
  {
    if b in lh then lh else lh + [b]
  }

  /** The disks after the block writes `i + 1 .. j` of commit. */
  ghost function CommitTrace(lay: Layout, d: Disk, view: Disk, lh: seq<nat>, i: nat, j: nat): (t: seq<Disk>)
    requires |lh| <= LOGSIZE && i <= j
    ensures |t| == j - i
  {
    if i == j then [] else CommitTrace(lay, d, view, lh, i, j - 1) + [CommitDisk(lay, d, view, lh, j)]
  }

  // ---------------------------------------------------------------------------
  // The log in memory
  // ---------------------------------------------------------------------------

  /** The disk with the cached copies laid over it. */
  ghost function Overlay(d: Disk, cache: map<nat, Sector>): (v: Disk)
    ensures |v| == |d|
    ensures forall b | 0 <= b < |d| :: v[b] == if b in cache then cache[b] else d[b]
  {
    seq(|d|, b requires 0 <= b < |d| => if b in cache then cache[b] else d[b])
  }

  /** What bread returns for block `b`. */
  function Cached(d: Disk, cache: map<nat, Sector>, b: nat): Sector
  {
    if b in cache then cache[b] else At(d, b)
  }

  /** Every home block reads as in `v`. */
  ghost predicate Shows(lay: Layout, d: Disk, cache: map<nat, Sector>, v: Disk)
  {
    |v| == |d| && forall b: nat | b < |d| && !lay.InLog(b) :: Cached(d, cache, b) == v[b]
  }

  /** `lh` is being collected: its blocks are cached (pinned), all other cached blocks agree
      with the disk. */
  ghost predicate OpenTransaction(lay: Layout, d: Disk, cache: map<nat, Sector>, lh: seq<nat>)
  {
    && Loggable(lay, d, lh) && Distinct(lh)
    && (forall b | b in cache && b !in lh :: cache[b] == At(d, b))
    && (forall b | b in lh :: b in cache)
  }

  /** What one iteration of write_log does to the disk and the cache. */
  ghost function CopyStep(lay: Layout, d: Disk, cache: map<nat, Sector>, lh: seq<nat>, k: nat)
    : (r: (Disk, map<nat, Sector>))
    requires k < |lh|
  {
    var to, from := lay.start + k + 1, lh[k];
    var c1 := cache[to := Cached(d, cache, to)];
    var data := Cached(d, c1, from);
    (Put(d, to, data), c1[from := data][to := data])
  }

  /** log_write puts a changed block into the transaction. */
  lemma AbsorbKeeps(lay: Layout, d: Disk, cache: map<nat, Sector>, lh: seq<nat>, b: nat, data: Sector)
    requires OpenTransaction(lay, d, cache, lh) && b < |d| && b < UINT32 && !lay.InLog(b)
    requires |lh| < LOGSIZE && |lh| < lay.size - 1
    ensures OpenTransaction(lay, d, cache[b := data], Absorb(lh, b))
    ensures Overlay(d, cache[b := data]) == Overlay(d, cache)[b := data]
  {
  }

  /** Reading a block into the cache keeps the transaction open and every block's value. */
  lemma FillKeeps(lay: Layout, v: Disk, d: Disk, cache: map<nat, Sector>, lh: seq<nat>, b: nat)
    requires OpenTransaction(lay, d, cache, lh) && Shows(lay, d, cache, v)
    ensures OpenTransaction(lay, d, cache[b := Cached(d, cache, b)], lh)
    ensures Shows(lay, d, cache[b := Cached(d, cache, b)], v)
  {
  }

  /** Writing a log block keeps the transaction open and the value of every home block. */
  lemma LogWriteKeeps(lay: Layout, v: Disk, d: Disk, cache: map<nat, Sector>, lh: seq<nat>, to: nat, data: Sector)
    requires OpenTransaction(lay, d, cache, lh) && Shows(lay, d, cache, v) && lay.InLog(to)
    ensures OpenTransaction(lay, Put(d, to, data), cache[to := data], lh)
    ensures Shows(lay, Put(d, to, data), cache[to := data], v)
  {
  }

  lemma ShowsLogged(lay: Layout, v: Disk, d: Disk, cache: map<nat, Sector>, lh: seq<nat>, k: nat)
    requires OpenTransaction(lay, d, cache, lh) && Shows(lay, d, cache, v) && k < |lh|
    ensures lay.InLog(lay.start + k + 1) && Cached(d, cache, lh[k]) == At(v, lh[k])
  {
  }

  /** An iteration of write_log keeps the transaction open and the value of every home block. */
  lemma CopyStepKeeps(lay: Layout, v: Disk, d: Disk, cache: map<nat, Sector>, lh: seq<nat>, k: nat)
    requires OpenTransaction(lay, d, cache, lh) && Shows(lay, d, cache, v) && k < |lh|
    ensures var (d', cache') := CopyStep(lay, d, cache, lh, k);
            && OpenTransaction(lay, d', cache', lh) && Shows(lay, d', cache', v)
            && d' == Put(d, lay.start + k + 1, At(v, lh[k]))
  {
    hide OpenTransaction, Shows;
    var to, from := lay.start + k + 1, lh[k];
    FillKeeps(lay, v, d, cache, lh, to);
    var c1 := cache[to := Cached(d, cache, to)];
    ShowsLogged(lay, v, d, c1, lh, k);
    FillKeeps(lay, v, d, c1, lh, from);
    LogWriteKeeps(lay, v, d, c1[from := Cached(d, c1, from)], lh, to, Cached(d, c1, from));
  }

  lemma CopyToLogStep(lay: Layout, d: Disk, view: Disk, lh: seq<nat>, k: nat)
    requires k < |lh| <= LOGSIZE
    ensures CopyToLog(lay, d, view, lh, k + 1)
         == Put(CopyToLog(lay, d, view, lh, k), lay.start + k + 1, At(view, lh[k]))
    ensures CommitTrace(lay, d, view, lh, 0, k + 1)
         == CommitTrace(lay, d, view, lh, 0, k) + [CopyToLog(lay, d, view, lh, k + 1)]
  {
  }

  /** A cached block that is not in the rest of the transaction, from entry `k` on, agrees with
      the disk. */
  ghost predicate CoherentFrom(lay: Layout, d: Disk, cache: map<nat, Sector>, lh: seq<nat>, k: nat)
  {
    && k <= |lh|
    && (forall i | 0 <= i < |lh| :: !lay.InLog(lh[i]))
    && |lh| < lay.size
    && forall b: nat | b in cache :: cache[b] == At(d, b) || exists i :: k <= i < |lh| && lh[i] == b
  }

  /** What one iteration of install_trans does to the disk and the cache. */
  ghost function InstallStep(lay: Layout, d: Disk, cache: map<nat, Sector>, lh: seq<nat>, k: nat)
    : (r: (Disk, map<nat, Sector>))
    requires k < |lh|
  {
    var from, to := lay.start + k + 1, lh[k];
    var data := Cached(d, cache, from);
    var c1 := cache[from := data];
    (Put(d, to, data), c1[to := Cached(d, c1, to)][to := data])
  }

  /** An iteration of install_trans installs the disk's copy, not a stale cached one. */
  lemma InstallStepKeeps(lay: Layout, d: Disk, cache: map<nat, Sector>, lh: seq<nat>, k: nat)
    requires CoherentFrom(lay, d, cache, lh, k) && k < |lh|
    ensures var (d', cache') := InstallStep(lay, d, cache, lh, k);
            && d' == Put(d, lh[k], At(d, lay.start + k + 1))
            && (lh[k] < |d| ==> CoherentFrom(lay, d', cache', lh, k + 1))
  {
    assert lay.InLog(lay.start + k + 1);
  }

  ghost function InstallTrace(lay: Layout, d: Disk, lh: seq<nat>, k: nat): (t: seq<Disk>)
    requires k <= |lh|
    ensures |t| == k
  {
    if k == 0 then [] else InstallTrace(lay, d, lh, k - 1) + [Install(lay, d, lh, k)]
  }

  /** One turn of install_trans, on the disk so far. */
  lemma InstallTurn(lay: Layout, d0: Disk, cache: map<nat, Sector>, lh: seq<nat>, k: nat)
    requires Loggable(lay, d0, lh) && k < |lh| && CoherentFrom(lay, Install(lay, d0, lh, k), cache, lh, k)
    ensures var (d, cache') := InstallStep(lay, Install(lay, d0, lh, k), cache, lh, k);
            && d == Install(lay, d0, lh, k + 1) && CoherentFrom(lay, d, cache', lh, k + 1)
            && InstallTrace(lay, d0, lh, k + 1) == InstallTrace(lay, d0, lh, k) + [d]
  {
    InstallStepKeeps(lay, Install(lay, d0, lh, k), cache, lh, k);
    InstallUnfold(lay, d0, lh, k);
    hide CoherentFrom, InstallStep, Install, InstallTrace;
  }

  lemma InstallUnfold(lay: Layout, d: Disk, lh: seq<nat>, k: nat)
    requires k < |lh|
    ensures var e := Install(lay, d, lh, k); Install(lay, d, lh, k + 1) == Put(e, lh[k], At(e, lay.start + k + 1))
    ensures InstallTrace(lay, d, lh, k + 1) == InstallTrace(lay, d, lh, k) + [Install(lay, d, lh, k + 1)]
  {
  }

  /** The header block is never part of a transaction, so its cached copy is the disk's. */
  lemma HeadCoherent(lay: Layout, d: Disk, cache: map<nat, Sector>, lh: seq<nat>)
    requires OpenTransaction(lay, d, cache, lh)
    ensures Cached(d, cache, lay.start) == At(d, lay.start)
    ensures var s := Sector(EncodeHead(At(d, lay.start).data, lh));
            CoherentFrom(lay, Put(d, lay.start, s), cache[lay.start := s], lh, 0)
  {
    assert lay.InLog(lay.start);
  }

  /** Once everything is installed the transaction can be forgotten. */
  lemma EraseCoherent(lay: Layout, d: Disk, cache: map<nat, Sector>, lh: seq<nat>)
    requires CoherentFrom(lay, d, cache, lh, |lh|) && lay.start + lay.size <= |d|
    ensures Cached(d, cache, lay.start) == At(d, lay.start)
    ensures var s := Sector(EncodeHead(At(d, lay.start).data, []));
            OpenTransaction(lay, Put(d, lay.start, s), cache[lay.start := s], [])
  {
  }

  /** The writes of the two halves of commit, put together. */
  lemma {:induction false} CommitTraceInstall(lay: Layout, d: Disk, view: Disk, lh: seq<nat>, k: nat)
    requires k <= |lh| <= LOGSIZE
    ensures var e := CommitDisk(lay, d, view, lh, |lh| + 1);
            CommitTrace(lay, d, view, lh, 0, |lh| + 1 + k)
            == CommitTrace(lay, d, view, lh, 0, |lh|) + [e] + InstallTrace(lay, e, lh, k)
  {
    var e := CommitDisk(lay, d, view, lh, |lh| + 1);
    assert CommitDisk(lay, d, view, lh, |lh| + 1 + k) == Install(lay, e, lh, k);
    hide CommitDisk, Install;
    if k > 0 {
      CommitTraceInstall(lay, d, view, lh, k - 1);
    }
  }

  lemma CommitTraceJoin(lay: Layout, d: Disk, view: Disk, lh: seq<nat>)
    requires |lh| <= LOGSIZE
    ensures var e := CommitDisk(lay, d, view, lh, |lh| + 1);
            CommitTrace(lay, d, view, lh, 0, 2 * |lh| + 2)
            == CommitTrace(lay, d, view, lh, 0, |lh|) + [e] + InstallTrace(lay, e, lh, |lh|)
               + [CommitDisk(lay, d, view, lh, 2 * |lh| + 2)]
  {
    CommitTraceInstall(lay, d, view, lh, |lh|);
  }

  lemma CommitDiskEnd(lay: Layout, d: Disk, view: Disk, lh: seq<nat>)
    requires |lh| <= LOGSIZE
    ensures CommitDisk(lay, d, view, lh, 2 * |lh| + 2)
            == SetHead(lay, Install(lay, CommitDisk(lay, d, view, lh, |lh| + 1), lh, |lh|), [])
  {
  }

  lemma Join(t: seq<Disk>, a: seq<Disk>, x: Disk, b: seq<Disk>, y: Disk)
    ensures t + a + [x] + b + [y] == t + (a + [x] + b + [y])
  {
  }

  /** The first `k` disks of `t` recover to `before`, the others to `after`. */
  ghost predicate RecoverInTurn(lay: Layout, t: seq<Disk>, k: nat, before: Disk, after: Disk)
  {
    forall j | 0 <= j < |t| :: RecoversTo(lay, t[j], if j < k then before else after)
  }

  lemma WriteLogStart(lay: Layout, d: Disk, cache: map<nat, Sector>, lh: seq<nat>)
    requires |lh| <= LOGSIZE && OpenTransaction(lay, d, cache, lh)
    ensures Shows(lay, d, cache, Overlay(d, cache)) && |Overlay(d, cache)| == |d|
    ensures CopyToLog(lay, d, Overlay(d, cache), lh, 0) == d && CommitTrace(lay, d, Overlay(d, cache), lh, 0, 0) == []
  {
  }

  /** Crash atomicity over the whole trace of commit. */
  lemma {:induction false} CommitTraceRecovers(lay: Layout, d: Disk, view: Disk, lh: seq<nat>, m: nat)
    requires Loggable(lay, d, lh) && Distinct(lh) && NoHead(lay, d) && |view| == |d|
    requires forall b | 0 <= b < |d| && !lay.InLog(b) && b !in lh :: view[b] == d[b]
    ensures RecoverInTurn(lay, CommitTrace(lay, d, view, lh, 0, m), |lh|, d, view)
  {
    hide RecoversTo, CommitDisk, Loggable, Distinct, NoHead;
    if m > 0 {
      CommitTraceRecovers(lay, d, view, lh, m - 1);
      CommitAtomic(lay, d, view, lh, m);
    }
  }

  /** A finished commit leaves the new home blocks and an empty header. */
  lemma CommitDone(lay: Layout, d: Disk, view: Disk, lh: seq<nat>)
    requires Loggable(lay, d, lh) && Distinct(lh) && NoHead(lay, d) && |view| == |d|
    requires forall b | 0 <= b < |d| && !lay.InLog(b) && b !in lh :: view[b] == d[b]
    ensures var e := CommitDisk(lay, d, view, lh, 2 * |lh| + 2); NoHead(lay, e) && SameHome(lay, e, view)
  {
    var e := CommitDisk(lay, d, view, lh, 2 * |lh| + 2);
    CommitAtomic(lay, d, view, lh, 2 * |lh| + 2);
    SetHeadHead(lay, CommitDisk(lay, d, view, lh, 2 * |lh| + 1), []);
    assert Recover(lay, e) == SetHead(lay, e, []);
  }

  /** Every disk of a recovery in progress recovers to the same home blocks. */
  lemma {:induction false} RecoverTraceRecovers(lay: Layout, d: Disk, k: nat)
    requires DiskOk(lay, d) && k <= |Head(lay, d)|
    ensures RecoverInTurn(lay, InstallTrace(lay, d, Head(lay, d), k), 0, Recover(lay, d), Recover(lay, d))
    ensures RecoversTo(lay, Recover(lay, d), Recover(lay, d))
  {
    RecoverAfterPartial(lay, d, k);
    PartialRecoverHead(lay, d, k);
    if k > 0 {
      RecoverTraceRecovers(lay, d, k - 1);
    } else {
      RecoverAfterPartial(lay, d, |Head(lay, d)| + 1);
      PartialRecoverHead(lay, d, |Head(lay, d)| + 1);
    }
  }

  lemma HeadFitsOf(lay: Layout, d: Disk)
    requires DiskOk(lay, d)
    ensures HeadFits(lay, d) && Loggable(lay, d, Head(lay, d))
  {
  }

  /** A whole recovery, and where it can be cut off. */
  lemma {:induction false} RecoverSteps(lay: Layout, d: Disk)
    requires DiskOk(lay, d)
    ensures var lh, r := Head(lay, d), Recover(lay, d);
            && r == SetHead(lay, Install(lay, d, lh, |lh|), []) && NoHead(lay, r)
            && RecoverInTurn(lay, InstallTrace(lay, d, lh, |lh|) + [r], 0, r, r)
            && CoherentFrom(lay, d, map[lay.start := At(d, lay.start)], lh, 0)
  {
    var lh, r := Head(lay, d), Recover(lay, d);
    RecoverTraceRecovers(lay, d, |lh|);
    PartialRecoverHead(lay, d, |lh| + 1);
    hide RecoversTo, Head, HeadFits;
    assert RecoverInTurn(lay, InstallTrace(lay, d, lh, |lh|) + [r], 0, r, r);
  }

  /** The loop of write_head over the header buffer. */
  method FillHead(b: Block, block: array<nat>, n: nat) returns (hb: Block)
    requires n <= block.Length && n <= LOGSIZE
    ensures hb == EncodeHead(b, block[..n])
  {
    hb := PutLe32(b, 0, n);
    for i := 0 to n
      invariant |hb| == BSIZE && hb == PutEntries(PutLe32(b, 0, n), block[..n], i)
    {
      hb := PutLe32(hb, 4 + 4 * i, block[i]);
    }
  }

  class Log {
    const lay: Layout
    var disk: Disk
    /** Contents of the cached blocks (kernel/bio.c); recorded blocks are pinned here. */
    var cache: map<nat, Sector>
    /** The in-memory header: `block[..n]`. */
    var n: nat
    const block: array<nat>
    var outstanding: nat
    var committing: bool
    /** The disk after each block write so far. */
    ghost var trace: seq<Disk>

    ghost predicate Shape()
      reads this
    {
      n <= LOGSIZE == block.Length
    }

    ghost function Lh(): seq<nat>
      reads this, block
      requires Shape()
    {
      block[..n]
    }

    /** Between transactions (with `n == 0`) and while one is open. */
    ghost predicate Valid()
      reads this, block
    {
      Shape() && OpenTransaction(lay, disk, cache, Lh())
    }

    /** Every block as the file system sees it: the cached copy if there is one. */
    ghost function View(): (v: Disk)
      reads this
    {
      Overlay(disk, cache)
    }

    method Bread(b: nat) returns (data: Sector)
      modifies this`cache
      ensures data == Cached(disk, old(cache), b) && cache == old(cache)[b := data]
    {
      if b !in cache {
        cache := cache[b := At(disk, b)];
      }
      data := cache[b];
    }

    /** Overwrites the cached copy of `b` and writes it to disk. */
    method Bwrite(b: nat, data: Sector)
      modifies this`cache, this`disk, this`trace
      ensures disk == Put(old(disk), b, data) && cache == old(cache)[b := data]
      ensures trace == old(trace) + [disk]
    {
      cache := cache[b := data];
      disk := Put(disk, b, data);
      trace := trace + [disk];
    }

    /** One iteration of write_log. */
    method WriteLogBlock(tail: nat)
      requires Shape() && tail < n
      modifies this`cache, this`disk, this`trace
      ensures (disk, cache) == CopyStep(lay, old(disk), old(cache), Lh(), tail)
      ensures trace == old(trace) + [disk]
    {
      var to := Bread(lay.start + tail + 1);
      var from := Bread(block[tail]);
      Bwrite(lay.start + tail + 1, from);
    }

    /** write_log: copies the cached blocks of the transaction into the log region. */
    method WriteLog()
      requires Valid()
      modifies this`cache, this`disk, this`trace
      ensures Valid()
      ensures disk == CopyToLog(lay, old(disk), old(View()), Lh(), n)
      ensures trace == old(trace) + CommitTrace(lay, old(disk), old(View()), Lh(), 0, n)
    {
      hide OpenTransaction, Shows, CopyStep, CopyToLog, CommitTrace, Put, At, Overlay;
      ghost var lh, d0, v0, t0 := Lh(), disk, View(), trace;
      WriteLogStart(lay, disk, cache, lh);
      for tail := 0 to n
        invariant OpenTransaction(lay, disk, cache, lh) && Shows(lay, disk, cache, v0)
        invariant disk == CopyToLog(lay, d0, v0, lh, tail)
        invariant trace == t0 + CommitTrace(lay, d0, v0, lh, 0, tail)
      {
        CopyStepKeeps(lay, v0, disk, cache, lh, tail);
        CopyToLogStep(lay, d0, v0, lh, tail);
        WriteLogBlock(tail);
      }
    }

    /** write_head: the commit point when `n > 0`, the end of the transaction when `n == 0`. */
    method WriteHead()
      requires Shape() && Cached(disk, cache, lay.start) == At(disk, lay.start)
      modifies this`cache, this`disk, this`trace
      ensures disk == SetHead(lay, old(disk), Lh())
      ensures cache == old(cache)[lay.start := Sector(EncodeHead(At(old(disk), lay.start).data, Lh()))]
      ensures trace == old(trace) + [disk]
    {
      var hb := Bread(lay.start);
      var data := FillHead(hb.data, block, n);
      Bwrite(lay.start, Sector(data));
    }

    /** One iteration of install_trans. */
    method InstallBlock(tail: nat)
      requires Shape() && tail < n
      modifies this`cache, this`disk, this`trace
      ensures (disk, cache) == InstallStep(lay, old(disk), old(cache), Lh(), tail)
      ensures trace == old(trace) + [disk]
    {
      var lbuf := Bread(lay.start + tail + 1);
      var dbuf := Bread(block[tail]);
      Bwrite(block[tail], lbuf);
    }

    /** install_trans: copies the logged blocks to their home locations. */
    method InstallTrans()
      requires Shape() && Loggable(lay, disk, Lh()) && CoherentFrom(lay, disk, cache, Lh(), 0)
      modifies this`cache, this`disk, this`trace
      ensures CoherentFrom(lay, disk, cache, Lh(), n)
      ensures disk == Install(lay, old(disk), Lh(), n)
      ensures trace == old(trace) + InstallTrace(lay, old(disk), Lh(), n)
    {
      ghost var lh, d0, t0 := Lh(), disk, trace;
      assert Install(lay, d0, lh, 0) == d0 && InstallTrace(lay, d0, lh, 0) == [];
      hide CoherentFrom, InstallStep, Install, InstallTrace, Loggable;
      for tail := 0 to n
        invariant CoherentFrom(lay, disk, cache, lh, tail)
        invariant disk == Install(lay, d0, lh, tail)
        invariant trace == t0 + InstallTrace(lay, d0, lh, tail)
      {
        InstallTurn(lay, d0, cache, lh, tail);
        InstallBlock(tail);
      }
    }

    /** The first half of commit: write_log, then the write_head that commits. */
    method WriteTransaction()
      requires Valid()
      modifies this`cache, this`disk, this`trace
      ensures CoherentFrom(lay, disk, cache, Lh(), 0) && Loggable(lay, disk, Lh())
      ensures disk == CommitDisk(lay, old(disk), old(View()), Lh(), n + 1)
      ensures trace == old(trace) + CommitTrace(lay, old(disk), old(View()), Lh(), 0, n) + [disk]
    {
      WriteLog();
      HeadCoherent(lay, disk, cache, Lh());
      WriteHead();
    }

    /** What commit and recover_from_log share: install the blocks, then erase the header. */
    method InstallAndErase()
      requires Shape() && Loggable(lay, disk, Lh()) && CoherentFrom(lay, disk, cache, Lh(), 0)
      modifies this`cache, this`disk, this`trace, this`n
      ensures n == 0 && Valid()
      ensures disk == SetHead(lay, Install(lay, old(disk), old(Lh()), old(n)), [])
      ensures trace == old(trace) + InstallTrace(lay, old(disk), old(Lh()), old(n)) + [disk]
    {
      InstallTrans();
      EraseCoherent(lay, disk, cache, Lh());
      n := 0;
      WriteHead();
    }

    /** commit, when there is something to commit. */
    method CommitBlocks()
      requires Valid()
      modifies this`cache, this`disk, this`trace, this`n
      ensures n == 0 && Valid()
      ensures disk == CommitDisk(lay, old(disk), old(View()), old(Lh()), 2 * old(n) + 2)
      ensures trace == old(trace) + CommitTrace(lay, old(disk), old(View()), old(Lh()), 0, 2 * old(n) + 2)
    {
      ghost var t0, d0, v0, lh := trace, disk, View(), Lh();
      CommitDiskEnd(lay, d0, v0, lh);
      CommitTraceJoin(lay, d0, v0, lh);
      hide CommitTrace, InstallTrace, OpenTransaction, CoherentFrom, CommitDisk, Overlay, Loggable, SetHead, Install;
      WriteTransaction();
      ghost var e := disk;
      InstallAndErase();
      Join(t0, CommitTrace(lay, d0, v0, lh, 0, |lh|), e, InstallTrace(lay, e, lh, |lh|), disk);
    }

    /** commit, which runs without the lock while `committing` keeps begin_op out.  Every disk on the way
        recovers to the old home blocks until the first write_head reaches the disk, and to the file
        system's view from then on. */
    method Commit()
      requires Valid() && NoHead(lay, disk) && committing && outstanding == 0
      modifies this`cache, this`disk, this`trace, this`n
      ensures Valid() && n == 0 && NoHead(lay, disk) && SameHome(lay, disk, old(View()))
      ensures |trace| == |old(trace)| + if old(n) == 0 then 0 else 2 * old(n) + 2
      ensures old(trace) <= trace
      ensures RecoverInTurn(lay, trace[|old(trace)|..], old(n), old(disk), old(View()))
    {
      ghost var lh, d0, v0 := Lh(), disk, View();
      if n > 0 {
        CommitTraceRecovers(lay, d0, v0, lh, 2 * |lh| + 2);
        CommitDone(lay, d0, v0, lh);
        CommitBlocks();
        hide RecoverInTurn, CommitTrace, CommitDisk, NoHead, SameHome, OpenTransaction;
      }
    }

    /** read_head: the recorded transaction becomes the in-memory one. */
    method ReadHead()
      requires block.Length == LOGSIZE && HeadFits(lay, disk) && cache == map[]
      modifies this`cache, this`n, block
      ensures Shape() && Lh() == Head(lay, disk)
      ensures cache == map[lay.start := At(disk, lay.start)]
    {
      var buf := Bread(lay.start);
      n := Le32(buf.data, 0);
      for i := 0 to n
        invariant Shape() && n == Le32(buf.data, 0)
        invariant block[..i] == Entries(buf.data, n)[..i]
        invariant cache == map[lay.start := buf]
      {
        block[i] := Le32(buf.data, 4 + 4 * i);
      }
    }

    /** recover_from_log, at boot with an empty cache.  Every disk on the way recovers to the same
        home blocks as the one the machine came up with. */
    method RecoverFromLog()
      requires block.Length == LOGSIZE && DiskOk(lay, disk) && cache == map[]
      modifies this`cache, this`disk, this`trace, this`n, block
      ensures Valid() && n == 0 && NoHead(lay, disk) && disk == Recover(lay, old(disk))
      ensures old(trace) <= trace && |trace| == |old(trace)| + |Head(lay, old(disk))| + 1
      ensures RecoverInTurn(lay, trace[|old(trace)|..], 0, disk, disk)
    {
      hide RecoverInTurn, InstallTrace, Head, Loggable, NoHead, CoherentFrom, DiskOk, HeadFits, OpenTransaction;
      hide SetHead, Install, Recover, At;
      ghost var d0, lh, t0 := disk, Head(lay, disk), trace;
      RecoverSteps(lay, d0);
      HeadFitsOf(lay, d0);
      ReadHead();
      InstallAndErase();
      assert trace[|t0|..] == InstallTrace(lay, d0, lh, |lh|) + [disk];
    }

    /** The absorption loop of log_write: the index of `b` in the list, or `n`. */
    method FindLogged(b: nat) returns (i: nat)
      requires Shape()
      ensures i <= n && (i < n ==> block[i] == b) && b !in block[..i]
    {
      i := 0;
      while i < n && block[i] != b
        invariant i <= n && b !in block[..i]
      {
        i := i + 1;
      }
    }

    /** log_write for a caller that has changed the buffer of `b` to `data`; `!ok` stands for the
        two panics. */
    method LogWrite(b: nat, data: Sector) returns (ok: bool)
      requires Valid() && b < |disk| && b < UINT32 && !lay.InLog(b)
      modifies this`cache, this`n, block
      ensures ok <==> old(n) < LOGSIZE && old(n) < lay.size - 1 && outstanding >= 1
      ensures ok ==> Valid() && Lh() == Absorb(old(Lh()), b)
      ensures ok ==> View() == old(View())[b := data]
    {
      ghost var lh, c0 := Lh(), cache;
      cache := cache[b := data];
      if n >= LOGSIZE || n >= lay.size - 1 || outstanding < 1 {
        return false;
      }
      AbsorbKeeps(lay, disk, c0, lh, b, data);
      hide OpenTransaction, Overlay;
      var i := FindLogged(b);
      block[i] := b;
      if i == n {
        n := n + 1;
      }
      assert Lh() == Absorb(lh, b);
      ok := true;
    }

    /** One pass of begin_op's loop: `admitted` if the operation starts, otherwise it sleeps. */
    method BeginOp() returns (admitted: bool)
      modifies this`outstanding
      ensures admitted <==> !committing && n + (old(outstanding) + 1) * MAXOPBLOCKS <= LOGSIZE
      ensures outstanding == old(outstanding) + if admitted then 1 else 0
    {
      admitted := false;
      if committing {
      } else if n + (outstanding + 1) * MAXOPBLOCKS > LOGSIZE {
      } else {
        outstanding := outstanding + 1;
        admitted := true;
      }
    }

    /** end_op of an active operation: the last one commits everything logged so far. */
    method EndOp()
      requires Valid() && NoHead(lay, disk) && outstanding >= 1 && !committing
      modifies this
      ensures Valid() && NoHead(lay, disk) && !committing && outstanding == old(outstanding) - 1
      ensures outstanding > 0 ==> disk == old(disk) && View() == old(View()) && Lh() == old(Lh())
      ensures outstanding == 0 ==> n == 0 && SameHome(lay, disk, old(View()))
      ensures old(trace) <= trace
      ensures RecoverInTurn(lay, trace[|old(trace)|..], old(n), old(disk), old(View()))
    {
      outstanding := outstanding - 1;
      if outstanding == 0 {
        committing := true;
        Commit();
        committing := false;
      }
    }
  }
}
