/** fs.c over log.c: what a reboot finds after a crash in the commit of a change to files. */
module CrashFiles {
  import opened Bytes
  import opened Counting
  import opened FsState
  import opened DInode
  import opened Files
  import opened LogSpace
  import D = LogDisk

  /** The blocks from `from` on are the same. */
  ghost predicate AgreeFrom(d: seq<Block>, e: seq<Block>, from: nat) {
    |e| == |d| && forall b :: from <= b < |d| ==> e[b] == d[b]
  }

  ghost predicate Inums(g: Geometry, inums: set<nat>) {
    forall i :: i in inums ==> i < g.ninodes
  }

  /** The file system a boot finds on disk d: the inodes are those that ilock() reads. */
  ghost function Mounted(g: Geometry, d: seq<Block>, inums: set<nat>): (r: Fs)
    requires GeometryOk(g) && |d| == g.size && Inums(g, inums)
    ensures r.inodes.Keys == inums
  {
    Fs(g, d, map i | i in inums :: GetInode(d[IBlock(g, i)], i % IPB))
  }

  /** Two states that nobody can tell apart: the same inodes, the same contents, and the same owners. */
  ghost predicate SameFiles(fs: Fs, m: Fs, owner: map<nat, Slot>)
  {
    && Sound(fs, owner) && Sound(m, owner) && m.inodes == fs.inodes
    && forall j :: j in fs.inodes ==> Content(m, j) == Content(fs, j)
  }

  lemma MountedInode(fs: Fs, owner: map<nat, Slot>, d: seq<Block>, i: nat, x: nat)
    requires Sound(fs, owner) && i in fs.inodes && x == IBlock(fs.g, i) && AgreeFrom(fs.blocks, d, fs.g.inodestart)
    ensures i < fs.g.ninodes && x < |d| && GetInode(d[x], i % IPB) == fs.inodes[i]
  {
    assert Synced(fs, i);
  }

  lemma MountedInodes(fs: Fs, owner: map<nat, Slot>, d: seq<Block>, inums: set<nat>)
    requires Sound(fs, owner) && inums == fs.inodes.Keys && AgreeFrom(fs.blocks, d, fs.g.inodestart)
    ensures Inums(fs.g, inums) && Mounted(fs.g, d, inums) == Fs(fs.g, d, fs.inodes)
  {
    forall i | i in inums ensures i < fs.g.ninodes {
      MountedInode(fs, owner, d, i, IBlock(fs.g, i));
    }
    var m := Mounted(fs.g, d, inums);
    forall i | i in inums ensures m.inodes[i] == fs.inodes[i] {
      MountedInode(fs, owner, d, i, IBlock(fs.g, i));
    }
  }

  /** m has the inodes of fs and its blocks from the inodes on. */
  ghost predicate Agrees(fs: Fs, m: Fs) {
    m.g == fs.g && m.inodes == fs.inodes && AgreeFrom(fs.blocks, m.blocks, fs.g.inodestart)
  }

  lemma AgreeingAddr(fs: Fs, owner: map<nat, Slot>, m: Fs, i: nat, k: nat, ind: nat)
    requires Inv(fs, owner, Nothing()) && Agrees(fs, m) && i in fs.inodes && k <= INDIRECT &&
             ind == Addr(fs, i, INDIRECT)
    ensures Addr(m, i, k) == Addr(fs, i, k)
  {
    assert ind != 0 ==> ind in owner;
  }

  lemma AgreeingSlot(fs: Fs, owner: map<nat, Slot>, m: Fs, i: nat, k: nat, a: nat)
    requires Inv(fs, owner, Nothing()) && Agrees(fs, m) && i in fs.inodes && k <= INDIRECT && a == Addr(fs, i, k)
    ensures SameSlot(fs, m, i, k)
  {
    AgreeingAddr(fs, owner, m, i, k, Addr(fs, i, INDIRECT));
    assert a != 0 ==> a in owner;
  }

  lemma AgreeingInv(fs: Fs, owner: map<nat, Slot>, m: Fs)
    requires Inv(fs, owner, Nothing()) && Agrees(fs, m)
    ensures Inv(m, owner, Nothing()) && SameAddrs(fs, m)
  {
    forall i, k | i in fs.inodes && 0 <= k <= INDIRECT ensures Addr(m, i, k) == Addr(fs, i, k) {
      AgreeingAddr(fs, owner, m, i, k, Addr(fs, i, INDIRECT));
    }
    forall b | 0 <= b < fs.g.size ensures Marked(m, b) == Marked(fs, b) {
      BitmapBelowData(fs.g, b);
    }
  }

  lemma AgreeingFile(fs: Fs, owner: map<nat, Slot>, m: Fs, j: nat)
    requires Sound(fs, owner) && Agrees(fs, m) && j in fs.inodes
    ensures Full(m, j, CeilBlocks(m.inodes[j].size)) && m.inodes[j].size <= MAXFILE * BSIZE &&
            Content(m, j) == Content(fs, j)
  {
    forall k | 0 <= k <= INDIRECT ensures SameSlot(fs, m, j, k) {
      AgreeingSlot(fs, owner, m, j, k, Addr(fs, j, k));
    }
    SameFileSameContent(fs, m, j);
  }

  lemma AgreeingSynced(fs: Fs, owner: map<nat, Slot>, m: Fs, j: nat)
    requires Sound(fs, owner) && Agrees(fs, m) && j in fs.inodes
    ensures Shape(m) && Synced(m, j)
  {
    assert Synced(fs, j);
  }

  lemma AgreeingSound(fs: Fs, owner: map<nat, Slot>, m: Fs)
    requires Sound(fs, owner) && Agrees(fs, m)
    ensures SameFiles(fs, m, owner)
  {
    AgreeingInv(fs, owner, m);
    forall j | j in fs.inodes
      ensures Full(m, j, CeilBlocks(m.inodes[j].size)) && m.inodes[j].size <= MAXFILE * BSIZE && Synced(m, j)
      ensures Content(m, j) == Content(fs, j)
    {
      AgreeingFile(fs, owner, m, j);
      AgreeingSynced(fs, owner, m, j);
    }
  }

  // ------------------------------------------------ a change to files, committed through the log

  /** Disk d holds these blocks; its log is empty and lies below the inodes. */
  ghost predicate Stored(g: Geometry, d: D.Disk, l: D.Layout, blocks: seq<Block>) {
    && D.Fits(d, l) && D.HeadCount(d, l) == 0 && l.start + l.size <= g.inodestart
    && AgreeFrom(blocks, d, g.inodestart)
  }

  /** The transaction that commit() writes: every logged block once, with its newest contents. */
  ghost predicate Collected(t: D.Transaction, after: seq<Block>, logged: set<nat>) {
    && |t.lh| == |t.values| && Distinct<nat>(t.lh)
    && (forall b :: b in logged <==> b in t.lh)
    && (forall i :: 0 <= i < |t.lh| ==> t.lh[i] < |after| && t.values[i] == after[t.lh[i]])
  }

  /** The disk when the machine stops after k writes of commit(). */
  ghost function StoppedAt(d: D.Disk, l: D.Layout, t: D.Transaction, k: nat): D.Disk
    requires D.TransactionOk(d, l, t) && k <= 2 * |t.lh| + 2
  {
    if k == 0 then d else D.CommitWrites(d, l, t)[k - 1]
  }

  lemma StoppedOk(d: D.Disk, l: D.Layout, t: D.Transaction, k: nat)
    requires D.TransactionOk(d, l, t) && k <= 2 * |t.lh| + 2
    ensures D.HeaderOk(StoppedAt(d, l, t, k), l)
  {
    if k > 0 {
      D.CommitAtomic(d, l, t, k - 1);
    }
  }

  /** The disk once a boot has got through recovery, after boots that stopped after `crashes` writes in it. */
  ghost function Rebooted(d: D.Disk, l: D.Layout, t: D.Transaction, k: nat, crashes: seq<nat>): D.Disk
    requires D.TransactionOk(d, l, t) && k <= 2 * |t.lh| + 2
  {
    StoppedOk(d, l, t, k);
    D.Recovered(D.CrashedBoots(StoppedAt(d, l, t, k), l, crashes), l)
  }

  lemma TransactionFits(g: Geometry, d: D.Disk, l: D.Layout, t: D.Transaction, before: seq<Block>, after: seq<Block>,
                        logged: set<nat>)
    requires Stored(g, d, l, before) && Logs(g, before, after, logged) && Collected(t, after, logged)
    requires |logged| <= D.LOGSIZE && |logged| < l.size
    ensures D.TransactionOk(d, l, t)
  {
    ElementsSize<nat>(t.lh);
    assert Elements<nat>(t.lh) == logged;
    forall i | 0 <= i < |t.lh| ensures t.lh[i] < |d| && !D.InLog(l, t.lh[i]) {
      assert t.lh[i] in logged;
    }
  }

  lemma RebootRestores(d: D.Disk, l: D.Layout, t: D.Transaction, k: nat, crashes: seq<nat>, r: D.Disk)
    requires D.TransactionOk(d, l, t) && k <= 2 * |t.lh| + 2 && r == Rebooted(d, l, t, k, crashes)
    ensures k <= |t.lh| ==> D.SameHome(l, r, d)
    ensures k > |t.lh| ==> D.Applied(d, l, t, r)
  {
    if k == 0 {
      D.RecoverySurvivesCrashes(d, l, crashes);
    } else {
      D.CrashAtomicity(d, l, t, k - 1, crashes);
    }
  }

  lemma RebootFinds(g: Geometry, d: D.Disk, l: D.Layout, t: D.Transaction, before: seq<Block>, after: seq<Block>,
                    logged: set<nat>, k: nat, crashes: seq<nat>, r: D.Disk)
    requires Stored(g, d, l, before) && Logs(g, before, after, logged) && Collected(t, after, logged)
    requires D.TransactionOk(d, l, t) && k <= 2 * |t.lh| + 2 && r == Rebooted(d, l, t, k, crashes)
    ensures AgreeFrom(if k <= |t.lh| then before else after, r, g.inodestart)
  {
    RebootRestores(d, l, t, k, crashes, r);
    if k <= |t.lh| {
      HomeAgrees(g, d, l, before, r);
    } else {
      AppliedAgrees(g, d, l, t, before, after, logged, r);
    }
  }

  lemma HomeAgrees(g: Geometry, d: D.Disk, l: D.Layout, before: seq<Block>, r: D.Disk)
    requires Stored(g, d, l, before) && D.SameHome(l, r, d)
    ensures AgreeFrom(before, r, g.inodestart)
  {
  }

  lemma AppliedAgrees(g: Geometry, d: D.Disk, l: D.Layout, t: D.Transaction, before: seq<Block>, after: seq<Block>,
                      logged: set<nat>, r: D.Disk)
    requires Stored(g, d, l, before) && Logs(g, before, after, logged) && Collected(t, after, logged)
    requires D.Applied(d, l, t, r)
    ensures AgreeFrom(after, r, g.inodestart)
  {
    forall b | g.inodestart <= b < |after| ensures r[b] == after[b] {
      if b in logged {
        var i :| 0 <= i < |t.lh| && t.lh[i] == b;
      }
    }
  }

  lemma MountedSound(fs: Fs, owner: map<nat, Slot>, r: D.Disk)
    requires Sound(fs, owner) && AgreeFrom(fs.blocks, r, fs.g.inodestart)
    ensures |r| == fs.g.size && Inums(fs.g, fs.inodes.Keys) && SameFiles(fs, Mounted(fs.g, r, fs.inodes.Keys), owner)
  {
    MountedInodes(fs, owner, r, fs.inodes.Keys);
    AgreeingSound(fs, owner, Fs(fs.g, r, fs.inodes));
  }

  /** A boot that finds disk r finds exactly the files of fs. */
  ghost predicate Finds(r: D.Disk, fs: Fs, owner: map<nat, Slot>) {
    && GeometryOk(fs.g) && |r| == fs.g.size && Inums(fs.g, fs.inodes.Keys)
    && SameFiles(fs, Mounted(fs.g, r, fs.inodes.Keys), owner)
  }

  /** The call that changed fs to fs' is ready to be committed as transaction t on disk d. */
  ghost predicate ReadyToCommit(fs: Fs, fs': Fs, logged: set<nat>, d: D.Disk, l: D.Layout, t: D.Transaction) {
    && fs'.g == fs.g && Stored(fs.g, d, l, fs.blocks) && Logs(fs.g, fs.blocks, fs'.blocks, logged)
    && Collected(t, fs'.blocks, logged) && |logged| <= D.LOGSIZE && |logged| < l.size
  }

  /**
   A change from one sound file system to another, committed as one transaction: stop the machine after any write of
   the commit, stop any number of boots anywhere in recovery, and the boot that gets through finds every file as it was
   before, or every file as it is after, according to whether the header had been written.
   */
  lemma FilesSurviveCrash(fs: Fs, owner: map<nat, Slot>, fs': Fs, owner': map<nat, Slot>, logged: set<nat>, d: D.Disk,
                          l: D.Layout, t: D.Transaction, k: nat, crashes: seq<nat>)
    requires Sound(fs, owner) && Sound(fs', owner') && ReadyToCommit(fs, fs', logged, d, l, t) && k <= 2 * |t.lh| + 2
    ensures D.TransactionOk(d, l, t)
    ensures k <= |t.lh| ==> Finds(Rebooted(d, l, t, k, crashes), fs, owner)
    ensures k > |t.lh| ==> Finds(Rebooted(d, l, t, k, crashes), fs', owner')
  {
    TransactionFits(fs.g, d, l, t, fs.blocks, fs'.blocks, logged);
    var r := Rebooted(d, l, t, k, crashes);
    RebootFinds(fs.g, d, l, t, fs.blocks, fs'.blocks, logged, k, crashes, r);
    if k <= |t.lh| {
      MountedSound(fs, owner, r);
    } else {
      MountedSound(fs', owner', r);
    }
  }

  /** A boot finds the files of fs0 with `a` written to file i at off, and nothing else changed. */
  ghost predicate FindsWritten(r: D.Disk, fs0: Fs, owner: map<nat, Slot>, i: nat, off: nat, a: seq<byte>) {
    && GeometryOk(fs0.g) && |r| == fs0.g.size && Inums(fs0.g, fs0.inodes.Keys)
    && WriteMade(fs0, Mounted(fs0.g, r, fs0.inodes.Keys), owner, i, off, a)
  }

  lemma FoundWritten(r: D.Disk, fs0: Fs, fs: Fs, owner: map<nat, Slot>, i: nat, off: nat, a: seq<byte>)
    requires Finds(r, fs, owner) && WriteMade(fs0, fs, owner, i, off, a) && fs0.g == fs.g
    ensures FindsWritten(r, fs0, owner, i, off, a)
  {
  }

  /**
   filewrite() goes chunk by chunk. If the machine stops while a chunk b is being committed after the bytes of a, the
   boot that gets through finds the file with exactly a, or exactly a + b, written.
   */
  lemma FileWriteSurvivesCrash(fs0: Fs, fs: Fs, owner: map<nat, Slot>, fs': Fs, owner': map<nat, Slot>, i: nat,
                               off: nat, at: nat, a: seq<byte>, b: seq<byte>, ab: seq<byte>, logged: set<nat>,
                               d: D.Disk, l: D.Layout, t: D.Transaction, k: nat, crashes: seq<nat>)
    requires WriteMade(fs0, fs, owner, i, off, a) && WriteMade(fs, fs', owner', i, at, b) && at == off + |a| &&
             ab == a + b
    requires fs0.g == fs.g && ReadyToCommit(fs, fs', logged, d, l, t) && k <= 2 * |t.lh| + 2
    ensures D.TransactionOk(d, l, t)
    ensures k <= |t.lh| ==> FindsWritten(Rebooted(d, l, t, k, crashes), fs0, owner, i, off, a)
    ensures k > |t.lh| ==> FindsWritten(Rebooted(d, l, t, k, crashes), fs0, owner', i, off, ab)
  {
    FilesSurviveCrash(fs, owner, fs', owner', logged, d, l, t, k, crashes);
    var r := Rebooted(d, l, t, k, crashes);
    if k <= |t.lh| {
      FoundWritten(r, fs0, fs, owner, i, off, a);
    } else {
      WritesJoin(fs0, fs, fs', owner, owner', i, off, at, a, b, ab);
      FoundWritten(r, fs0, fs', owner', i, off, ab);
    }
  }
}
