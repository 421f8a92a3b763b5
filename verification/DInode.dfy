/** struct dinode: an inode as sixteen little-endian words in one of the eight places of an inode block. */
module DInode {
  import opened Common
  import opened Bytes
  import opened FsState

  const IPB := 8          // BSIZE / sizeof(struct dinode)
  const DINODE_WORDS := 16

  /** Field values that fit the C types. */
  predicate InodeOk(ip: Inode) {
    && ip.kind < 0x1_0000 && ip.major < 0x1_0000 && ip.minor < 0x1_0000 && ip.nlink < 0x1_0000
    && ip.size < UINT_LIMIT && |ip.addrs| == NDIRECT + 1
  }

  function WordsOf(ip: Inode): (ws: seq<uint>)
    requires InodeOk(ip)
    ensures |ws| == DINODE_WORDS
  {
    [ip.kind + 0x1_0000 * ip.major, ip.minor + 0x1_0000 * ip.nlink, ip.size] + ip.addrs
  }

  function OfWords(ws: seq<uint>): (ip: Inode)
    requires |ws| == DINODE_WORDS
  {
    Inode(ws[0] % 0x1_0000, ws[0] / 0x1_0000, ws[1] % 0x1_0000, ws[1] / 0x1_0000, ws[2], ws[3..])
  }

  /** The first k of the words stored from word `base` on. */
  function PutWords(b: Block, base: nat, ws: seq<uint>, k: nat): (r: Block)
    requires k <= |ws| && base + |ws| <= WORDS
    ensures forall j: nat :: j < WORDS ==> Word(r, j) == if base <= j < base + k then ws[j - base] else Word(b, j)
  {
    if k == 0 then b else PutWord(PutWords(b, base, ws, k - 1), base + k - 1, ws[k - 1])
  }

  function GetWords(b: Block, base: nat, k: nat): (ws: seq<uint>)
    requires base + k <= WORDS
    ensures |ws| == k && forall j :: 0 <= j < k ==> ws[j] == Word(b, base + j)
  {
    if k == 0 then [] else GetWords(b, base, k - 1) + [Word(b, base + k - 1)]
  }

  /** What iupdate() stores in place `slot`. */
  function PutInode(b: Block, slot: nat, ip: Inode): Block
    requires slot < IPB && InodeOk(ip)
  {
    PutWords(b, slot * DINODE_WORDS, WordsOf(ip), DINODE_WORDS)
  }

  /** What ilock() reads from place `slot`. */
  function GetInode(b: Block, slot: nat): Inode
    requires slot < IPB
  {
    OfWords(GetWords(b, slot * DINODE_WORDS, DINODE_WORDS))
  }

  lemma WordsRoundTrip(ip: Inode)
    requires InodeOk(ip)
    ensures OfWords(WordsOf(ip)) == ip
  {
    assert WordsOf(ip)[3..] == ip.addrs;
  }

  /** ilock() reads back what iupdate() wrote, and the seven other inodes of the block are untouched. */
  lemma InodeRoundTrip(b: Block, slot: nat, ip: Inode, other: nat)
    requires slot < IPB && other < IPB && InodeOk(ip)
    ensures GetInode(PutInode(b, slot, ip), other) == if other == slot then ip else GetInode(b, other)
  {
    var r := PutInode(b, slot, ip);
    var got, was := GetWords(r, other * DINODE_WORDS, DINODE_WORDS), GetWords(b, other * DINODE_WORDS, DINODE_WORDS);
    if other == slot {
      assert got == WordsOf(ip);
      WordsRoundTrip(ip);
    } else {
      assert got == was;
    }
  }

  // ------------------------------------------------ the bytes

  /** The short at byte k. */
  function Half(b: Block, k: nat): nat
    requires k + 1 < BSIZE
  {
    var lo: nat, hi: nat := b[k], b[k + 1];
    lo + 0x100 * hi
  }

  lemma HalvesOfWord(b: Block, i: nat, k: nat, lo: nat, hi: nat)
    requires i < WORDS && k == 4 * i && lo < 0x1_0000 && Word(b, i) == lo + 0x1_0000 * hi
    ensures Half(b, k) == lo && Half(b, k + 2) == hi
  {
    assert Word(b, i) == Half(b, k) + 0x1_0000 * Half(b, k + 2);
  }

  lemma {:induction false} OtherBytes(b: Block, base: nat, ws: seq<uint>, k: nat, n: nat)
    requires k <= |ws| && base + |ws| <= WORDS && n < BSIZE && !(4 * base <= n < 4 * (base + k))
    ensures PutWords(b, base, ws, k)[n] == b[n]
    decreases k
  {
    if k > 0 {
      OtherBytes(b, base, ws, k - 1, n);
    }
  }

  /** struct dinode on disk: four shorts, the size and the thirteen addresses, in 64 bytes; no other byte changes. */
  lemma InodeLayout(b: Block, slot: nat, ip: Inode, at: nat, r: Block)
    requires slot < IPB && InodeOk(ip) && at == 64 * slot && r == PutInode(b, slot, ip)
    ensures Half(r, at) == ip.kind && Half(r, at + 2) == ip.major && Half(r, at + 4) == ip.minor
    ensures Half(r, at + 6) == ip.nlink && Word(r, 16 * slot + 2) == ip.size
    ensures forall j :: 0 <= j <= NDIRECT ==> Word(r, 16 * slot + 3 + j) == ip.addrs[j]
    ensures forall n :: 0 <= n < BSIZE && !(at <= n < at + 64) ==> r[n] == b[n]
  {
    var ws, i := WordsOf(ip), 16 * slot;
    assert Word(r, i) == ws[0] && Word(r, i + 1) == ws[1];
    HalvesOfWord(r, i, at, ip.kind, ip.major);
    HalvesOfWord(r, i + 1, at + 4, ip.minor, ip.nlink);
    forall j | 0 <= j <= NDIRECT ensures Word(r, i + 3 + j) == ip.addrs[j] {
      assert ws[3 + j] == ip.addrs[j];
    }
    forall n | 0 <= n < BSIZE && !(at <= n < at + 64) ensures r[n] == b[n] {
      OtherBytes(b, i, ws, DINODE_WORDS, n);
    }
  }
}
