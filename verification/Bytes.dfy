/**
 Disk blocks: BSIZE bytes, read and written either as bytes or as
 little-endian 32-bit words (the C code casts `b->data` to `uint*`).
 */
module Bytes {
  import opened Common

  const BSIZE := 512
  const WORDS := 128 // BSIZE / sizeof(uint)

  type byte = x: int | 0 <= x < 256
  type uint = x: int | 0 <= x < UINT_LIMIT
  type Block = b: seq<byte> | |b| == BSIZE witness seq(BSIZE, _ => 0)

  function ZeroBlock(): Block {
    seq(BSIZE, _ => 0)
  }

  function Compose(b0: byte, b1: byte, b2: byte, b3: byte): uint {
    b0 + 0x100 * b1 + 0x1_0000 * b2 + 0x100_0000 * b3
  }

  /** Word i of a block, as `((uint*)b->data)[i]` reads it. */
  function Word(b: Block, i: nat): uint
    requires i < WORDS
  {
    Compose(b[4 * i], b[4 * i + 1], b[4 * i + 2], b[4 * i + 3])
  }

  lemma ComposeDigits(w: uint)
    ensures Compose(w % 0x100, w / 0x100 % 0x100, w / 0x1_0000 % 0x100, w / 0x100_0000) == w
  {
    assert w / 0x1_0000 == w / 0x100 / 0x100;
    assert w / 0x100_0000 == w / 0x1_0000 / 0x100;
  }

  /** Storing word i changes word i and no other. */
  function PutWord(b: Block, i: nat, w: uint): (r: Block)
    requires i < WORDS
    ensures Word(r, i) == w
    ensures forall j: nat :: j < WORDS && j != i ==> Word(r, j) == Word(b, j)
  {
    ComposeDigits(w);
    b[4 * i := w % 0x100][4 * i + 1 := w / 0x100 % 0x100]
     [4 * i + 2 := w / 0x1_0000 % 0x100][4 * i + 3 := w / 0x100_0000]
  }

  lemma ZeroWord(i: nat)
    requires i < WORDS
    ensures Word(ZeroBlock(), i) == 0
  {
  }
}
