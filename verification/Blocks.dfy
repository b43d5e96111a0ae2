/** Disk blocks as bytes, and the little-endian 32-bit numbers that indirect blocks and the log header hold. */
module Blocks {
  import opened Common

  type Block = seq<byte>

  const WORDS: nat := 256

  function Zero(): (b: Block)
    ensures |b| == BLOCK_SIZE
  {
    seq(BLOCK_SIZE, _ => 0)
  }

  function Word(b: Block, i: nat): nat
    requires |b| == BLOCK_SIZE && i < WORDS
  {
    b[4 * i] as nat + 0x100 * b[4 * i + 1] as nat + 0x1_0000 * b[4 * i + 2] as nat + 0x100_0000 * b[4 * i + 3] as nat
  }

  function Digit(v: nat, d: nat): byte
    requires d > 0
  {
    ((v / d) % 0x100) as byte
  }

  function SetWord(b: Block, i: nat, v: nat): (r: Block)
    requires |b| == BLOCK_SIZE && i < WORDS
    ensures |r| == BLOCK_SIZE
  {
    b[4 * i := Digit(v, 1)][4 * i + 1 := Digit(v, 0x100)]
     [4 * i + 2 := Digit(v, 0x1_0000)][4 * i + 3 := Digit(v, 0x100_0000)]
  }

  lemma Digits(v: nat)
    requires v < 0x1_0000_0000
    ensures v == Digit(v, 1) as nat + 0x100 * Digit(v, 0x100) as nat
              + 0x1_0000 * Digit(v, 0x1_0000) as nat + 0x100_0000 * Digit(v, 0x100_0000) as nat
  {
    var a, b, c := v / 0x100, v / 0x1_0000, v / 0x100_0000;
    assert b == a / 0x100 && c == b / 0x100 && c < 0x100;
    assert v == 0x100 * a + v % 0x100 && a == 0x100 * b + a % 0x100 && b == 0x100 * c + b % 0x100;
  }

  /** Storing one number changes that one and no other. */
  lemma SetWordGet(b: Block, i: nat, v: nat, j: nat)
    requires |b| == BLOCK_SIZE && i < WORDS && j < WORDS && v < 0x1_0000_0000
    ensures Word(SetWord(b, i, v), j) == if j == i then v else Word(b, j)
  {
    hide Digit;
    Digits(v);
  }

  lemma ZeroWords(j: nat)
    requires j < WORDS
    ensures Word(Zero(), j) == 0
  {
  }
}
