/** A disk block as the redo log and the buffer cache see it. */
module Blocks {
  const BLOCKWORDS := 128

  // BSIZE is 512 bytes, seen here as 32-bit words.
  type Words = w: seq<int> | |w| == BLOCKWORDS witness seq(BLOCKWORDS, _ => 0)
  datatype Block = Block(words: Words)

  function Zeros(): (r: Block) {
    Block(seq(BLOCKWORDS, _ => 0))
  }
}
