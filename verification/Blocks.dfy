/** Blocks as far as storing and linking them is concerned. */
module Blocks {
  import opened Options
  import opened Ranges

  type Hash(!new, ==)
  type Body(!new, ==)

  datatype Block = Block(number: BlockNo, parentHash: Hash, body: Body)

  /** The hash of a block's header, and the hash of zeros. */
  datatype Hashing = Hashing(hashOf: Block -> Hash, zero: Hash)

  /** The blocks of one chain in the database. */
  type Stored = map<BlockNo, Block>

  /** Stored blocks carry the number that they are stored under. */
  predicate Keyed(db: Stored) {
    forall n | n in db :: db[n].number == n
  }
}
