/** Importing a descending stream of blocks (blockservice/src/cmd/import.rs). */
module ImportLoop {
  import opened Blocks
  import opened Options
  import opened Ranges

  /** What the genesis parser yields. */
  datatype Item = Parsed(block: Block) | Broken

  datatype Outcome = Finished | Cancelled | Failed

  /** The blocks that the loop put into batches, and how it ended. */
  datatype Scanned = Scanned(puts: seq<Block>, outcome: Outcome)

  /** What does not change during an import; from is the smallest block number to import. */
  datatype Job = Job(hashing: Hashing, items: seq<Item>, verify: bool, from: nat, cancelled: nat -> bool)

  /** The block that is checked and put: in verify mode, blocks below the smallest one to import are read
    * from the database. */
  function Chosen(t: Job, db: Stored, block: Block): Option<Block> {
    if !t.verify || block.number >= t.from then Some(block)
    else if block.number in db then Some(db[block.number])
    else None
  }

  predicate Passes(t: Job, prev: Option<Hash>, block: Block) {
    t.verify ==>
      && (prev.Some? ==> t.hashing.hashOf(block) == prev.value)
      && (block.number == 0 ==> block.parentHash == t.hashing.zero)
  }

  /** The loop from item i on. */
  function Scan(t: Job, db: Stored, i: nat, prev: Option<Hash>): Scanned
    requires i <= |t.items|
    decreases |t.items| - i
  {
    if i == |t.items| then Scanned([], Finished)
    else if t.cancelled(i) then Scanned([], Cancelled)
    else if t.items[i].Broken? then Scanned([], Failed)
    else
      var chosen := Chosen(t, db, t.items[i].block);
      if chosen.None? || !Passes(t, prev, chosen.value) then Scanned([], Failed)
      else if chosen.value.number < t.from then Scanned([], Finished)
      else
        var rest := Scan(t, db, i + 1, if t.verify then Some(chosen.value.parentHash) else prev);
        Scanned([chosen.value] + rest.puts, rest.outcome)
  }

  // --- What the loop means ---

  /** Item i is a block, and in verify mode a block below the first missing one is stored. */
  predicate Readable(t: Job, db: Stored, i: nat)
    requires i < |t.items|
  {
    t.items[i].Parsed? && (t.verify && t.items[i].block.number < t.from ==> t.items[i].block.number in db)
  }

  /** The block that counts: the stored one below the first missing one, in verify mode. */
  function Effective(t: Job, db: Stored, i: nat): Block
    requires i < |t.items| && Readable(t, db, i)
  {
    if t.verify && t.items[i].block.number < t.from then db[t.items[i].block.number] else t.items[i].block
  }

  /** In verify mode the block has the hash that the one before it in the stream records, and block 0 has no
    * parent. */
  predicate Linked(t: Job, db: Stored, i: nat)
    requires i < |t.items| && Readable(t, db, i) && (i > 0 ==> Readable(t, db, i - 1))
  {
    t.verify ==>
      && (i > 0 ==> t.hashing.hashOf(Effective(t, db, i)) == Effective(t, db, i - 1).parentHash)
      && (Effective(t, db, i).number == 0 ==> Effective(t, db, i).parentHash == t.hashing.zero)
  }

  /** Items before n are put into the database, one after the other. */
  ghost predicate PutBefore(t: Job, db: Stored, n: nat, puts: seq<Block>) {
    && n == |puts| <= |t.items|
    && forall i: nat | i < n :: PutAt(t, db, i, puts[i])
  }

  ghost predicate PutAt(t: Job, db: Stored, i: nat, b: Block) {
    && i < |t.items| && !t.cancelled(i) && Readable(t, db, i) && (i > 0 ==> Readable(t, db, i - 1))
    && Linked(t, db, i) && b == Effective(t, db, i) && b.number >= t.from
  }

  /** How the loop ends at item n: at the end of the stream or at a sound block below the first missing one,
    * by cancellation, or at an item that is broken, not stored or not linked. */
  ghost predicate EndsAs(t: Job, db: Stored, n: nat, outcome: Outcome) {
    if n >= |t.items| then outcome == Finished
    else if t.cancelled(n) then outcome == Cancelled
    else if Readable(t, db, n) && (n > 0 ==> Readable(t, db, n - 1)) && Linked(t, db, n) then
      outcome == Finished && Effective(t, db, n).number < t.from
    else outcome == Failed
  }

  ghost predicate Previous(t: Job, db: Stored, i: nat, prev: Option<Hash>)
    requires i <= |t.items|
  {
    if i == 0 || !t.verify then prev == None && (i > 0 ==> Readable(t, db, i - 1))
    else Readable(t, db, i - 1) && prev == Some(Effective(t, db, i - 1).parentHash)
  }

  /** One item: it is put, or the loop ends there. */
  lemma {:induction false} OneScanned(t: Job, db: Stored, i: nat, prev: Option<Hash>)
    requires i <= |t.items| && Previous(t, db, i, prev)
    ensures var r := Scan(t, db, i, prev);
            if IsPut(t, db, i) then
              var next := if t.verify then Some(Effective(t, db, i).parentHash) else prev;
              && Previous(t, db, i + 1, next) && PutAt(t, db, i, Effective(t, db, i))
              && r == Scanned([Effective(t, db, i)] + Scan(t, db, i + 1, next).puts, Scan(t, db, i + 1, next).outcome)
            else
              r.puts == [] && EndsAs(t, db, i, r.outcome)
  {
    if i < |t.items| && !t.cancelled(i) && Readable(t, db, i) {
      assert Chosen(t, db, t.items[i].block) == Some(Effective(t, db, i));
      assert Passes(t, prev, Effective(t, db, i)) <==> Linked(t, db, i);
    }
  }

  ghost predicate IsPut(t: Job, db: Stored, i: nat) {
    && i < |t.items| && !t.cancelled(i) && Readable(t, db, i) && (i > 0 ==> Readable(t, db, i - 1))
    && Linked(t, db, i) && Effective(t, db, i).number >= t.from
  }

  lemma {:induction false} ScanFrom(t: Job, db: Stored, i: nat, prev: Option<Hash>)
    requires i <= |t.items| && Previous(t, db, i, prev)
    ensures var r := Scan(t, db, i, prev);
            && i + |r.puts| <= |t.items|
            && (forall k: nat | k < |r.puts| :: PutAt(t, db, i + k, r.puts[k]))
            && EndsAs(t, db, i + |r.puts|, r.outcome)
    decreases |t.items| - i
  {
    OneScanned(t, db, i, prev);
    if IsPut(t, db, i) {
      var next := if t.verify then Some(Effective(t, db, i).parentHash) else prev;
      ScanFrom(t, db, i + 1, next);
      var rest := Scan(t, db, i + 1, next);
      var puts := [Effective(t, db, i)] + rest.puts;
      forall k: nat | k < |puts|
        ensures PutAt(t, db, i + k, puts[k])
      {
        if k > 0 { assert PutAt(t, db, i + 1 + (k - 1), rest.puts[k - 1]); }
      }
    }
  }

  /** For any stream: the items put are the first ones, all sound, linked to each other and not below the first
    * missing number; and what comes after them says how the loop ends. */
  lemma {:induction false} ScanIs(t: Job, db: Stored)
    ensures var r := Scan(t, db, 0, None);
            PutBefore(t, db, |r.puts|, r.puts) && EndsAs(t, db, |r.puts|, r.outcome)
  {
    ScanFrom(t, db, 0, None);
    var r := Scan(t, db, 0, None);
    assert forall k: nat | k < |r.puts| :: PutAt(t, db, 0 + k, r.puts[k]);
  }

  /** An import that finishes has met no item that is broken up to where it stopped. */
  lemma {:induction false} FinishedIsUnbroken(t: Job, db: Stored, i: nat)
    requires Scan(t, db, 0, None).outcome == Finished && i <= |Scan(t, db, 0, None).puts| && i < |t.items|
    ensures t.items[i].Parsed? && !t.cancelled(i)
  {
    ScanIs(t, db);
    var r := Scan(t, db, 0, None);
    if i < |r.puts| { assert PutAt(t, db, i, r.puts[i]); }
  }

  function Write(db: Stored, puts: seq<Block>): Stored {
    if puts == [] then db else Write(db, puts[..|puts| - 1])[puts[|puts| - 1].number := puts[|puts| - 1]]
  }

  lemma {:induction false} WriteTwice(db: Stored, a: seq<Block>, b: seq<Block>)
    ensures Write(Write(db, a), b) == Write(db, a + b)
  {
    if b == [] {
      assert a + b == a;
    } else {
      WriteTwice(db, a, b[..|b| - 1]);
      assert (a + b)[..|a + b| - 1] == a + b[..|b| - 1];
    }
  }

  /** The smallest missing block number: blocks are skipped only if there is a range from block 0 on. */
  function SmallestToImport(ranges: seq<Range>): nat {
    if ranges != [] && ranges[0].start == 0 then ranges[0].end + 1 else 0
  }

  lemma SmallestIsMissing(db: Stored)
    ensures var from := SmallestToImport(NormalForm(db.Keys));
            (forall n: BlockNo | n < from :: n in db) && from !in db
  {
    var ranges := NormalForm(db.Keys);
    if ranges != [] {
      FirstRange(ranges);
    }
    if ranges == [] || ranges[0].start != 0 {
      assert 0 !in Cover(ranges);
    }
  }

  // --- The import ---

  class Database {
    var blocks: Stored

    constructor (blocks: Stored)
      ensures this.blocks == blocks
    {
      this.blocks := blocks;
    }

    method WriteBatch(batch: seq<Block>)
      modifies this
      ensures blocks == Write(old(blocks), batch)
    {
      var i := 0;
      while i < |batch|
        invariant 0 <= i <= |batch| && blocks == Write(old(blocks), batch[..i])
      {
        blocks := blocks[batch[i].number := batch[i]];
        assert batch[..i + 1][..i] == batch[..i];
        i := i + 1;
      }
      assert batch[..|batch|] == batch;
    }

    /** `import`. Batches are written when their size exceeds a limit, so that a failed import leaves the
      * blocks of the batches before. */
    method Import(hashing: Hashing, items: seq<Item>, verify: bool, cancelled: nat -> bool,
                  size: Block -> nat, limit: nat, ranges: seq<Range>)
      returns (outcome: Outcome)
      requires ranges == NormalForm(blocks.Keys)
      modifies this
      ensures var (after, how) := Imported(old(blocks), hashing, items, verify, cancelled);
              outcome == how && (outcome != Failed ==> blocks == after)
      ensures outcome == Failed ==>
                PartlyWritten(Job(hashing, items, verify, SmallestToImport(ranges), cancelled), old(blocks), blocks)
    {
      var totalBlocks: nat := 0;
      if |items| > 0 {
        if items[0].Broken? {
          NothingWritten(Job(hashing, items, verify, SmallestToImport(ranges), cancelled), blocks);
          return Failed;
        }
        totalBlocks := items[0].block.number + 1;
      }
      var from := SmallestToImport(ranges);
      if totalBlocks <= from {
        return Finished;
      }
      SmallestIsMissing(blocks);
      outcome := Loop(Job(hashing, items, verify, from, cancelled), size, limit);
    }

    method Loop(t: Job, size: Block -> nat, limit: nat) returns (outcome: Outcome)
      modifies this
      ensures var all := Scan(t, old(blocks), 0, None);
              outcome == all.outcome && (outcome != Failed ==> blocks == Write(old(blocks), all.puts))
      ensures outcome == Failed ==> PartlyWritten(t, old(blocks), blocks)
    {
      ghost var db, all := blocks, Scan(t, blocks, 0, None);
      ghost var written: seq<Block> := [];
      var batch: seq<Block> := [];
      var batchSize := 0;
      var prev: Option<Hash> := None;
      var i := 0;
      outcome := Finished;
      while i < |t.items|
        invariant 0 <= i <= |t.items| && outcome == Finished
        invariant blocks == Write(db, written) && AllFrom(written, t.from) && AllFrom(batch, t.from)
        invariant Scanning(t, db, i, prev, written + batch)
      {
        if t.cancelled(i) {
          outcome := Cancelled;
          break;
        }
        var block := Broken;
        if t.items[i].Parsed? {
          ReadBelow(t, db, written, t.items[i].block);
          block := Check(t, t.items[i].block, prev);
        }
        if block.Broken? {
          StoppedEarly(t, db, i, prev, written, batch);
          return Failed;
        }
        if block.block.number < t.from {
          break;
        }
        NextScanned(t, db, i, prev, written + batch);
        if batchSize >= limit {
          WriteTwice(db, written, batch);
          WriteBatch(batch);
          written := written + batch;
          batch, batchSize := [], 0;
          assert written + batch == written;
        }
        assert written + batch + [block.block] == written + (batch + [block.block]);
        batch, batchSize := batch + [block.block], batchSize + size(block.block);
        if t.verify {
          prev := Some(block.block.parentHash);
        }
        i := i + 1;
      }
      ScanStops(t, db, i, prev, written + batch);
      WriteTwice(db, written, batch);
      WriteBatch(batch);
    }

    /** The checks on one block of the stream; Broken stands for an error. */
    method Check(t: Job, given: Block, prev: Option<Hash>) returns (checked: Item)
      ensures checked == var chosen := Chosen(t, blocks, given);
                         if chosen.None? || !Passes(t, prev, chosen.value) then Broken else Parsed(chosen.value)
    {
      var block := given;
      if t.verify {
        if block.number < t.from {
          if block.number !in blocks {
            return Broken;
          }
          block := blocks[block.number];
        }
        if prev.Some? && t.hashing.hashOf(block) != prev.value {
          return Broken;
        }
        if block.number == 0 && block.parentHash != t.hashing.zero {
          return Broken;
        }
      }
      checked := Parsed(block);
    }
  }

  predicate AllFrom(blocks: seq<Block>, from: nat) {
    forall b | b in blocks :: b.number >= from
  }

  /** A failed import has written some of the blocks that it put, in order. */
  ghost predicate PartlyWritten(t: Job, db: Stored, now: Stored) {
    exists written: seq<Block> :: WrittenPart(t, db, now, written)
  }

  ghost predicate WrittenPart(t: Job, db: Stored, now: Stored, written: seq<Block>) {
    written <= Scan(t, db, 0, None).puts && now == Write(db, written)
  }

  lemma NothingWritten(t: Job, db: Stored)
    ensures PartlyWritten(t, db, db)
  {
    assert WrittenPart(t, db, db, []);
  }

  /** The loop is at item i, with the given blocks put so far. */
  ghost predicate Scanning(t: Job, db: Stored, i: nat, prev: Option<Hash>, puts: seq<Block>)
    requires i <= |t.items|
  {
    var rest := Scan(t, db, i, prev);
    Scan(t, db, 0, None) == Scanned(puts + rest.puts, rest.outcome)
  }

  lemma NextScanned(t: Job, db: Stored, i: nat, prev: Option<Hash>, puts: seq<Block>)
    requires i < |t.items| && Scanning(t, db, i, prev, puts) && !t.cancelled(i) && t.items[i].Parsed?
    requires var chosen := Chosen(t, db, t.items[i].block);
             chosen.Some? && Passes(t, prev, chosen.value) && chosen.value.number >= t.from
    ensures var chosen := Chosen(t, db, t.items[i].block).value;
            Scanning(t, db, i + 1, if t.verify then Some(chosen.parentHash) else prev, puts + [chosen])
  {
    var chosen := Chosen(t, db, t.items[i].block).value;
    var rest := Scan(t, db, i + 1, if t.verify then Some(chosen.parentHash) else prev);
    assert puts + ([chosen] + rest.puts) == puts + [chosen] + rest.puts;
  }

  lemma ScanStops(t: Job, db: Stored, i: nat, prev: Option<Hash>, puts: seq<Block>)
    requires i <= |t.items| && Scanning(t, db, i, prev, puts) && Scan(t, db, i, prev).puts == []
    ensures Scan(t, db, 0, None) == Scanned(puts, Scan(t, db, i, prev).outcome)
  {
    assert puts + [] == puts;
  }

  lemma StoppedEarly(t: Job, db: Stored, i: nat, prev: Option<Hash>, written: seq<Block>, batch: seq<Block>)
    requires i <= |t.items| && Scanning(t, db, i, prev, written + batch)
    ensures PartlyWritten(t, db, Write(db, written))
  {
    assert written <= written + batch + Scan(t, db, i, prev).puts;
    assert WrittenPart(t, db, Write(db, written), written);
  }

  /** Blocks below the smallest one to import are read as they were before the import. */
  lemma ReadBelow(t: Job, db: Stored, written: seq<Block>, block: Block)
    requires AllFrom(written, t.from)
    ensures Chosen(t, Write(db, written), block) == Chosen(t, db, block)
  {
    if block.number < t.from { WriteAbove(db, written, t.from, block.number); }
  }

  lemma {:induction false} WriteAbove(db: Stored, puts: seq<Block>, from: nat, n: BlockNo)
    requires n < from && forall b | b in puts :: b.number >= from
    ensures n in Write(db, puts) <==> n in db
    ensures n in db ==> Write(db, puts)[n] == db[n]
  {
    if puts != [] {
      assert puts[|puts| - 1] in puts;
      WriteAbove(db, puts[..|puts| - 1], from, n);
    }
  }

  /** The whole import: the database afterwards (unless it failed), and how it ended. */
  ghost function Imported(db: Stored, hashing: Hashing, items: seq<Item>, verify: bool, cancelled: nat -> bool)
    : (Stored, Outcome)
  {
    var from := SmallestToImport(NormalForm(db.Keys));
    if items != [] && items[0].Broken? then (db, Failed)
    else if items == [] || items[0].block.number + 1 <= from then (db, Finished)
    else
      var scanned := Scan(Job(hashing, items, verify, from, cancelled), db, 0, None);
      (Write(db, scanned.puts), scanned.outcome)
  }

  /** A whole import that finishes, over a stream that is not empty: the first item is not broken, and unless
    * there is nothing to import, the loop has met no broken item either. */
  lemma {:induction false} FinishedImport(db: Stored, hashing: Hashing, items: seq<Item>, verify: bool,
                                          cancelled: nat -> bool, i: nat)
    requires Imported(db, hashing, items, verify, cancelled).1 == Finished && items != []
    ensures items[0].Parsed?
    ensures var t := Job(hashing, items, verify, SmallestToImport(NormalForm(db.Keys)), cancelled);
            items[0].block.number >= t.from && i <= |Scan(t, db, 0, None).puts| && i < |items| ==> items[i].Parsed?
  {
    var t := Job(hashing, items, verify, SmallestToImport(NormalForm(db.Keys)), cancelled);
    if items[0].Parsed? && items[0].block.number >= t.from && i <= |Scan(t, db, 0, None).puts| && i < |items| {
      FinishedIsUnbroken(t, db, i);
    }
  }
}
