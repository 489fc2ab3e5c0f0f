/** Log blooms: of a receipt (bertha-types/src/receipts.rs), of a block (bertha-types/src/block.rs), and the
  * query against a header (bertha-types/src/block_header.rs). */
module Blooms {
  import opened Bytes
  import opened LogCodec
  import opened Primitives

  /** A bloom of 2048 bits, as the positions of the set bits. */
  type Bit = n: nat | n < 2048
  type Bloom = set<Bit>

  type Keccak = bytes -> Hash

  /** The three bits of an input: the low eleven bits of each of the first three pairs of bytes of its hash,
    * as in section 4.3.1 of the Yellow Paper. */
  function Bits(keccak: Keccak, input: bytes): Bloom {
    var h := keccak(input);
    {PairBit(h[0], h[1]), PairBit(h[2], h[3]), PairBit(h[4], h[5])}
  }

  function PairBit(high: int, low: int): Bit { (256 * high + low) % 2048 }

  /** In each pair the low three bits of the first byte select one of eight blocks of 256 bits, and the second
    * byte selects the bit in it. */
  lemma {:induction false} BitsAre(keccak: Keccak, input: bytes, bit: Bit)
    ensures var h := keccak(input);
            bit in Bits(keccak, input)
            <==> exists i | 0 <= i < 3 :: bit % 256 == h[2 * i + 1] && bit / 256 == h[2 * i] % 8
  {
    var h := keccak(input);
    PairIs(h[0], h[1], bit);
    PairIs(h[2], h[3], bit);
    PairIs(h[4], h[5], bit);
    assert bit == PairBit(h[0], h[1]) ==> bit % 256 == h[2 * 0 + 1] && bit / 256 == h[2 * 0] % 8;
    assert bit == PairBit(h[2], h[3]) ==> bit % 256 == h[2 * 1 + 1] && bit / 256 == h[2 * 1] % 8;
    assert bit == PairBit(h[4], h[5]) ==> bit % 256 == h[2 * 2 + 1] && bit / 256 == h[2 * 2] % 8;
  }

  lemma {:induction false} PairIs(high: byte, low: byte, bit: Bit)
    ensures bit == PairBit(high, low) <==> bit % 256 == low && bit / 256 == high % 8
  {
    var q := high / 8;
    assert 256 * high + low == 2048 * q + (256 * (high % 8) + low);
  }

  /** What a log contributes: its address and its topics. */
  predicate InputOf(log: Log, input: bytes) {
    input == log.address || input in log.topics
  }

  /** The bits of the inputs of some logs. */
  ghost predicate IsBloomOf(keccak: Keccak, bloom: Bloom, logs: seq<Log>) {
    forall bit: Bit :: bit in bloom <==> exists log, input :: log in logs && InputOf(log, input) && bit in Bits(keccak, input)
  }

  /** Accrues the inputs of a log. */
  method AccrueLog(keccak: Keccak, before: Bloom, log: Log, ghost logs: seq<Log>) returns (bloom: Bloom)
    requires IsBloomOf(keccak, before, logs)
    ensures IsBloomOf(keccak, bloom, logs + [log])
  {
    bloom := before + Bits(keccak, log.address);
    for i := 0 to |log.topics|
      invariant forall bit :: bit in bloom <==>
                  || bit in before || bit in Bits(keccak, log.address)
                  || exists j | 0 <= j < i :: bit in Bits(keccak, log.topics[j])
    {
      bloom := bloom + Bits(keccak, log.topics[i]);
    }
    OneMoreLog(keccak, before, bloom, log, logs);
  }

  lemma OneMoreLog(keccak: Keccak, before: Bloom, bloom: Bloom, log: Log, logs: seq<Log>)
    requires IsBloomOf(keccak, before, logs)
    requires forall bit :: bit in bloom <==>
               || bit in before || bit in Bits(keccak, log.address)
               || exists j | 0 <= j < |log.topics| :: bit in Bits(keccak, log.topics[j])
    ensures IsBloomOf(keccak, bloom, logs + [log])
  {
    forall bit: Bit
      ensures bit in bloom <==>
                exists l, input :: l in logs + [log] && InputOf(l, input) && bit in Bits(keccak, input)
    {
      if bit in before {
        var l, input :| l in logs && InputOf(l, input) && bit in Bits(keccak, input);
        assert l in logs + [log];
      } else if bit in bloom {
        assert log in logs + [log] && InputOf(log, log.address);
        if bit !in Bits(keccak, log.address) {
          var j :| 0 <= j < |log.topics| && bit in Bits(keccak, log.topics[j]);
          assert InputOf(log, log.topics[j]);
        }
      }
      if l, input :| l in logs + [log] && InputOf(l, input) && bit in Bits(keccak, input) {
        if l in logs {
          assert bit in before;
        } else if input != log.address {
          var j :| 0 <= j < |log.topics| && log.topics[j] == input;
        }
      }
    }
  }

  /** A bit is set exactly if it is one of an address or of a topic. */
  lemma {:induction false} BloomIs(keccak: Keccak, bloom: Bloom, logs: seq<Log>, bit: Bit)
    requires IsBloomOf(keccak, bloom, logs)
    ensures bit in bloom <==>
              || (exists log :: log in logs && bit in Bits(keccak, log.address))
              || (exists log, topic :: log in logs && topic in log.topics && bit in Bits(keccak, topic))
  {
    if log :| log in logs && bit in Bits(keccak, log.address) {
      assert InputOf(log, log.address);
    }
    if log, topic :| log in logs && topic in log.topics && bit in Bits(keccak, topic) {
      assert InputOf(log, topic);
    }
    if bit in bloom {
      var log, input :| log in logs && InputOf(log, input) && bit in Bits(keccak, input);
      assert input == log.address || input in log.topics;
    }
  }

  /** `TransactionReceipt::logs_bloom`. */
  method LogsBloom(keccak: Keccak, logs: seq<Log>) returns (bloom: Bloom)
    ensures IsBloomOf(keccak, bloom, logs)
  {
    bloom := {};
    for i := 0 to |logs|
      invariant IsBloomOf(keccak, bloom, logs[..i])
    {
      assert logs[..i + 1] == logs[..i] + [logs[i]];
      bloom := AccrueLog(keccak, bloom, logs[i], logs[..i]);
    }
    assert logs[..|logs|] == logs;
  }

  /** The logs of all receipts, in order. */
  function AllLogs(receipts: seq<seq<Log>>): seq<Log> {
    if receipts == [] then [] else AllLogs(receipts[..|receipts| - 1]) + receipts[|receipts| - 1]
  }

  /** The bloom in `Block::to_header`; a receipt is given by its logs. */
  method HeaderBloom(keccak: Keccak, receipts: seq<seq<Log>>) returns (bloom: Bloom)
    ensures IsBloomOf(keccak, bloom, AllLogs(receipts))
  {
    bloom := {};
    for r := 0 to |receipts|
      invariant IsBloomOf(keccak, bloom, AllLogs(receipts[..r]))
    {
      var logs := receipts[r];
      ghost var before := AllLogs(receipts[..r]);
      for i := 0 to |logs|
        invariant IsBloomOf(keccak, bloom, before + logs[..i])
      {
        assert before + logs[..i + 1] == before + logs[..i] + [logs[i]];
        bloom := AccrueLog(keccak, bloom, logs[i], before + logs[..i]);
      }
      assert logs[..|logs|] == logs && receipts[..r + 1][..r] == receipts[..r];
    }
    assert receipts[..|receipts|] == receipts;
  }

  lemma {:induction false} LogOfSome(receipts: seq<seq<Log>>, log: Log)
    ensures log in AllLogs(receipts) <==> exists r :: r in receipts && log in r
  {
    if receipts != [] {
      var last := receipts[|receipts| - 1];
      assert receipts == receipts[..|receipts| - 1] + [last];
      LogOfSome(receipts[..|receipts| - 1], log);
    }
  }

  /** The bloom of a block is the union of the blooms of its receipts. */
  lemma HeaderBloomIsUnion(keccak: Keccak, receipts: seq<seq<Log>>, header: Bloom, blooms: seq<Bloom>)
    requires IsBloomOf(keccak, header, AllLogs(receipts)) && |blooms| == |receipts|
    requires forall r | 0 <= r < |receipts| :: IsBloomOf(keccak, blooms[r], receipts[r])
    ensures forall bit :: bit in header <==> exists r :: 0 <= r < |blooms| && bit in blooms[r]
  {
    forall bit: Bit
      ensures bit in header <==> exists r :: 0 <= r < |blooms| && bit in blooms[r]
    {
      if bit in header {
        var log, input :| log in AllLogs(receipts) && InputOf(log, input) && bit in Bits(keccak, input);
        LogOfSome(receipts, log);
        var logs :| logs in receipts && log in logs;
        var r :| 0 <= r < |receipts| && receipts[r] == logs;
        assert bit in blooms[r];
      }
      if r :| 0 <= r < |blooms| && bit in blooms[r] {
        var log, input :| log in receipts[r] && InputOf(log, input) && bit in Bits(keccak, input);
        LogOfSome(receipts, log);
        assert receipts[r] in receipts;
      }
    }
  }

  datatype Query = Query(address: seq<Address>, topics: seq<Hash>)

  /** `may_contain_logs`; the optional address is a list of at most one. */
  method MayContainLogs(keccak: Keccak, header: Bloom, q: Query) returns (may: bool)
    requires |q.address| <= 1
    ensures may <==> (forall a | a in q.address :: Bits(keccak, a) <= header)
                     && forall t | t in q.topics :: Bits(keccak, t) <= header
  {
    may := true;
    if |q.address| == 1 {
      may := may && Bits(keccak, q.address[0]) <= header;
    }
    for i := 0 to |q.topics|
      invariant may <==> (forall a | a in q.address :: Bits(keccak, a) <= header)
                         && forall j | 0 <= j < i :: Bits(keccak, q.topics[j]) <= header
    {
      may := may && Bits(keccak, q.topics[i]) <= header;
    }
    if may {
      forall t | t in q.topics
        ensures Bits(keccak, t) <= header
      {
        var j :| 0 <= j < |q.topics| && q.topics[j] == t;
      }
    }
  }

  /** No false negatives: if a receipt of the block has a log with the address and the topics asked for,
    * the bits of the query are in the bloom of the header. */
  lemma NoFalseNegatives(keccak: Keccak, receipts: seq<seq<Log>>, header: Bloom, q: Query, r: nat, log: Log)
    requires IsBloomOf(keccak, header, AllLogs(receipts))
    requires r < |receipts| && log in receipts[r]
    requires (forall a | a in q.address :: a == log.address) && (forall t | t in q.topics :: t in log.topics)
    ensures (forall a | a in q.address :: Bits(keccak, a) <= header)
            && forall t | t in q.topics :: Bits(keccak, t) <= header
  {
    assert receipts[r] in receipts;
    LogOfSome(receipts, log);
    forall input | input in q.address || input in q.topics
      ensures Bits(keccak, input) <= header
    {
      assert InputOf(log, input);
    }
  }
}
