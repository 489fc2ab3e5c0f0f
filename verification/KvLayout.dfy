/** The key and value layout of the block database (blockservice/src/db/blockdb.rs), which the Go side
  * shares (go/blockdb/block_db.go). */
module KvLayout {
  import opened Bytes
  import opened Ranges

  // --- Keys ---

  datatype MetaKind = BlockRanges | RulesUpdateHeights | Corrections | FailedBundles

  function Suffix(kind: MetaKind): byte {
    match kind case BlockRanges => 0 case RulesUpdateHeights => 1 case Corrections => 2 case FailedBundles => 3
  }

  /** What a key stands for. */
  datatype Key =
    | Version
    | ChainIds
    | Meta(chain: u64, kind: MetaKind)
    | BlockAt(chain: u64, number: BlockNo)

  /** The key makers. */
  function MakeKey(k: Key): bytes {
    match k
    case Version => [0x00, 0x00]
    case ChainIds => [0x00, 0x01]
    case Meta(c, kind) => [0x01] + (U64BE(c) + [Suffix(kind)])
    case BlockAt(c, n) => [0x02] + (U64BE(c) + U64BE(n))
  }

  /** Global metadata first, then the metadata of all chains, then all blocks, by chain and number. */
  predicate KeyLt(a: Key, b: Key) {
    match a
    case Version => b != Version
    case ChainIds => b.Meta? || b.BlockAt?
    case Meta(c, kind) =>
      b.BlockAt? || (b.Meta? && (c < b.chain || (c == b.chain && Suffix(kind) < Suffix(b.kind))))
    case BlockAt(c, n) => b.BlockAt? && (c < b.chain || (c == b.chain && n < b.number))
  }

  /** The byte order of two fields of which the first has eight bytes. */
  lemma FieldsOrder(c: u64, x: bytes, d: u64, y: bytes)
    ensures Lt(U64BE(c) + x, U64BE(d) + y) <==> c < d || (c == d && Lt(x, y))
  {
    U64BEOrder(c, d);
    if c == d {
      LtCommonPrefix(U64BE(c), x, y);
    } else {
      LtFirstDiffers(U64BE(c), U64BE(d), x, y);
    }
  }

  lemma {:induction false} BlockKeyOrder(c: u64, m: BlockNo, d: u64, n: BlockNo)
    ensures Lt(MakeKey(BlockAt(c, m)), MakeKey(BlockAt(d, n))) <==> KeyLt(BlockAt(c, m), BlockAt(d, n))
  {
    LtCommonPrefix([0x02], U64BE(c) + U64BE(m), U64BE(d) + U64BE(n));
    FieldsOrder(c, U64BE(m), d, U64BE(n));
    U64BEOrder(m, n);
  }

  lemma {:induction false} MetaKeyOrder(c: u64, k: MetaKind, d: u64, l: MetaKind)
    ensures Lt(MakeKey(Meta(c, k)), MakeKey(Meta(d, l))) <==> KeyLt(Meta(c, k), Meta(d, l))
  {
    LtCommonPrefix([0x01], U64BE(c) + [Suffix(k)], U64BE(d) + [Suffix(l)]);
    FieldsOrder(c, [Suffix(k)], d, [Suffix(l)]);
  }

  lemma {:induction false} OtherKeyOrder(a: Key, b: Key)
    requires a != b && !(a.Meta? && b.Meta?) && !(a.BlockAt? && b.BlockAt?)
    ensures Lt(MakeKey(a), MakeKey(b)) <==> KeyLt(a, b)
  {
    assert [0x00, 0x00][1..] == [0x00] && [0x00, 0x01][1..] == [0x01];
  }

  /** The byte order of the keys is the order by kind, chain and number. */
  lemma {:induction false} KeyOrder(a: Key, b: Key)
    ensures Lt(MakeKey(a), MakeKey(b)) <==> KeyLt(a, b)
  {
    if a.Meta? && b.Meta? {
      MetaKeyOrder(a.chain, a.kind, b.chain, b.kind);
    } else if a.BlockAt? && b.BlockAt? {
      BlockKeyOrder(a.chain, a.number, b.chain, b.number);
    } else if a == b {
      LtIrreflexive(MakeKey(a));
    } else {
      OtherKeyOrder(a, b);
    }
  }

  /** Different things have different keys. */
  lemma KeyInjective(a: Key, b: Key)
    ensures MakeKey(a) == MakeKey(b) <==> a == b
  {
    KeyOrder(a, b);
    KeyOrder(b, a);
    if MakeKey(a) == MakeKey(b) {
      LtIrreflexive(MakeKey(a));
    }
  }

  // --- The key makers of the Go side ---

  /** `binary.BigEndian.PutUint64`, at position `at`. */
  method PutUint64(key: array<byte>, at: nat, n: u64)
    requires at + 8 <= key.Length
    modifies key
    ensures key[..] == old(key[..at]) + U64BE(n) + old(key[at + 8..])
  {
    var digits := U64BE(n);
    for i := 0 to 8
      invariant key[..at] == old(key[..at]) && key[at..at + i] == digits[..i] && key[at + 8..] == old(key[at + 8..])
    {
      key[at + i] := digits[i];
    }
    assert key[..] == key[..at] + key[at..at + 8] + key[at + 8..];
  }

  /** A key of ten bytes for the metadata of a chain. */
  method MakeMetaKey(chainID: u64, suffix: byte) returns (key: array<byte>)
    ensures key[..] == [0x01] + U64BE(chainID) + [suffix]
  {
    key := new byte[10](_ => 0);
    key[0] := 0x01;
    PutUint64(key, 1, chainID);
    key[9] := suffix;
    assert key[..1] == [0x01];
  }

  /** Both sides keep the rules update heights under the same key. */
  method MakeRulesUpdateHeightsKey(chainID: u64) returns (key: array<byte>)
    ensures key[..] == MakeKey(Meta(chainID, RulesUpdateHeights))
  {
    key := MakeMetaKey(chainID, 0x01);
    assert [0x01] + U64BE(chainID) + [0x01] == [0x01] + (U64BE(chainID) + [0x01]);
  }

  method MakeCorrectionsKey(chainID: u64) returns (key: array<byte>)
    ensures key[..] == MakeKey(Meta(chainID, Corrections))
  {
    key := MakeMetaKey(chainID, 0x02);
    assert [0x01] + U64BE(chainID) + [0x02] == [0x01] + (U64BE(chainID) + [0x02]);
  }

  method MakeFailedBundlesKey(chainID: u64) returns (key: array<byte>)
    ensures key[..] == MakeKey(Meta(chainID, FailedBundles))
  {
    key := MakeMetaKey(chainID, 0x03);
    assert [0x01] + U64BE(chainID) + [0x03] == [0x01] + (U64BE(chainID) + [0x03]);
  }

  method MakeBlockKey(chainID: u64, blockNumber: BlockNo) returns (key: array<byte>)
    ensures key[..] == MakeKey(BlockAt(chainID, blockNumber))
  {
    key := new byte[17](_ => 0);
    key[0] := 0x02;
    PutUint64(key, 1, chainID);
    PutUint64(key, 9, blockNumber);
    assert key[..9] == [0x02] + U64BE(chainID);
    assert [0x02] + U64BE(chainID) + U64BE(blockNumber) == [0x02] + (U64BE(chainID) + U64BE(blockNumber));
  }

  // --- Values ---

  datatype Result<+T> = Ok(value: T) | Err

  /** `serialize_chain_ids`. */
  function SerializeU64s(ns: seq<u64>): (s: bytes)
    ensures |s| == 8 * |ns|
  {
    if ns == [] then [] else U64BE(ns[0]) + SerializeU64s(ns[1..])
  }

  function Chunks(data: bytes): (ns: seq<u64>)
    requires |data| % 8 == 0
    ensures |data| == 8 * |ns|
  {
    if data == [] then []
    else
      U64BEInverse(data[..8]);
      [FromBE(data[..8])] + Chunks(data[8..])
  }

  /** `deserialize_chain_ids`. */
  function DeserializeChainIds(data: bytes): Result<seq<u64>> {
    if |data| % 8 != 0 then Err else Ok(Chunks(data))
  }

  lemma {:induction false} ChunksInverse(ns: seq<u64>)
    ensures Chunks(SerializeU64s(ns)) == ns
  {
    if ns != [] {
      var s := SerializeU64s(ns);
      assert s[..8] == U64BE(ns[0]) && s[8..] == SerializeU64s(ns[1..]);
      ChunksInverse(ns[1..]);
    }
  }

  function Flatten(rs: seq<Range>): (ns: seq<u64>)
    ensures |ns| == 2 * |rs|
  {
    if rs == [] then [] else [rs[0].start, rs[0].end] + Flatten(rs[1..])
  }

  function PairUp(ns: seq<u64>): (rs: seq<Range>)
    requires |ns| % 2 == 0 && forall i | 0 <= i < |ns| :: ns[i] < U64_MAX
    ensures |ns| == 2 * |rs|
  {
    if ns == [] then [] else [Range(ns[0], ns[1])] + PairUp(ns[2..])
  }

  /** `serialize_block_ranges`. */
  function SerializeRanges(rs: seq<Range>): bytes {
    SerializeU64s(Flatten(rs))
  }

  /** The stored numbers are below the top of u64. */
  predicate BelowTop(data: bytes) {
    |data| % 8 == 0 ==> forall i | 0 <= i < |Chunks(data)| :: Chunks(data)[i] < U64_MAX
  }

  /** `deserialize_block_ranges`. */
  function DeserializeRanges(data: bytes): Result<seq<Range>>
    requires BelowTop(data)
  {
    if |data| % 16 != 0 then Err else Ok(PairUp(Chunks(data)))
  }

  /** Values are refused for their length only. */
  lemma {:induction false} RefusedLengths(data: bytes)
    requires BelowTop(data)
    ensures DeserializeRanges(data) == Err <==> |data| % 16 != 0
    ensures DeserializeChainIds(data) == Err <==> |data| % 8 != 0
  {
  }

  lemma {:induction false} PairUpInverse(rs: seq<Range>)
    ensures forall i | 0 <= i < |Flatten(rs)| :: Flatten(rs)[i] < U64_MAX
    ensures PairUp(Flatten(rs)) == rs
  {
    if rs != [] {
      PairUpInverse(rs[1..]);
      assert Flatten(rs)[2..] == Flatten(rs[1..]);
    }
  }

  /** Reading back what was written. */
  lemma RangesRoundTrip(rs: seq<Range>)
    ensures BelowTop(SerializeRanges(rs)) && DeserializeRanges(SerializeRanges(rs)) == Ok(rs)
  {
    ChunksInverse(Flatten(rs));
    PairUpInverse(rs);
  }

  /** Each range takes sixteen bytes: its start, then its end, the most significant byte first. */
  lemma {:induction false} RangeBytes(rs: seq<Range>, i: nat)
    requires i < |rs|
    ensures |SerializeRanges(rs)| == 16 * |rs|
    ensures SerializeRanges(rs)[16 * i..16 * i + 8] == U64BE(rs[i].start)
    ensures SerializeRanges(rs)[16 * i + 8..16 * i + 16] == U64BE(rs[i].end)
  {
    var rest := SerializeRanges(rs[1..]);
    var ns := Flatten(rs);
    assert ns[0] == rs[0].start && ns[1..][0] == rs[0].end && ns[1..][1..] == Flatten(rs[1..]);
    assert SerializeU64s(ns[1..]) == U64BE(rs[0].end) + rest;
    assert SerializeRanges(rs) == U64BE(rs[0].start) + (U64BE(rs[0].end) + rest);
    if i > 0 {
      RangeBytes(rs[1..], i - 1);
      assert SerializeRanges(rs)[16 * i..16 * i + 8] == rest[16 * (i - 1)..16 * (i - 1) + 8];
      assert SerializeRanges(rs)[16 * i + 8..16 * i + 16] == rest[16 * (i - 1) + 8..16 * (i - 1) + 16];
    }
  }

  lemma ChainIdsRoundTrip(ids: seq<u64>)
    ensures DeserializeChainIds(SerializeU64s(ids)) == Ok(ids)
  {
    ChunksInverse(ids);
  }

  // --- Sorted lists of chain IDs ---

  predicate Ascending(ids: seq<u64>) {
    forall i, j | 0 <= i < j < |ids| :: ids[i] < ids[j]
  }

  function Elements(ids: seq<u64>): set<u64> {
    set c | c in ids
  }

  lemma {:induction false} AscendingUnique(a: seq<u64>, b: seq<u64>)
    requires Ascending(a) && Ascending(b) && Elements(a) == Elements(b)
    ensures a == b
  {
    assert a != [] ==> a[0] in Elements(b);
    assert b != [] ==> b[0] in Elements(a);
    if a != [] {
      assert a[0] == b[0];
      assert Elements(a[1..]) == Elements(a) - {a[0]};
      assert Elements(b[1..]) == Elements(b) - {b[0]};
      AscendingUnique(a[1..], b[1..]);
      assert a == [a[0]] + a[1..] && b == [b[0]] + b[1..];
    }
  }

  /** `binary_search`: the position of the ID, or of the first larger one, in an ascending list. */
  method BinarySearch(ids: seq<u64>, id: u64) returns (pos: nat)
    ensures pos <= |ids|
    ensures Ascending(ids) ==> forall i | 0 <= i < pos :: ids[i] < id
    ensures Ascending(ids) ==> forall i | pos <= i < |ids| :: id <= ids[i]
  {
    var lo, hi := 0, |ids|;
    while lo < hi
      invariant 0 <= lo <= hi <= |ids|
      invariant Ascending(ids) ==> forall i | 0 <= i < lo :: ids[i] < id
      invariant Ascending(ids) ==> forall i | hi <= i < |ids| :: id <= ids[i]
    {
      var mid := (lo + hi) / 2;
      if ids[mid] < id { lo := mid + 1; } else { hi := mid; }
    }
    pos := lo;
  }

  /** Adds an ID unless it is found, keeping an ascending list ascending. */
  method InsertId(ids: seq<u64>, id: u64) returns (out: seq<u64>)
    ensures Elements(out) == Elements(ids) + {id}
    ensures Ascending(ids) ==> Ascending(out)
  {
    var pos := BinarySearch(ids, id);
    if pos < |ids| && ids[pos] == id {
      out := ids;
    } else {
      out := ids[..pos] + [id] + ids[pos..];
      assert forall c :: c in ids <==> c in ids[..pos] || c in ids[pos..];
    }
  }

  lemma {:induction false} AscendingExists(s: set<u64>)
    ensures exists ids :: Ascending(ids) && Elements(ids) == s
  {
    if s == {} {
      assert Ascending([]) && Elements([]) == s;
    } else {
      var c :| c in s;
      AscendingExists(s - {c});
      var ids :| Ascending(ids) && Elements(ids) == s - {c};
      var out := InsertOne(ids, c);
      assert Ascending(out) && Elements(out) == s;
    }
  }

  lemma {:induction false} InsertOne(ids: seq<u64>, id: u64) returns (out: seq<u64>)
    requires Ascending(ids) && id !in ids
    ensures Ascending(out) && Elements(out) == Elements(ids) + {id}
  {
    if ids == [] || id < ids[0] {
      out := [id] + ids;
    } else {
      assert ids == [ids[0]] + ids[1..];
      var rest := InsertOne(ids[1..], id);
      forall j | 0 <= j < |rest|
        ensures ids[0] < rest[j]
      {
        assert rest[j] in Elements(rest);
      }
      out := [ids[0]] + rest;
    }
  }

  /** The ascending list of a set of chain IDs. */
  ghost function SortedIds(s: set<u64>): (ids: seq<u64>)
    ensures Ascending(ids) && Elements(ids) == s
  {
    AscendingExists(s);
    var ids :| Ascending(ids) && Elements(ids) == s;
    ids
  }
}
