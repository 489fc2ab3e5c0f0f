/** Iterating over the blocks of one chain by walking the raw keys of the store
  * (blockservice/src/db/blockdb.rs, go/blockdb/block_db.go). */
module BlockIteration {
  import opened Bytes
  import opened Ranges
  import opened KvLayout
  import opened BlockDb

  /** A block as an iterator yields it. */
  datatype Found = Found(number: u64, value: bytes)

  // --- The raw iterator of RocksDB: the keys in byte order, and a position ---

  /** All keys of the store in byte order. */
  ghost predicate Listing(kv: Kv, keys: seq<Key>) {
    && (forall i, j | 0 <= i < j < |keys| :: Lt(MakeKey(keys[i]), MakeKey(keys[j])))
    && (forall k :: k in kv <==> k in keys)
  }

  /** Byte order of the keys is order by kind, chain and number. */
  predicate Ordered(keys: seq<Key>) {
    forall i, j | 0 <= i < j < |keys| :: KeyLt(keys[i], keys[j])
  }

  lemma ListingOrdered(kv: Kv, keys: seq<Key>)
    requires Listing(kv, keys)
    ensures Ordered(keys)
  {
    forall i, j | 0 <= i < j < |keys|
      ensures KeyLt(keys[i], keys[j])
    {
      KeyOrder(keys[i], keys[j]);
    }
  }

  /** The key of a block number up to the top of u64, as the iterators seek it. */
  function SeekKey(c: u64, n: u64): bytes {
    [0x02] + (U64BE(c) + U64BE(n))
  }

  /** The position of a key relative to a sought block key. */
  predicate Before(k: Key, c: u64, n: u64) {
    !k.BlockAt? || k.chain < c || (k.chain == c && k.number < n)
  }

  predicate Behind(k: Key, c: u64, n: u64) {
    k.BlockAt? && (k.chain > c || (k.chain == c && k.number > n))
  }

  lemma SeekOrder(k: Key, c: u64, n: u64)
    ensures Lt(MakeKey(k), SeekKey(c, n)) <==> Before(k, c, n)
    ensures Lt(SeekKey(c, n), MakeKey(k)) <==> Behind(k, c, n)
  {
    if k.BlockAt? {
      LtCommonPrefix([0x02], U64BE(k.chain) + U64BE(k.number), U64BE(c) + U64BE(n));
      LtCommonPrefix([0x02], U64BE(c) + U64BE(n), U64BE(k.chain) + U64BE(k.number));
      FieldsOrder(k.chain, U64BE(k.number), c, U64BE(n));
      FieldsOrder(c, U64BE(n), k.chain, U64BE(k.number));
      U64BEOrder(k.number, n);
      U64BEOrder(n, k.number);
    }
  }

  /** `Seek`: the first key not below the sought one. */
  method Seek(keys: seq<Key>, c: u64, n: u64) returns (pos: nat)
    requires Ordered(keys)
    ensures pos <= |keys|
    ensures forall i | 0 <= i < pos :: Before(keys[i], c, n)
    ensures forall i | pos <= i < |keys| :: !Before(keys[i], c, n)
  {
    pos := 0;
    while pos < |keys| && Lt(MakeKey(keys[pos]), SeekKey(c, n))
      invariant 0 <= pos <= |keys|
      invariant forall i | 0 <= i < pos :: Before(keys[i], c, n)
    {
      SeekOrder(keys[pos], c, n);
      pos := pos + 1;
    }
    if pos < |keys| {
      SeekOrder(keys[pos], c, n);
    }
  }

  /** `SeekForPrev`: one behind the last key not above the sought one. */
  method SeekForPrev(keys: seq<Key>, c: u64, n: u64) returns (pos: nat)
    requires Ordered(keys)
    ensures pos <= |keys|
    ensures forall i | 0 <= i < pos :: !Behind(keys[i], c, n)
    ensures forall i | pos <= i < |keys| :: Behind(keys[i], c, n)
  {
    pos := |keys|;
    while pos > 0 && Lt(SeekKey(c, n), MakeKey(keys[pos - 1]))
      invariant 0 <= pos <= |keys|
      invariant forall i | pos <= i < |keys| :: Behind(keys[i], c, n)
    {
      SeekOrder(keys[pos - 1], c, n);
      pos := pos - 1;
    }
    if pos > 0 {
      SeekOrder(keys[pos - 1], c, n);
    }
  }

  // --- What should be yielded ---

  predicate Selected(k: Key, c: u64, lo: u64, hi: u64) {
    k.BlockAt? && k.chain == c && lo <= k.number <= hi
  }

  /** The blocks of the chain with numbers from lo to hi, in the order of the keys. */
  function Select(kv: Kv, keys: seq<Key>, c: u64, lo: u64, hi: u64): seq<Found>
    requires forall k | k in keys :: k in kv
  {
    if keys == [] then []
    else
      var init, k := keys[..|keys| - 1], keys[|keys| - 1];
      assert k in keys && forall x | x in init :: x in keys;
      Select(kv, init, c, lo, hi) + (if Selected(k, c, lo, hi) then [FoundAt(kv, k)] else [])
  }

  /** What an iterator yields for a block key. */
  function FoundAt(kv: Kv, k: Key): Found
    requires k in kv && k.BlockAt?
  {
    Found(k.number, kv[k])
  }

  function Reverse<T>(s: seq<T>): (r: seq<T>)
    ensures |r| == |s| && forall i | 0 <= i < |s| :: r[i] == s[|s| - 1 - i]
  {
    seq(|s|, i requires 0 <= i < |s| => s[|s| - 1 - i])
  }

  lemma SelectSnoc(kv: Kv, keys: seq<Key>, i: nat, c: u64, lo: u64, hi: u64)
    requires i < |keys| && forall k | k in keys :: k in kv
    ensures forall k | k in keys[..i + 1] :: k in kv
    ensures forall k | k in keys[..i] :: k in kv
    ensures Select(kv, keys[..i + 1], c, lo, hi) ==
            Select(kv, keys[..i], c, lo, hi) +
            (if Selected(keys[i], c, lo, hi) then [FoundAt(kv, keys[i])] else [])
  {
    assert keys[..i + 1][..i] == keys[..i];
  }

  /** Keys that are not selected do not matter. */
  lemma {:induction false} SelectSkips(kv: Kv, keys: seq<Key>, i: nat, j: nat, c: u64, lo: u64, hi: u64)
    requires i <= j <= |keys| && forall k | k in keys :: k in kv
    requires forall m | i <= m < j :: !Selected(keys[m], c, lo, hi)
    ensures forall k | k in keys[..i] :: k in kv
    ensures forall k | k in keys[..j] :: k in kv
    ensures Select(kv, keys[..j], c, lo, hi) == Select(kv, keys[..i], c, lo, hi)
    decreases j
  {
    if i < j {
      SelectSkips(kv, keys, i, j - 1, c, lo, hi);
      SelectSnoc(kv, keys, j - 1, c, lo, hi);
    }
  }

  /** The selection holds exactly the blocks of the chain with these numbers, ascending. */
  lemma {:induction false} SelectIsExact(kv: Kv, keys: seq<Key>, c: u64, lo: u64, hi: u64)
    requires Ordered(keys) && forall k | k in keys :: k in kv
    ensures var found := Select(kv, keys, c, lo, hi);
            && (forall i, j | 0 <= i < j < |found| :: found[i].number < found[j].number)
            && (forall f :: f in found <==>
                 f.number < U64_MAX && lo <= f.number <= hi &&
                 BlockAt(c, f.number) in keys && kv[BlockAt(c, f.number)] == f.value)
  {
    if keys != [] {
      var init, k := keys[..|keys| - 1], keys[|keys| - 1];
      assert keys == init + [k];
      SelectIsExact(kv, init, c, lo, hi);
      forall f | f in Select(kv, init, c, lo, hi) && k.BlockAt? && k.chain == c
        ensures f.number < k.number
      {
        var i :| 0 <= i < |init| && init[i] == BlockAt(c, f.number);
        assert KeyLt(keys[i], keys[|keys| - 1]);
      }
      assert forall x :: x in keys <==> x in init || x == k;
    }
  }

  /** What was found at i is the block of the key i behind pos. */
  predicate IsAt(kv: Kv, keys: seq<Key>, pos: nat, found: seq<Found>, i: int) {
    && 0 <= i < |found| && pos + i < |keys|
    && keys[pos + i] in kv && keys[pos + i].BlockAt? && found[i] == FoundAt(kv, keys[pos + i])
  }

  /** The selection is a contiguous run of keys. */
  lemma {:induction false} SelectRun(kv: Kv, keys: seq<Key>, pos: nat, n: nat, c: u64, lo: u64, hi: u64)
    requires pos + n <= |keys| && forall k | k in keys :: k in kv
    requires forall m | 0 <= m < pos :: !Selected(keys[m], c, lo, hi)
    requires forall m | pos <= m < pos + n :: Selected(keys[m], c, lo, hi)
    ensures forall k | k in keys[..pos + n] :: k in kv
    ensures var found := Select(kv, keys[..pos + n], c, lo, hi);
            |found| == n && forall i | 0 <= i < n :: IsAt(kv, keys, pos, found, i)
    decreases n
  {
    if n == 0 {
      SelectSkips(kv, keys, 0, pos, c, lo, hi);
    } else {
      SelectRun(kv, keys, pos, n - 1, c, lo, hi);
      SelectSnoc(kv, keys, pos + n - 1, c, lo, hi);
      var before := Select(kv, keys[..pos + n - 1], c, lo, hi);
      var found := Select(kv, keys[..pos + n], c, lo, hi);
      assert found == before + [FoundAt(kv, keys[pos + n - 1])];
      forall i | 0 <= i < n
        ensures IsAt(kv, keys, pos, found, i)
      {
        if i < n - 1 { assert IsAt(kv, keys, pos, before, i); }
      }
    }
  }

  lemma RunIsSelection(kv: Kv, keys: seq<Key>, c: u64, lo: u64, hi: u64, pos: nat, n: nat)
    requires pos + n <= |keys| && forall k | k in keys :: k in kv
    requires forall m | 0 <= m < pos :: !Selected(keys[m], c, lo, hi)
    requires forall m | pos <= m < pos + n :: Selected(keys[m], c, lo, hi)
    requires forall m | pos + n <= m < |keys| :: !Selected(keys[m], c, lo, hi)
    ensures var found := Select(kv, keys, c, lo, hi);
            |found| == n && forall i | 0 <= i < n :: IsAt(kv, keys, pos, found, i)
  {
    SelectRun(kv, keys, pos, n, c, lo, hi);
    SelectSkips(kv, keys, pos + n, |keys|, c, lo, hi);
    assert keys[..|keys|] == keys;
  }

  /** A block of the chain with a number up to hi, or from lo on. */
  predicate UpTo(k: Key, c: u64, hi: u64) { k.BlockAt? && k.chain == c && k.number <= hi }
  predicate DownTo(k: Key, c: u64, lo: u64) { k.BlockAt? && k.chain == c && k.number >= lo }

  /** The first |out| of the given keys are blocks of the chain up to hi, as yielded, and no more. */
  predicate RunUp(kv: Kv, ks: seq<Key>, c: u64, hi: u64, out: seq<Found>) {
    && |out| <= |ks|
    && (forall i | 0 <= i < |out| :: UpTo(ks[i], c, hi) && ks[i] in kv && out[i] == FoundAt(kv, ks[i]))
    && (|out| < |ks| ==> !UpTo(ks[|out|], c, hi))
  }

  predicate RunDown(kv: Kv, ks: seq<Key>, c: u64, lo: u64, out: seq<Found>) {
    && |out| <= |ks|
    && (forall i | 0 <= i < |out| :: DownTo(ks[i], c, lo) && ks[i] in kv && out[i] == FoundAt(kv, ks[i]))
    && (|out| < |ks| ==> !DownTo(ks[|out|], c, lo))
  }

  /** Where an upward walk ends, there are no blocks of the chain up to hi any more. */
  lemma NoneAbove(kv: Kv, keys: seq<Key>, c: u64, lo: u64, hi: u64, pos: nat, out: seq<Found>)
    requires Ordered(keys) && pos <= |keys|
    requires forall i | pos <= i < |keys| :: !Before(keys[i], c, lo)
    requires RunUp(kv, keys[pos..], c, hi, out)
    ensures forall m | pos + |out| <= m < |keys| :: !Selected(keys[m], c, lo, hi)
  {
    var n := |out|;
    if pos + n < |keys| {
      assert keys[pos..][n] == keys[pos + n];
    }
    forall m | pos + n <= m < |keys|
      ensures !Selected(keys[m], c, lo, hi)
    {
      assert m == pos + n || KeyLt(keys[pos + n], keys[m]);
    }
  }

  lemma SelectedUp(kv: Kv, keys: seq<Key>, c: u64, lo: u64, hi: u64, pos: nat, out: seq<Found>)
    requires pos <= |keys|
    requires forall i | pos <= i < |keys| :: !Before(keys[i], c, lo)
    requires RunUp(kv, keys[pos..], c, hi, out)
    ensures forall m | pos <= m < pos + |out| :: Selected(keys[m], c, lo, hi)
  {
    forall m | pos <= m < pos + |out|
      ensures Selected(keys[m], c, lo, hi)
    {
      assert keys[pos..][m - pos] == keys[m];
    }
  }

  /** Walking up from a sought key until the blocks of the chain up to hi end. */
  lemma WalkedUp(kv: Kv, keys: seq<Key>, c: u64, lo: u64, hi: u64, pos: nat, out: seq<Found>)
    requires Ordered(keys) && forall k | k in keys :: k in kv
    requires pos <= |keys|
    requires forall i | 0 <= i < pos :: Before(keys[i], c, lo)
    requires forall i | pos <= i < |keys| :: !Before(keys[i], c, lo)
    requires RunUp(kv, keys[pos..], c, hi, out)
    ensures out == Select(kv, keys, c, lo, hi)
  {
    var n := |out|;
    NoneAbove(kv, keys, c, lo, hi, pos, out);
    SelectedUp(kv, keys, c, lo, hi, pos, out);
    RunIsSelection(kv, keys, c, lo, hi, pos, n);
    var found := Select(kv, keys, c, lo, hi);
    forall i | 0 <= i < n
      ensures out[i] == found[i]
    {
      assert IsAt(kv, keys, pos, found, i);
      assert keys[pos..][i] == keys[pos + i];
    }
  }

  /** Where a downward walk ends, there are no blocks of the chain from lo on any more. */
  lemma NoneBelow(kv: Kv, keys: seq<Key>, c: u64, lo: u64, hi: u64, pos: nat, out: seq<Found>)
    requires Ordered(keys) && pos <= |keys|
    requires forall i | 0 <= i < pos :: !Behind(keys[i], c, hi)
    requires RunDown(kv, Reverse(keys[..pos]), c, lo, out)
    ensures forall m | 0 <= m < pos - |out| :: !Selected(keys[m], c, lo, hi)
  {
    var n := |out|;
    if n < pos {
      assert Reverse(keys[..pos])[n] == keys[pos - 1 - n];
    }
    forall m | 0 <= m < pos - n
      ensures !Selected(keys[m], c, lo, hi)
    {
      assert m == pos - 1 - n || KeyLt(keys[m], keys[pos - 1 - n]);
    }
  }

  lemma SelectedDown(kv: Kv, keys: seq<Key>, c: u64, lo: u64, hi: u64, pos: nat, out: seq<Found>)
    requires pos <= |keys|
    requires forall i | 0 <= i < pos :: !Behind(keys[i], c, hi)
    requires RunDown(kv, Reverse(keys[..pos]), c, lo, out)
    ensures forall m | pos - |out| <= m < pos :: Selected(keys[m], c, lo, hi)
  {
    forall m | pos - |out| <= m < pos
      ensures Selected(keys[m], c, lo, hi)
    {
      assert Reverse(keys[..pos])[pos - 1 - m] == keys[m];
    }
  }

  /** Walking down from a sought key until the blocks of the chain down to lo end. */
  lemma WalkedDown(kv: Kv, keys: seq<Key>, c: u64, lo: u64, hi: u64, pos: nat, out: seq<Found>)
    requires Ordered(keys) && forall k | k in keys :: k in kv
    requires pos <= |keys|
    requires forall i | 0 <= i < pos :: !Behind(keys[i], c, hi)
    requires forall i | pos <= i < |keys| :: Behind(keys[i], c, hi)
    requires RunDown(kv, Reverse(keys[..pos]), c, lo, out)
    ensures out == Reverse(Select(kv, keys, c, lo, hi))
  {
    var n := |out|;
    NoneBelow(kv, keys, c, lo, hi, pos, out);
    SelectedDown(kv, keys, c, lo, hi, pos, out);
    RunIsSelection(kv, keys, c, lo, hi, pos - n, n);
    var found := Select(kv, keys, c, lo, hi);
    forall i | 0 <= i < n
      ensures out[i] == found[n - 1 - i]
    {
      assert IsAt(kv, keys, pos - n, found, n - 1 - i);
      assert Reverse(keys[..pos])[i] == keys[pos - 1 - i];
    }
  }

  // --- Go: GetRange and GetRangeRev ---

  /** Taking a key apart: the chain and the number, if it is a block key. */
  function ParseBlockKey(key: bytes): seq<nat> {
    if |key| != 17 || key[0] != 0x02 then [] else [FromBE(key[1..9]), FromBE(key[9..17])]
  }

  lemma ParseMadeKey(k: Key)
    ensures ParseBlockKey(MakeKey(k)) == if k.BlockAt? then [k.chain, k.number] else []
    ensures |MakeKey(k)| == if k.BlockAt? then 17 else if k.Meta? then 10 else 2
  {
    if k.BlockAt? {
      assert MakeKey(k)[1..9] == U64BE(k.chain) && MakeKey(k)[9..17] == U64BE(k.number);
    }
  }

  /** The loop of `GetRange`, over the keys from the sought one on. */
  method YieldUp(kv: Kv, ks: seq<Key>, c: u64, end: u64) returns (out: seq<Found>)
    requires forall k | k in ks :: k in kv
    ensures RunUp(kv, ks, c, end, out)
  {
    var i := 0;
    out := [];
    while i < |ks|
      invariant 0 <= i <= |ks| && |out| == i
      invariant forall m | 0 <= m < i :: UpTo(ks[m], c, end) && ks[m] in kv && out[m] == FoundAt(kv, ks[m])
    {
      ParseMadeKey(ks[i]);
      var fields := ParseBlockKey(MakeKey(ks[i]));
      if fields == [] { break; }
      if fields[0] != c || fields[1] > end { break; }
      out := out + [Found(fields[1], kv[ks[i]])];
      i := i + 1;
    }
  }

  /** The loop of `GetRangeRev`, over the keys from the sought one down. */
  method YieldDown(kv: Kv, ks: seq<Key>, c: u64, start: u64) returns (out: seq<Found>)
    requires forall k | k in ks :: k in kv
    ensures RunDown(kv, ks, c, start, out)
  {
    var i := 0;
    out := [];
    while i < |ks|
      invariant 0 <= i <= |ks| && |out| == i
      invariant forall m | 0 <= m < i :: DownTo(ks[m], c, start) && ks[m] in kv && out[m] == FoundAt(kv, ks[m])
    {
      ParseMadeKey(ks[i]);
      var fields := ParseBlockKey(MakeKey(ks[i]));
      if fields == [] { break; }
      if fields[0] != c || fields[1] < start { break; }
      out := out + [Found(fields[1], kv[ks[i]])];
      i := i + 1;
    }
  }

  /** `GetRange`. */
  method GetRange(kv: Kv, keys: seq<Key>, c: u64, start: u64, end: u64) returns (out: seq<Found>)
    requires Listing(kv, keys)
    ensures out == Select(kv, keys, c, start, end)
  {
    ListingOrdered(kv, keys);
    var pos := Seek(keys, c, start);
    out := YieldUp(kv, keys[pos..], c, end);
    WalkedUp(kv, keys, c, start, end, pos, out);
  }

  /** `GetRangeRev`: for all bounds, the reversal of what `GetRange` yields. */
  method GetRangeRev(kv: Kv, keys: seq<Key>, c: u64, start: u64, end: u64) returns (out: seq<Found>)
    requires Listing(kv, keys)
    ensures out == Reverse(Select(kv, keys, c, start, end))
  {
    ListingOrdered(kv, keys);
    var pos := SeekForPrev(keys, c, end);
    ReversedElements(keys[..pos]);
    out := YieldDown(kv, Reverse(keys[..pos]), c, start);
    WalkedDown(kv, keys, c, start, end, pos, out);
  }

  // --- Rust: iterate_bytes ---

  datatype Direction = Forward | Backward

  datatype Entry = Entry(key: bytes, value: bytes)

  datatype Item = Block(found: Found) | UnexpectedKey

  /** What the first adaptor makes of a raw entry. */
  datatype Verdict = Yield(found: Found) | Stop | Reject

  function Judge(e: Entry, c: u64): Verdict {
    if |e.key| == 2 || |e.key| == 10 then Stop
    else if |e.key| != 17 || e.key[0] != 0x02 then Reject
    else
      U64BEInverse(e.key[9..17]);
      if ParseBlockKey(e.key)[0] != c then Stop else Yield(Found(ParseBlockKey(e.key)[1], e.value))
  }

  /** Metadata keys and blocks of other chains end the iteration; a key that is none of the layout is an error. */
  lemma {:induction false} JudgeIs(e: Entry, c: u64)
    ensures Judge(e, c) == Reject <==> |e.key| != 2 && |e.key| != 10 && !(|e.key| == 17 && e.key[0] == 0x02)
    ensures Judge(e, c).Yield? <==> |e.key| == 17 && e.key[0] == 0x02 && e.key[1..9] == U64BE(c)
    ensures Judge(e, c).Yield? ==>
              U64BE(Judge(e, c).found.number) == e.key[9..17] && Judge(e, c).found.value == e.value
  {
    if |e.key| == 17 && e.key[0] == 0x02 {
      U64BEInverse(e.key[1..9]);
      U64BEInverse(e.key[9..17]);
    }
  }

  /** The adaptors of `iterate_bytes`, over any raw entries: they yield the leading entries that are
    * blocks of the chain, and for a key that is none of the layout a final error. */
  method Adapt(raw: seq<Entry>, c: u64) returns (items: seq<Item>, n: nat)
    ensures n <= |raw| && n <= |items|
    ensures forall i | 0 <= i < n :: Judge(raw[i], c).Yield? && items[i] == Block(Judge(raw[i], c).found)
    ensures n < |raw| ==> !Judge(raw[n], c).Yield?
    ensures items[n..] == if n < |raw| && Judge(raw[n], c).Reject? then [UnexpectedKey] else []
  {
    items, n := [], 0;
    while n < |raw|
      invariant 0 <= n <= |raw| && |items| == n
      invariant forall i | 0 <= i < n :: Judge(raw[i], c).Yield? && items[i] == Block(Judge(raw[i], c).found)
    {
      match Judge(raw[n], c) {
        case Stop => return;
        case Reject =>
          items := items + [UnexpectedKey];
          return;
        case Yield(found) =>
          items := items + [Block(found)];
          n := n + 1;
      }
    }
  }

  /** The raw entry of a key. */
  function EntryOf(kv: Kv, k: Key): Entry
    requires k in kv
  {
    Entry(MakeKey(k), kv[k])
  }

  lemma JudgeKey(kv: Kv, k: Key, c: u64)
    requires k in kv
    ensures Judge(EntryOf(kv, k), c) == if k.BlockAt? && k.chain == c then Yield(FoundAt(kv, k)) else Stop
  {
    ParseMadeKey(k);
  }

  function Items(found: seq<Found>): (items: seq<Item>)
    ensures |items| == |found|
    ensures forall i | 0 <= i < |items| :: items[i] == Block(found[i])
  {
    seq(|found|, i requires 0 <= i < |found| => Block(found[i]))
  }

  /** For the keys of the layout, the adaptors yield the leading blocks of the chain and no error. */
  lemma AdaptedKeys(kv: Kv, ks: seq<Key>, raw: seq<Entry>, c: u64, items: seq<Item>, n: nat)
    returns (found: seq<Found>)
    requires |raw| == |ks| && n <= |raw| && n <= |items|
    requires forall i | 0 <= i < |ks| :: ks[i] in kv && raw[i] == EntryOf(kv, ks[i])
    requires forall i | 0 <= i < n :: Judge(raw[i], c).Yield? && items[i] == Block(Judge(raw[i], c).found)
    requires n < |raw| ==> !Judge(raw[n], c).Yield?
    requires items[n..] == if n < |raw| && Judge(raw[n], c).Reject? then [UnexpectedKey] else []
    ensures |found| == n && items == Items(found)
    ensures forall i | 0 <= i < n :: ks[i].BlockAt? && ks[i].chain == c && found[i] == FoundAt(kv, ks[i])
    ensures n < |ks| ==> !(ks[n].BlockAt? && ks[n].chain == c)
  {
    forall i | 0 <= i < |ks|
      ensures Judge(raw[i], c) == if ks[i].BlockAt? && ks[i].chain == c then Yield(FoundAt(kv, ks[i])) else Stop
    {
      JudgeKey(kv, ks[i], c);
    }
    assert items == items[..n] + items[n..];
    found := seq(n, i requires 0 <= i < n => items[i].found);
  }

  /** `iterate_bytes`: forward exactly the blocks of the chain from the start on, ascending; backward
    * exactly those up to the start, descending; and never an error. */
  method IterateBytes(kv: Kv, keys: seq<Key>, c: u64, start: u64, direction: Direction)
    returns (out: seq<Item>)
    requires Listing(kv, keys)
    ensures direction.Forward? ==> out == Items(Select(kv, keys, c, start, U64_MAX))
    ensures direction.Backward? ==> out == Items(Reverse(Select(kv, keys, c, 0, start)))
  {
    ListingOrdered(kv, keys);
    ghost var found;
    if direction.Forward? {
      var pos := Seek(keys, c, start);
      out, found := AdaptKeys(kv, keys[pos..], c);
      WalkedUp(kv, keys, c, start, U64_MAX, pos, found);
    } else {
      var pos := SeekForPrev(keys, c, start);
      var ks := Reverse(keys[..pos]);
      ReversedElements(keys[..pos]);
      out, found := AdaptKeys(kv, ks, c);
      WalkedDown(kv, keys, c, 0, start, pos, found);
    }
  }

  lemma ReversedElements<T>(s: seq<T>)
    ensures forall x :: x in Reverse(s) <==> x in s
  {
    forall x | x in s
      ensures x in Reverse(s)
    {
      var i :| 0 <= i < |s| && s[i] == x;
      assert Reverse(s)[|s| - 1 - i] == x;
    }
  }

  /** The adaptors over the raw entries of some keys, in the order of the raw iterator. */
  method AdaptKeys(kv: Kv, ks: seq<Key>, c: u64) returns (out: seq<Item>, ghost found: seq<Found>)
    requires forall k | k in ks :: k in kv
    ensures |found| <= |ks| && out == Items(found)
    ensures forall i | 0 <= i < |found| :: ks[i].BlockAt? && ks[i].chain == c && found[i] == FoundAt(kv, ks[i])
    ensures |found| < |ks| ==> !(ks[|found|].BlockAt? && ks[|found|].chain == c)
  {
    var raw := seq(|ks|, i requires 0 <= i < |ks| => EntryOf(kv, ks[i]));
    var n;
    out, n := Adapt(raw, c);
    found := AdaptedKeys(kv, ks, raw, c, out, n);
  }
}
