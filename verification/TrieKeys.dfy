/** The leaves of the tries of transactions and receipts (bertha-types/src/eip_2718_utils.rs). */
module TrieKeys {
  import opened Bytes
  import opened Rlp

  /** Half bytes; the key of a leaf. */
  type Nibbles = bytes

  datatype Leaf = Leaf(key: Nibbles, payload: bytes)

  /** `Nibbles::unpack`. */
  function Unpack(s: bytes): Nibbles {
    if s == [] then [] else [s[0] / 16, s[0] % 16] + Unpack(s[1..])
  }

  /** The RLP of an index, as a `usize`. */
  function EncodeKey(index: u64): bytes {
    SizableIndex(index);
    EncodeString(MinimalBE(index))
  }

  lemma SizableIndex(index: u64)
    ensures |MinimalBE(index)| <= 8
  {
    SizableLength(index);
  }

  function Key(index: u64): Nibbles { Unpack(EncodeKey(index)) }

  // --- No key is a prefix of another ---

  lemma {:induction false} UnpackPrefix(a: bytes, b: bytes)
    requires Unpack(a) <= Unpack(b)
    ensures a <= b
  {
    if a != [] {
      var x, y := Unpack(a), Unpack(b);
      assert y != [] && x[0] == y[0] && x[1] == y[1];
      assert a[0] == 16 * x[0] + x[1] && b[0] == 16 * y[0] + y[1];
      assert x[2..] == Unpack(a[1..]) && y[2..] == Unpack(b[1..]);
      UnpackPrefix(a[1..], b[1..]);
    }
  }

  lemma {:induction false} StringsPrefixFree(a: bytes, b: bytes, rest: bytes)
    requires |a| <= 8 && |b| <= 8 && EncodeString(b) == EncodeString(a) + rest
    ensures a == b
  {
    StringRoundTrip(a, rest);
    StringRoundTrip(b, []);
    assert EncodeString(b) + [] == EncodeString(b);
  }

  /** Keys are prefix-free, since RLP is: a string decodes in only one way. */
  lemma {:induction false} KeysPrefixFree(i: u64, j: u64)
    requires Key(i) <= Key(j)
    ensures i == j
  {
    UnpackPrefix(EncodeKey(i), EncodeKey(j));
    SizableIndex(i);
    SizableIndex(j);
    StringsPrefixFree(MinimalBE(i), MinimalBE(j), EncodeKey(j)[|EncodeKey(i)|..]);
    MinimalInverse(i);
    MinimalInverse(j);
  }

  // --- The order of the keys ---

  lemma {:induction false} UnpackOrder(a: bytes, b: bytes)
    requires Lt(a, b)
    ensures Lt(Unpack(a), Unpack(b))
  {
    if a != [] {
      var x, y := Unpack(a), Unpack(b);
      assert x[1..][0] == a[0] % 16 && y[1..][0] == b[0] % 16;
      assert x[1..][1..] == Unpack(a[1..]) && y[1..][1..] == Unpack(b[1..]);
      if a[0] == b[0] {
        UnpackOrder(a[1..], b[1..]);
      } else {
        assert a[0] == 16 * x[0] + x[1..][0] && b[0] == 16 * y[0] + y[1..][0];
      }
    }
  }

  lemma {:induction false} MinimalIsToBE(n: nat)
    ensures n < Pow256(|MinimalBE(n)|) && MinimalBE(n) == ToBE(n, |MinimalBE(n)|)
  {
    if n > 0 { MinimalIsToBE(n / 256); }
  }

  /** The key of 0 is 0x80, that of a small index the index itself; it sorts behind those below 128. */
  function Rank(index: u64): nat {
    if index == 0 then 127 else if index < 128 then index - 1 else index
  }

  lemma {:induction false} EncodedKey(index: u64)
    ensures 0 < index < 128 ==> EncodeKey(index) == [index]
    ensures index == 0 ==> EncodeKey(index) == [0x80]
    ensures index >= 128 ==> EncodeKey(index) == [0x80 + |MinimalBE(index)|] + MinimalBE(index)
    ensures index >= 128 ==> 1 <= |MinimalBE(index)| <= 8
  {
    SizableIndex(index);
    if 0 < index < 128 {
      assert MinimalBE(index / 256) == [];
    } else if index >= 128 {
      if index < 256 { assert MinimalBE(index / 256) == []; }
      if index >= 256 {
        MinimalHead(index / 256);
      }
    }
  }

  lemma {:induction false} KeyOrder(i: u64, j: u64)
    requires Rank(i) < Rank(j)
    ensures Lt(Key(i), Key(j))
  {
    EncodedKey(i);
    EncodedKey(j);
    if i >= 128 {
      var a, b := MinimalBE(i), MinimalBE(j);
      MinimalMonotone(i, j);
      if |a| == |b| {
        MinimalIsToBE(i);
        MinimalIsToBE(j);
        ToBEOrder(i, j, |a|);
        LtCommonPrefix([0x80 + |a|], a, b);
      }
    }
    UnpackOrder(EncodeKey(i), EncodeKey(j));
  }

  // --- Sorting the leaves ---

  /** The order of pairs of key and payload. */
  predicate LeafLt(a: Leaf, b: Leaf) {
    Lt(a.key, b.key) || (a.key == b.key && Lt(a.payload, b.payload))
  }

  predicate LeafLe(a: Leaf, b: Leaf) { a == b || LeafLt(a, b) }

  predicate SortedLeaves(ls: seq<Leaf>) {
    forall i, j | 0 <= i < j < |ls| :: LeafLe(ls[i], ls[j])
  }

  lemma LeafLtTransitive(a: Leaf, b: Leaf, c: Leaf)
    requires LeafLe(a, b) && LeafLe(b, c)
    ensures LeafLe(a, c)
  {
    if a != b && b != c {
      LtIrreflexive(b.key);
      if Lt(a.key, b.key) && Lt(b.key, c.key) { LtTransitive(a.key, b.key, c.key); }
      if a.key == b.key && b.key == c.key { LtTransitive(a.payload, b.payload, c.payload); }
    }
  }

  lemma LeafTotal(a: Leaf, b: Leaf)
    ensures LeafLe(a, b) || LeafLe(b, a)
  {
    LtTotal(a.key, b.key);
    LtTotal(a.payload, b.payload);
  }

  /** `sort`, by insertion. */
  method Sort(leaves: seq<Leaf>) returns (sorted: seq<Leaf>)
    ensures SortedLeaves(sorted) && multiset(sorted) == multiset(leaves)
  {
    sorted := [];
    var n := 0;
    while n < |leaves|
      invariant 0 <= n <= |leaves| && SortedLeaves(sorted) && multiset(sorted) == multiset(leaves[..n])
    {
      sorted := Insert(sorted, leaves[n]);
      assert leaves[..n + 1] == leaves[..n] + [leaves[n]];
      n := n + 1;
    }
    assert leaves[..n] == leaves;
  }

  method Insert(sorted: seq<Leaf>, leaf: Leaf) returns (out: seq<Leaf>)
    requires SortedLeaves(sorted)
    ensures SortedLeaves(out) && multiset(out) == multiset(sorted) + multiset{leaf}
  {
    var k := |sorted|;
    while k > 0 && !LeafLe(sorted[k - 1], leaf)
      invariant 0 <= k <= |sorted|
      invariant forall i | k <= i < |sorted| :: LeafLe(leaf, sorted[i])
    {
      LeafTotal(sorted[k - 1], leaf);
      k := k - 1;
    }
    out := InsertAt(sorted, leaf, k);
    InsertedSorted(sorted, leaf, k);
  }

  function InsertAt(s: seq<Leaf>, leaf: Leaf, k: nat): (r: seq<Leaf>)
    requires k <= |s|
    ensures multiset(r) == multiset(s) + multiset{leaf}
  {
    assert s == s[..k] + s[k..];
    s[..k] + [leaf] + s[k..]
  }

  lemma InsertedSorted(sorted: seq<Leaf>, leaf: Leaf, k: nat)
    requires SortedLeaves(sorted) && k <= |sorted|
    requires k > 0 ==> LeafLe(sorted[k - 1], leaf)
    requires forall i | k <= i < |sorted| :: LeafLe(leaf, sorted[i])
    ensures SortedLeaves(InsertAt(sorted, leaf, k))
  {
    forall i | 0 <= i < k
      ensures LeafLe(sorted[i], leaf)
    {
      if i < k - 1 { LeafLtTransitive(sorted[i], sorted[k - 1], leaf); }
    }
  }

  // --- What the trie builder is fed ---

  function Count(lo: nat, hi: nat): (s: seq<nat>)
    requires lo <= hi
    ensures |s| == hi - lo && forall i | 0 <= i < |s| :: s[i] == lo + i
  {
    seq(hi - lo, i => lo + i)
  }

  /** Indices 1 to 127, then 0, then 128 upward. */
  function Order(n: nat): (s: seq<nat>)
    ensures |s| == n
  {
    if n == 0 then []
    else if n <= 128 then Count(1, n) + [0]
    else Count(1, 128) + [0] + Count(128, n)
  }

  lemma OrderIsPermutation(n: nat)
    ensures forall i: nat :: i in Order(n) <==> i < n
    ensures n <= U64_MAX ==>
              forall j, k | 0 <= j < k < n ::
                Order(n)[j] < n && Order(n)[k] < n && Rank(Order(n)[j]) < Rank(Order(n)[k])
  {
    forall i: nat | i < n
      ensures i in Order(n)
    {
      if n <= 128 {
        assert Order(n)[if i == 0 then n - 1 else i - 1] == i;
      } else {
        assert Order(n)[if i == 0 then 127 else if i < 128 then i - 1 else i] == i;
      }
    }
  }

  function LeafAt(data: seq<bytes>, i: nat): Leaf
    requires i < |data| <= U64_MAX
  {
    Leaf(Key(i), data[i])
  }

  /** The leaves in the order of their keys. */
  function OrderedLeaves(data: seq<bytes>): (ls: seq<Leaf>)
    requires |data| <= U64_MAX
    ensures |ls| == |data|
  {
    OrderIsPermutation(|data|);
    seq(|data|, k requires 0 <= k < |data| => LeafAt(data, Order(|data|)[k]))
  }

  /** The keys are strictly increasing, and none is a prefix of another. */
  lemma OrderedLeavesIncrease(data: seq<bytes>, j: nat, k: nat)
    requires |data| <= U64_MAX && j < k < |data|
    ensures var ls := OrderedLeaves(data);
            Lt(ls[j].key, ls[k].key) && !(ls[j].key <= ls[k].key) && !(ls[k].key <= ls[j].key)
  {
    OrderIsPermutation(|data|);
    var a, b := Order(|data|)[j], Order(|data|)[k];
    KeyOrder(a, b);
    if Key(a) <= Key(b) { KeysPrefixFree(a, b); }
    if Key(b) <= Key(a) { KeysPrefixFree(b, a); }
  }

  /** Sorting is determined by the elements. */
  lemma {:induction false} SortedUnique(a: seq<Leaf>, b: seq<Leaf>)
    requires SortedLeaves(a) && SortedLeaves(b) && multiset(a) == multiset(b)
    ensures a == b
  {
    assert |b| == |multiset(b)| == |multiset(a)| == |a|;
    if a != [] {
      assert a[0] in multiset(b) && b[0] in multiset(a) by {
        assert a[0] in multiset(a) && b[0] in multiset(b);
      }
      FirstIsLeast(a, b[0]);
      FirstIsLeast(b, a[0]);
      LeafAntisymmetric(a[0], b[0]);
      WithoutFirst(a);
      WithoutFirst(b);
      SortedUnique(a[1..], b[1..]);
    }
  }

  lemma FirstIsLeast(s: seq<Leaf>, x: Leaf)
    requires SortedLeaves(s) && x in s
    ensures LeafLe(s[0], x)
  {
    var k :| 0 <= k < |s| && s[k] == x;
    assert k > 0 ==> LeafLe(s[0], s[k]);
  }

  lemma WithoutFirst(s: seq<Leaf>)
    requires s != []
    ensures s == [s[0]] + s[1..] && multiset(s[1..]) == multiset(s) - multiset{s[0]}
  {
    assert s == [s[0]] + s[1..];
  }

  lemma LeafAntisymmetric(a: Leaf, b: Leaf)
    requires LeafLe(a, b) && LeafLe(b, a)
    ensures a == b
  {
    LtIrreflexive(a.key);
    LtIrreflexive(a.payload);
    if LeafLt(a, b) && LeafLt(b, a) {
      if Lt(a.key, b.key) && Lt(b.key, a.key) { LtTransitive(a.key, b.key, a.key); }
      if Lt(a.payload, b.payload) && Lt(b.payload, a.payload) { LtTransitive(a.payload, b.payload, a.payload); }
    }
  }

  /** `HashBuilder`: it demands that keys increase. */
  class HashBuilder {
    ghost var fed: seq<Leaf>

    constructor ()
      ensures fed == []
    {
      fed := [];
    }

    method AddLeaf(leaf: Leaf)
      requires fed != [] ==> Lt(fed[|fed| - 1].key, leaf.key)
      modifies this
      ensures fed == old(fed) + [leaf]
    {
      fed := fed + [leaf];
    }
  }

  function PlainLeaves(data: seq<bytes>, n: nat): (ls: seq<Leaf>)
    requires n <= |data| <= U64_MAX
    ensures |ls| == n && forall i | 0 <= i < n :: ls[i] == LeafAt(data, i)
  {
    if n == 0 then [] else PlainLeaves(data, n - 1) + [LeafAt(data, n - 1)]
  }

  /** The payloads by index, and in the order of the keys, are the same leaves. */
  lemma {:induction false} SameLeaves(data: seq<bytes>)
    requires |data| <= U64_MAX
    ensures multiset(PlainLeaves(data, |data|)) == multiset(OrderedLeaves(data))
  {
    var n, plain := |data|, PlainLeaves(data, |data|);
    if n == 0 {
      assert plain == OrderedLeaves(data);
    } else {
      var small := if n <= 128 then n else 128;
      Rotated(data, small);
      SameElements(plain, small);
    }
  }

  lemma SameElements(s: seq<Leaf>, k: nat)
    requires 0 < k <= |s|
    ensures multiset(s) == multiset(s[1..k] + [s[0]] + s[k..])
  {
    assert s == [s[0]] + s[1..k] + s[k..];
  }

  lemma {:induction false} OrderedLeavesSorted(data: seq<bytes>)
    requires |data| <= U64_MAX
    ensures SortedLeaves(OrderedLeaves(data))
  {
    var ordered := OrderedLeaves(data);
    forall j, k | 0 <= j < k < |data|
      ensures LeafLe(ordered[j], ordered[k])
    {
      OrderedLeavesIncrease(data, j, k);
    }
  }

  lemma {:induction false} Rotated(data: seq<bytes>, small: nat)
    requires 0 < |data| <= U64_MAX && small == if |data| <= 128 then |data| else 128
    ensures var plain := PlainLeaves(data, |data|);
            OrderedLeaves(data) == plain[1..small] + [plain[0]] + plain[small..]
  {
    var plain, ordered := PlainLeaves(data, |data|), OrderedLeaves(data);
    var other := plain[1..small] + [plain[0]] + plain[small..];
    forall k | 0 <= k < |data|
      ensures ordered[k] == other[k]
    {
      assert Order(|data|)[k] == if k < small - 1 then k + 1 else if k == small - 1 then 0 else k;
    }
  }

  method CollectLeaves(data: seq<bytes>) returns (leaves: seq<Leaf>)
    requires |data| <= U64_MAX
    ensures leaves == PlainLeaves(data, |data|)
  {
    leaves := [];
    for i := 0 to |data|
      invariant leaves == PlainLeaves(data, i)
    {
      leaves := leaves + [Leaf(Unpack(EncodeKey(i)), data[i])];
    }
  }

  /** `compute_root_hash`, up to the hash of the finished trie: the builder gets each payload once, under
    * the key of its index, in the order of the keys. */
  method ComputeRootHash(data: seq<bytes>, trie: HashBuilder)
    requires |data| <= U64_MAX && trie.fed == []
    modifies trie
    ensures trie.fed == OrderedLeaves(data)
  {
    var leaves := CollectLeaves(data);
    leaves := Sort(leaves);
    SameLeaves(data);
    OrderedLeavesSorted(data);
    SortedUnique(leaves, OrderedLeaves(data));
    Feed(leaves, data, trie);
  }

  method Feed(leaves: seq<Leaf>, ghost data: seq<bytes>, trie: HashBuilder)
    requires |data| <= U64_MAX && leaves == OrderedLeaves(data) && trie.fed == []
    modifies trie
    ensures trie.fed == leaves
  {
    for i := 0 to |leaves|
      invariant trie.fed == leaves[..i]
    {
      NextKey(data, i);
      trie.AddLeaf(leaves[i]);
      assert leaves[..i + 1] == leaves[..i] + [leaves[i]];
    }
    assert leaves[..|leaves|] == leaves;
  }

  lemma {:induction false} NextKey(data: seq<bytes>, i: nat)
    requires |data| <= U64_MAX && i < |data|
    ensures i > 0 ==> Lt(OrderedLeaves(data)[..i][i - 1].key, OrderedLeaves(data)[i].key)
  {
    if i > 0 { OrderedLeavesIncrease(data, i - 1, i); }
  }
}
