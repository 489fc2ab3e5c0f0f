/** Ranges of block numbers, as kept in the block database (blockservice/src/utils/ranges.rs). */
module Ranges {
  import opened Bytes

  /** Block numbers below the top of u64, since the code computes the successor of range ends. */
  type BlockNo = n: int | 0 <= n < U64_MAX

  /** `RangeInclusive<u64>`; it is empty if the start exceeds the end. */
  datatype Range = Range(start: BlockNo, end: BlockNo)

  predicate Holds(r: Range, n: int) { r.start <= n <= r.end }

  function Numbers(r: Range): set<BlockNo> {
    set n: BlockNo | r.start <= n <= r.end && Holds(r, n)
  }

  /** The block numbers in any of the ranges. */
  function Cover(rs: seq<Range>): set<BlockNo> {
    set r: Range, n: BlockNo | r in rs && r.start <= n <= r.end && Holds(r, n) :: n
  }

  /** Non-empty, ascending, neither overlapping nor adjacent. */
  predicate Canonical(rs: seq<Range>) {
    && (forall i | 0 <= i < |rs| :: rs[i].start <= rs[i].end)
    && (forall i, j | 0 <= i < j < |rs| :: rs[i].end + 1 < rs[j].start)
  }

  // --- Covers ---

  lemma CoverConcat(a: seq<Range>, b: seq<Range>)
    ensures Cover(a + b) == Cover(a) + Cover(b)
  {
    forall n | n in Cover(a) + Cover(b)
      ensures n in Cover(a + b)
    {
      var r :| (r in a || r in b) && Holds(r, n);
      assert r in a + b;
    }
  }

  lemma CoverOne(r: Range)
    ensures Cover([r]) == Numbers(r)
  {
    assert r in [r];
  }

  /** The cover around position i. */
  lemma CoverAt(rs: seq<Range>, i: nat)
    requires i < |rs|
    ensures Cover(rs) == Cover(rs[..i]) + Numbers(rs[i]) + Cover(rs[i + 1..])
  {
    assert rs == rs[..i] + [rs[i]] + rs[i + 1..];
    CoverConcat(rs[..i] + [rs[i]], rs[i + 1..]);
    CoverConcat(rs[..i], [rs[i]]);
    CoverOne(rs[i]);
  }

  lemma CoverSameElements(a: seq<Range>, b: seq<Range>)
    requires forall r :: r in a <==> r in b
    ensures Cover(a) == Cover(b)
  {
  }

  // --- The normal form of a set of block numbers exists and is unique ---

  lemma FirstRange(a: seq<Range>)
    requires Canonical(a) && a != []
    ensures a[0].start in Cover(a) && (forall n | n in Cover(a) :: a[0].start <= n)
    ensures forall n: BlockNo | a[0].start <= n <= a[0].end :: n in Cover(a)
    ensures a[0].end + 1 !in Cover(a)
    ensures Canonical(a[1..]) && Cover(a[1..]) == Cover(a) - Numbers(a[0])
  {
    assert a[0] in a;
    CoverAt(a, 0);
    forall n | n in Cover(a[1..])
      ensures a[0].end + 1 < n
    {
      var r :| r in a[1..] && Holds(r, n);
    }
    assert Cover(a[..0]) == {};
  }

  lemma {:induction false} NormalFormUnique(a: seq<Range>, b: seq<Range>)
    requires Canonical(a) && Canonical(b) && Cover(a) == Cover(b)
    ensures a == b
  {
    if a != [] { FirstRange(a); }
    if b != [] { FirstRange(b); }
    if a != [] && b != [] {
      assert a[0] == b[0];
      NormalFormUnique(a[1..], b[1..]);
      assert a == [a[0]] + a[1..] && b == [b[0]] + b[1..];
    }
  }

  lemma {:induction false} MaxExists(s: set<BlockNo>)
    requires s != {}
    ensures exists m :: IsMax(s, m)
  {
    var x :| x in s;
    if s == {x} {
      assert IsMax(s, x);
    } else {
      MaxExists(s - {x});
      var m :| IsMax(s - {x}, m);
      assert forall n | n in s :: n == x || n in s - {x};
      assert IsMax(s, if m < x then x else m);
    }
  }

  predicate IsMax(s: set<BlockNo>, m: BlockNo) {
    m in s && forall n | n in s :: n <= m
  }

  /** Adds a number above all others. */
  function Append(rs: seq<Range>, m: BlockNo): seq<Range> {
    if rs != [] && rs[|rs| - 1].end + 1 == m then
      rs[..|rs| - 1] + [Range(rs[|rs| - 1].start, m)]
    else
      rs + [Range(m, m)]
  }

  lemma EndInCover(rs: seq<Range>, i: nat)
    requires i < |rs| && rs[i].start <= rs[i].end
    ensures rs[i].end in Cover(rs)
  {
    var r := rs[i];
    assert r in rs && Holds(r, r.end);
  }

  lemma AppendMax(rs: seq<Range>, m: BlockNo)
    requires Canonical(rs) && forall n | n in Cover(rs) :: n < m
    ensures Canonical(Append(rs, m)) && Cover(Append(rs, m)) == Cover(rs) + {m}
  {
    forall i | 0 <= i < |rs|
      ensures rs[i].end < m
    {
      EndInCover(rs, i);
    }
    AppendMaxCover(rs, m);
  }

  lemma AppendMaxCover(rs: seq<Range>, m: BlockNo)
    requires Canonical(rs)
    ensures Cover(Append(rs, m)) == Cover(rs) + {m}
  {
    if rs != [] && rs[|rs| - 1].end + 1 == m {
      var init, last := rs[..|rs| - 1], rs[|rs| - 1];
      CoverAt(rs, |rs| - 1);
      CoverConcat(init, [Range(last.start, m)]);
      CoverOne(Range(last.start, m));
      assert forall n: BlockNo :: Holds(Range(last.start, m), n) <==> Holds(last, n) || n == m;
    } else {
      CoverConcat(rs, [Range(m, m)]);
      CoverOne(Range(m, m));
      assert forall n: BlockNo :: Holds(Range(m, m), n) <==> n == m;
    }
  }

  /** The canonical ranges covering exactly the given block numbers. */
  ghost function NormalForm(s: set<BlockNo>): (rs: seq<Range>)
    ensures Canonical(rs) && Cover(rs) == s
    decreases |s|
  {
    if s == {} then []
    else
      MaxExists(s);
      var m :| IsMax(s, m);
      var rest := NormalForm(s - {m});
      AppendMax(rest, m);
      Append(rest, m)
  }

  lemma CanonicalIsNormalForm(rs: seq<Range>)
    requires Canonical(rs)
    ensures rs == NormalForm(Cover(rs))
  {
    NormalFormUnique(rs, NormalForm(Cover(rs)));
  }

  // --- Sorting by (start, end), as `sort_by_key` of the standard library does ---

  predicate KeyLe(a: Range, b: Range) {
    a.start < b.start || (a.start == b.start && a.end <= b.end)
  }

  predicate Sorted(rs: seq<Range>) {
    forall i, j | 0 <= i < j < |rs| :: KeyLe(rs[i], rs[j])
  }

  function InsertByKey(r: Range, rs: seq<Range>): (out: seq<Range>)
    requires Sorted(rs)
    ensures Sorted(out) && multiset(out) == multiset(rs) + multiset{r}
    ensures forall x :: x in out <==> x == r || x in rs
  {
    if rs == [] || KeyLe(r, rs[0]) then [r] + rs
    else
      assert rs == [rs[0]] + rs[1..];
      var rest := InsertByKey(r, rs[1..]);
      assert forall x | x in rest :: KeyLe(rs[0], x);
      [rs[0]] + rest
  }

  function SortByKey(rs: seq<Range>): (out: seq<Range>)
    ensures Sorted(out) && multiset(out) == multiset(rs)
    ensures forall x :: x in out <==> x in rs
  {
    if rs == [] then []
    else
      assert rs == [rs[0]] + rs[1..];
      InsertByKey(rs[0], SortByKey(rs[1..]))
  }

  // --- canonicalize ---

  /** The first i ranges are done: canonical, and with a gap to all later ones. */
  ghost predicate PartlyCanonical(rs: seq<Range>, i: int, cover: set<BlockNo>) {
    && 0 <= i <= |rs|
    && Canonical(rs[..i])
    && (forall a, b | i <= a < b < |rs| :: rs[a].start <= rs[b].start)
    && (forall a, b | 0 <= a < i <= b < |rs| :: rs[a].end + 1 < rs[b].start)
    && Cover(rs) == cover
  }

  function RemoveAt(rs: seq<Range>, i: nat): seq<Range>
    requires i < |rs|
  {
    rs[..i] + rs[i + 1..]
  }

  lemma RemoveEmpty(rs: seq<Range>, i: nat, cover: set<BlockNo>)
    requires i < |rs| && PartlyCanonical(rs, i, cover) && rs[i].start > rs[i].end
    ensures PartlyCanonical(RemoveAt(rs, i), i, cover)
  {
    CoverAt(rs, i);
    CoverConcat(rs[..i], rs[i + 1..]);
    assert RemoveAt(rs, i)[..i] == rs[..i];
  }

  lemma Advance(rs: seq<Range>, i: nat, cover: set<BlockNo>)
    requires i < |rs| && PartlyCanonical(rs, i, cover) && rs[i].start <= rs[i].end
    requires i + 1 < |rs| ==> rs[i].end + 1 < rs[i + 1].start
    ensures PartlyCanonical(rs, i + 1, cover)
  {
  }

  /** The union of a non-empty range with one that starts in it or right behind it. */
  function Merged(r: Range, next: Range): Range {
    Range(r.start, if r.end < next.end then next.end else r.end)
  }

  lemma MergeCover(r: Range, next: Range)
    requires r.start <= r.end && r.start <= next.start <= r.end + 1
    ensures Numbers(Merged(r, next)) == Numbers(r) + Numbers(next)
  {
    assert forall n: BlockNo :: Holds(Merged(r, next), n) <==> Holds(r, n) || Holds(next, n);
  }

  /** Replaces the ranges at i and i + 1 by their union. */
  function MergeAt(rs: seq<Range>, i: nat): seq<Range>
    requires i + 1 < |rs|
  {
    RemoveAt(rs[i := Merged(rs[i], rs[i + 1])], i + 1)
  }

  lemma MergeAtCover(rs: seq<Range>, i: nat)
    requires i + 1 < |rs| && rs[i].start <= rs[i].end && rs[i].start <= rs[i + 1].start <= rs[i].end + 1
    ensures Cover(MergeAt(rs, i)) == Cover(rs)
  {
    var out, a, b := MergeAt(rs, i), rs[..i], rs[i + 2..];
    var r, next := rs[i], rs[i + 1];
    assert rs == a + ([r] + [next]) + b;
    assert out == a + [Merged(r, next)] + b;
    MergeCover(r, next);
    CoverOne(r);
    CoverOne(next);
    CoverOne(Merged(r, next));
    CoverConcat([r], [next]);
    CoverConcat(a, [r] + [next]);
    CoverConcat(a, [Merged(r, next)]);
    CoverConcat(a + ([r] + [next]), b);
    CoverConcat(a + [Merged(r, next)], b);
  }

  lemma MergeNext(rs: seq<Range>, i: nat, cover: set<BlockNo>)
    requires i + 1 < |rs| && PartlyCanonical(rs, i, cover)
    requires rs[i].start <= rs[i].end && rs[i].end + 1 >= rs[i + 1].start
    ensures PartlyCanonical(MergeAt(rs, i), i, cover)
  {
    MergeAtCover(rs, i);
    var out := MergeAt(rs, i);
    assert out[..i] == rs[..i] && out[i].start == rs[i].start;
    assert forall b | i < b < |out| :: out[b] == rs[b + 1];
  }

  /** `canonicalize`: whatever the given ranges are (empty, unsorted, overlapping), the result is the
    * normal form of the block numbers they cover. */
  method Canonicalize(ranges: seq<Range>) returns (self: seq<Range>)
    ensures self == NormalForm(Cover(ranges))
  {
    self := SortByKey(ranges);
    CoverSameElements(self, ranges);
    var i := 0;
    while i < |self|
      invariant PartlyCanonical(self, i, Cover(ranges))
      decreases |self| - i
    {
      var range := self[i];
      if range.start > range.end {
        RemoveEmpty(self, i, Cover(ranges));
        self := RemoveAt(self, i);
      } else if i + 1 < |self| && range.end + 1 >= self[i + 1].start {
        MergeNext(self, i, Cover(ranges));
        self := self[i := Merged(range, self[i + 1])];
        self := RemoveAt(self, i + 1);
      } else {
        Advance(self, i, Cover(ranges));
        i := i + 1;
      }
    }
    assert self[..i] == self;
    CanonicalIsNormalForm(self);
  }

  /** `add_range`. */
  method AddRange(ranges: seq<Range>, range: Range) returns (self: seq<Range>)
    ensures self == NormalForm(Cover(ranges) + Numbers(range))
  {
    CoverConcat(ranges, [range]);
    CoverOne(range);
    self := Canonicalize(ranges + [range]);
  }

  // --- subtract_range ---

  /** What a deletion leaves of a single non-empty range. */
  function Remainder(r: Range, del: Range): seq<Range>
    requires r.start <= r.end
  {
    if del.end < r.start || del.start > r.end then [r]
    else if del.start <= r.start && del.end >= r.end then []
    else if del.start > r.start && del.end >= r.end then [Range(r.start, del.start - 1)]
    else if del.start <= r.start then [Range(del.end + 1, r.end)]
    else [Range(r.start, del.start - 1), Range(del.end + 1, r.end)]
  }

  /** A reversed (empty) deletion range inside r, which is then split without being deleted from. */
  predicate Tears(del: Range, r: Range) {
    r.start <= del.end < del.start <= r.end
  }

  lemma RemainderCover(r: Range, del: Range)
    requires r.start <= r.end
    ensures Cover(Remainder(r, del)) == Numbers(r) - Numbers(del)
  {
    var rest := Remainder(r, del);
    if |rest| == 1 {
      CoverOne(rest[0]);
      assert forall n: BlockNo :: Holds(rest[0], n) <==> Holds(r, n) && !Holds(del, n);
    } else if |rest| == 2 {
      CoverConcat([rest[0]], [rest[1]]);
      CoverOne(rest[0]);
      CoverOne(rest[1]);
      assert forall n: BlockNo :: Holds(rest[0], n) || Holds(rest[1], n) <==> Holds(r, n) && !Holds(del, n);
    } else {
      assert forall n: BlockNo :: Holds(r, n) ==> Holds(del, n);
    }
  }

  lemma RemainderCanonical(r: Range, del: Range)
    requires r.start <= r.end
    ensures Canonical(Remainder(r, del)) <==> !Tears(del, r)
  {
    var rest := Remainder(r, del);
    if |rest| == 2 {
      assert Canonical(rest) <==> rest[0].end + 1 < rest[1].start;
    }
  }

  /** What a deletion leaves of several ranges. */
  function Subtracted(rs: seq<Range>, del: Range): seq<Range>
    requires forall i | 0 <= i < |rs| :: rs[i].start <= rs[i].end
  {
    if rs == [] then [] else Subtracted(rs[..|rs| - 1], del) + Remainder(rs[|rs| - 1], del)
  }

  lemma {:induction false} SubtractedCover(rs: seq<Range>, del: Range)
    requires forall i | 0 <= i < |rs| :: rs[i].start <= rs[i].end
    ensures Cover(Subtracted(rs, del)) == Cover(rs) - Numbers(del)
  {
    if rs != [] {
      var init, last := rs[..|rs| - 1], rs[|rs| - 1];
      SubtractedCover(init, del);
      RemainderCover(last, del);
      CoverConcat(Subtracted(init, del), Remainder(last, del));
      CoverAt(rs, |rs| - 1);
    }
  }

  lemma {:induction false} SubtractedWithin(rs: seq<Range>, del: Range)
    requires Canonical(rs)
    ensures forall x | x in Subtracted(rs, del) :: x.start <= x.end && x.end <= rs[|rs| - 1].end
  {
    if rs != [] {
      SubtractedWithin(rs[..|rs| - 1], del);
    }
  }

  /** The remaining ranges are canonical unless a reversed deletion range tears one of them. */
  lemma {:induction false} SubtractedCanonical(rs: seq<Range>, del: Range)
    requires Canonical(rs)
    ensures Canonical(Subtracted(rs, del)) <==> forall i | 0 <= i < |rs| :: !Tears(del, rs[i])
  {
    if rs != [] {
      var init, last := rs[..|rs| - 1], rs[|rs| - 1];
      SubtractedCanonical(init, del);
      SubtractedWithin(init, del);
      var a, b := Subtracted(init, del), Remainder(last, del);
      RemainderCanonical(last, del);
      InFront(rs, del);
      CanonicalConcat(a, b);
      assert (forall i | 0 <= i < |rs| :: !Tears(del, rs[i])) <==>
             (forall i | 0 <= i < |init| :: !Tears(del, init[i])) && !Tears(del, last);
    }
  }

  lemma {:induction false} InFront(rs: seq<Range>, del: Range)
    requires Canonical(rs) && rs != []
    requires forall x | x in Subtracted(rs[..|rs| - 1], del) ::
               x.start <= x.end && x.end <= rs[..|rs| - 1][|rs| - 2].end
    ensures var a, b := Subtracted(rs[..|rs| - 1], del), Remainder(rs[|rs| - 1], del);
            forall i, j | 0 <= i < |a| && 0 <= j < |b| :: a[i].end + 1 < b[j].start
  {
    var a, b := Subtracted(rs[..|rs| - 1], del), Remainder(rs[|rs| - 1], del);
    forall i, j | 0 <= i < |a| && 0 <= j < |b|
      ensures a[i].end + 1 < b[j].start
    {
      assert a[i] in a;
    }
  }

  lemma CanonicalConcat(a: seq<Range>, b: seq<Range>)
    requires forall i, j | 0 <= i < |a| && 0 <= j < |b| :: a[i].end + 1 < b[j].start
    ensures Canonical(a + b) <==> Canonical(a) && Canonical(b)
  {
    var c := a + b;
    assert forall i | 0 <= i < |b| :: c[|a| + i] == b[i];
    assert forall i | 0 <= i < |a| :: c[i] == a[i];
  }

  lemma SubtractedNext(rs: seq<Range>, k: nat, del: Range)
    requires k < |rs| && Canonical(rs)
    ensures Subtracted(rs[..k + 1], del) == Subtracted(rs[..k], del) + Remainder(rs[k], del)
  {
    assert rs[..k + 1][..k] == rs[..k];
  }

  /** Editing `done + rs[k..]` where the part not done yet begins. */
  lemma {:induction false} EditFront(done: seq<Range>, rs: seq<Range>, k: nat, edit: seq<Range>)
    requires k < |rs|
    ensures var self := done + rs[k..];
            && self[|done|] == rs[k]
            && self[..|done|] + edit + self[|done| + 1..] == done + edit + rs[k + 1..]
  {
    var self := done + rs[k..];
    assert self[..|done|] == done && self[|done| + 1..] == rs[k + 1..];
  }

  /** The match in the loop of `subtract_range`: deletes from the range at position i, and returns the
    * position of the next range to look at. */
  method DeleteAt(ranges: seq<Range>, i: nat, del: Range) returns (self: seq<Range>, next: nat)
    requires i < |ranges| && ranges[i].start <= ranges[i].end
    ensures self == ranges[..i] + Remainder(ranges[i], del) + ranges[i + 1..]
    ensures next == i + |Remainder(ranges[i], del)|
  {
    var start, end := ranges[i].start, ranges[i].end;
    if del.end < start || del.start > end {
      self, next := ranges, i + 1;
    } else if del.start <= start && del.end >= end {
      self, next := RemoveAt(ranges, i), i;
    } else if del.start > start && del.end >= end {
      self, next := ranges[i := Range(start, del.start - 1)], i + 1;
    } else if del.start <= start && del.end < end {
      self, next := ranges[i := Range(del.end + 1, end)], i + 1;
    } else {
      self := ranges[i := Range(start, del.start - 1)];
      self := self[..i + 1] + [Range(del.end + 1, end)] + self[i + 1..];
      next := i + 2;
    }
  }

  /** The first k ranges have been deleted from, and i is where the others begin. */
  predicate Editing(canon: seq<Range>, del: Range, k: nat, self: seq<Range>, i: nat)
    requires Canonical(canon)
  {
    && k <= |canon|
    && self == Subtracted(canon[..k], del) + canon[k..] && i == |Subtracted(canon[..k], del)|
  }

  lemma {:induction false} EditNext(canon: seq<Range>, del: Range, k: nat, self: seq<Range>, i: nat)
    requires Canonical(canon) && Editing(canon, del, k, self, i) && i < |self|
    ensures k < |canon| && self[i] == canon[k]
    ensures var rest := Remainder(self[i], del);
            Editing(canon, del, k + 1, self[..i] + rest + self[i + 1..], i + |rest|)
  {
    SubtractedNext(canon, k, del);
    EditFront(Subtracted(canon[..k], del), canon, k, Remainder(canon[k], del));
  }

  lemma {:induction false} EditStart(canon: seq<Range>, del: Range)
    requires Canonical(canon)
    ensures Editing(canon, del, 0, canon, 0)
  {
    assert canon[..0] == [] && canon[0..] == canon;
  }

  lemma {:induction false} EditDone(canon: seq<Range>, del: Range, k: nat, self: seq<Range>, i: nat)
    requires Canonical(canon) && Editing(canon, del, k, self, i) && i >= |self|
    ensures self == Subtracted(canon, del)
  {
    assert canon[..|canon|] == canon && k == |canon|;
  }

  /** The loop of `subtract_range`. */
  method SubtractFromCanonical(canon: seq<Range>, del: Range) returns (self: seq<Range>)
    requires Canonical(canon)
    ensures self == Subtracted(canon, del)
  {
    self := canon;
    var i: nat := 0;
    ghost var k: nat := 0;
    EditStart(canon, del);
    while i < |self|
      invariant Editing(canon, del, k, self, i)
      decreases |canon| - k
    {
      EditNext(canon, del, k, self, i);
      self, i := DeleteAt(self, i, del);
      k := k + 1;
    }
    EditDone(canon, del, k, self, i);
  }

  /** `subtract_range`: it deletes exactly the numbers of the given range, and the result is the
    * normal form unless the given range is reversed and lies within a stored one. */
  method SubtractRange(ranges: seq<Range>, del: Range) returns (self: seq<Range>)
    ensures Cover(self) == Cover(ranges) - Numbers(del)
    ensures Canonical(self) <==> forall r | r in NormalForm(Cover(ranges)) :: !Tears(del, r)
    ensures del.start <= del.end ==> self == NormalForm(Cover(ranges) - Numbers(del))
  {
    var canon := Canonicalize(ranges);
    self := SubtractFromCanonical(canon, del);
    SubtractionDone(canon, del);
  }

  lemma SubtractionDone(canon: seq<Range>, del: Range)
    requires Canonical(canon)
    ensures var self := Subtracted(canon, del);
            && Cover(self) == Cover(canon) - Numbers(del)
            && (Canonical(self) <==> forall r | r in canon :: !Tears(del, r))
            && (del.start <= del.end ==> self == NormalForm(Cover(self)))
  {
    SubtractedCover(canon, del);
    SubtractedCanonical(canon, del);
    if del.start <= del.end {
      CanonicalIsNormalForm(Subtracted(canon, del));
    }
  }

  /** A reversed range can be deleted so that the rest is no normal form: its two parts overlap. */
  lemma {:induction false} ReversedTears()
    ensures var rs, del := [Range(0, 10)], Range(7, 3);
            && Canonical(rs) && Tears(del, rs[0])
            && Subtracted(rs, del) == [Range(0, 6), Range(4, 10)] && !Canonical(Subtracted(rs, del))
  {
    var rs, del := [Range(0, 10)], Range(7, 3);
    assert Subtracted(rs[..0], del) == [];
    var left := Subtracted(rs, del);
    assert left == Remainder(rs[0], del);
    assert left[0].end > left[1].start;
  }

  /** `subtract_ranges`. */
  method SubtractRanges(minuend: Range, subtrahend: seq<Range>) returns (segments: seq<Range>)
    ensures Cover(segments) == Numbers(minuend) - Cover(subtrahend)
    ensures minuend.start <= minuend.end && (forall r | r in subtrahend :: r.start <= r.end) ==>
              segments == NormalForm(Numbers(minuend) - Cover(subtrahend))
  {
    segments := [minuend];
    CoverOne(minuend);
    var k := 0;
    while k < |subtrahend|
      invariant 0 <= k <= |subtrahend|
      invariant Cover(segments) == Numbers(minuend) - Cover(subtrahend[..k])
      invariant minuend.start <= minuend.end && (forall r | r in subtrahend :: r.start <= r.end) ==>
                  Canonical(segments)
    {
      assert subtrahend[..k + 1] == subtrahend[..k] + [subtrahend[k]];
      CoverConcat(subtrahend[..k], [subtrahend[k]]);
      CoverOne(subtrahend[k]);
      segments := SubtractRange(segments, subtrahend[k]);
      k := k + 1;
    }
    assert subtrahend[..k] == subtrahend;
    if Canonical(segments) {
      CanonicalIsNormalForm(segments);
    }
  }
}
