/** Byte strings: big-endian numbers and the byte order of the key-value store. */
module Bytes {
  type byte = x: int | 0 <= x < 256
  type bytes = seq<byte>

  const U64_MAX := 0xFFFF_FFFF_FFFF_FFFF
  type u64 = n: int | 0 <= n <= U64_MAX

  /** 256 to the power k. */
  function Pow256(k: nat): (p: nat)
    ensures p >= 1
  {
    if k == 0 then 1 else 256 * Pow256(k - 1)
  }

  /** The k-byte big-endian representation of n, most significant byte first. */
  function ToBE(n: nat, k: nat): (s: bytes)
    requires n < Pow256(k)
    ensures |s| == k
  {
    if k == 0 then [] else ToBE(n / 256, k - 1) + [n % 256]
  }

  /** The number denoted by a big-endian byte string. */
  function FromBE(s: bytes): nat {
    if s == [] then 0 else 256 * FromBE(s[..|s| - 1]) + s[|s| - 1]
  }

  lemma FromBESnoc(s: bytes, b: byte)
    ensures FromBE(s + [b]) == 256 * FromBE(s) + b
  {
    assert (s + [b])[..|s|] == s;
  }

  lemma {:induction false} FromToBE(n: nat, k: nat)
    requires n < Pow256(k)
    ensures FromBE(ToBE(n, k)) == n
  {
    if k > 0 {
      FromToBE(n / 256, k - 1);
      FromBESnoc(ToBE(n / 256, k - 1), n % 256);
    }
  }

  lemma {:induction false} ToFromBE(s: bytes)
    ensures FromBE(s) < Pow256(|s|) && ToBE(FromBE(s), |s|) == s
  {
    if s != [] {
      ToFromBE(s[..|s| - 1]);
      assert s == s[..|s| - 1] + [s[|s| - 1]];
    }
  }

  // --- Byte order ---

  /** Lexicographic order, a proper prefix being smaller. */
  predicate Lt(a: bytes, b: bytes) {
    if b == [] then false
    else if a == [] then true
    else a[0] < b[0] || (a[0] == b[0] && Lt(a[1..], b[1..]))
  }

  predicate Le(a: bytes, b: bytes) { a == b || Lt(a, b) }

  lemma {:induction false} LtTransitive(a: bytes, b: bytes, c: bytes)
    requires Lt(a, b) && Lt(b, c)
    ensures Lt(a, c)
  {
    if a != [] && a[0] == b[0] == c[0] {
      LtTransitive(a[1..], b[1..], c[1..]);
    }
  }

  lemma {:induction false} LtIrreflexive(a: bytes)
    ensures !Lt(a, a)
  {
    if a != [] {
      LtIrreflexive(a[1..]);
    }
  }

  lemma {:induction false} LtTotal(a: bytes, b: bytes)
    ensures Lt(a, b) || a == b || Lt(b, a)
  {
    if a != [] && b != [] && a[0] == b[0] {
      LtTotal(a[1..], b[1..]);
      assert a == [a[0]] + a[1..] && b == [b[0]] + b[1..];
    }
  }

  lemma {:induction false} LtCommonPrefix(p: bytes, a: bytes, b: bytes)
    ensures Lt(p + a, p + b) <==> Lt(a, b)
  {
    if p == [] {
      assert p + a == a && p + b == b;
    } else {
      assert (p + a)[1..] == p[1..] + a && (p + b)[1..] == p[1..] + b;
      LtCommonPrefix(p[1..], a, b);
    }
  }

  lemma {:induction false} LtFirstDiffers(a: bytes, b: bytes, x: bytes, y: bytes)
    requires |a| == |b| && a != b
    ensures Lt(a + x, b + y) <==> Lt(a, b)
  {
    if a[0] == b[0] {
      assert a == [a[0]] + a[1..] && b == [b[0]] + b[1..];
      assert (a + x)[1..] == a[1..] + x && (b + y)[1..] == b[1..] + y;
      LtFirstDiffers(a[1..], b[1..], x, y);
    }
  }

  /** Big-endian strings of one length are ordered like the numbers. */
  lemma {:induction false} ToBEOrder(m: nat, n: nat, k: nat)
    requires m < Pow256(k) && n < Pow256(k)
    ensures Lt(ToBE(m, k), ToBE(n, k)) <==> m < n
  {
    if k > 0 {
      var a, b := ToBE(m / 256, k - 1), ToBE(n / 256, k - 1);
      if m / 256 == n / 256 {
        LtCommonPrefix(a, [m % 256], [n % 256]);
      } else {
        ToBEOrder(m / 256, n / 256, k - 1);
        FromToBE(m / 256, k - 1);
        FromToBE(n / 256, k - 1);
        LtFirstDiffers(a, b, [m % 256], [n % 256]);
      }
    }
  }

  lemma Pow256Of8()
    ensures Pow256(8) == U64_MAX + 1
  {
    assert Pow256(2) == 0x1_0000;
    assert Pow256(4) == 0x1_0000_0000;
    assert Pow256(6) == 0x1_0000_0000_0000;
  }

  /** `u64::to_be_bytes`. */
  function U64BE(n: u64): (s: bytes)
    ensures |s| == 8
    ensures FromBE(s) == n
  {
    Pow256Of8();
    FromToBE(n, 8);
    ToBE(n, 8)
  }

  lemma U64BEOrder(m: u64, n: u64)
    ensures Lt(U64BE(m), U64BE(n)) <==> m < n
    ensures U64BE(m) == U64BE(n) <==> m == n
  {
    Pow256Of8();
    ToBEOrder(m, n, 8);
  }

  lemma U64BEInverse(s: bytes)
    requires |s| == 8
    ensures FromBE(s) <= U64_MAX && U64BE(FromBE(s)) == s
  {
    Pow256Of8();
    ToFromBE(s);
  }
}
