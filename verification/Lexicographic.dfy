/**
 * Byte order, prefix ranges and fixed-width integers: what makes an ordered key-value tree
 * answer "every key under this prefix" and "every version from here on" with one range scan.
 */
module Lexicographic {
  import opened Base

  /** Byte-wise lexicographic order, the order of the storage tree. */
  predicate Less(a: Bytes, b: Bytes) {
    b != [] && (a == [] || a[0] < b[0] || (a[0] == b[0] && Less(a[1..], b[1..])))
  }

  predicate AtMost(a: Bytes, b: Bytes) {
    !Less(b, a)
  }

  // ---------------------------------------------------------------- order laws

  lemma {:induction false} LessIrreflexive(a: Bytes)
    ensures !Less(a, a)
  {
    if a != [] { LessIrreflexive(a[1..]); }
  }

  lemma {:induction false} LessTransitive(a: Bytes, b: Bytes, c: Bytes)
    requires Less(a, b) && Less(b, c)
    ensures Less(a, c)
  {
    if a != [] && a[0] == b[0] == c[0] { LessTransitive(a[1..], b[1..], c[1..]); }
  }

  lemma {:induction false} LessTotal(a: Bytes, b: Bytes)
    ensures Less(a, b) || a == b || Less(b, a)
  {
    if a != [] && b != [] && a[0] == b[0] {
      LessTotal(a[1..], b[1..]);
      assert a == [a[0]] + a[1..] && b == [b[0]] + b[1..];
    }
  }

  lemma LessAsymmetric(a: Bytes, b: Bytes)
    requires Less(a, b)
    ensures !Less(b, a) && a != b
  {
    LessIrreflexive(a);
    if Less(b, a) { LessTransitive(a, b, a); }
  }

  lemma LessAtMost(a: Bytes, b: Bytes, c: Bytes)
    requires Less(a, b) && AtMost(b, c)
    ensures Less(a, c)
  {
    LessTotal(b, c);
    if b != c { LessTransitive(a, b, c); }
  }

  /** A shared prefix does not matter. */
  lemma {:induction false} LessCancel(p: Bytes, a: Bytes, b: Bytes)
    ensures Less(p + a, p + b) <==> Less(a, b)
  {
    if p == [] {
      assert p + a == a && p + b == b;
    } else {
      assert (p + a)[1..] == p[1..] + a && (p + b)[1..] == p[1..] + b;
      LessCancel(p[1..], a, b);
    }
  }

  /** With equally long heads the last bytes only break ties. */
  lemma {:induction false} LessSnoc(a: Bytes, x: byte, b: Bytes, y: byte)
    requires |a| == |b|
    ensures Less(a + [x], b + [y]) <==> Less(a, b) || (a == b && x < y)
  {
    if a == [] {
      assert a + [x] == [x] && b + [y] == [y];
    } else {
      assert (a + [x])[1..] == a[1..] + [x] && (b + [y])[1..] == b[1..] + [y];
      LessSnoc(a[1..], x, b[1..], y);
      assert a == [a[0]] + a[1..] && b == [b[0]] + b[1..];
    }
  }

  /** Strings that differ in an equally long head are ordered by that head. */
  lemma {:induction false} LessHeads(a: Bytes, x: Bytes, b: Bytes, y: Bytes)
    requires |a| == |b| && a != b
    ensures Less(a + x, b + y) <==> Less(a, b)
  {
    assert (a + x)[1..] == a[1..] + x && (b + y)[1..] == b[1..] + y;
    if a[0] == b[0] {
      assert a == [a[0]] + a[1..] && b == [b[0]] + b[1..];
      LessHeads(a[1..], x, b[1..], y);
    }
  }

  // ---------------------------------------------------------------- prefix ranges

  /** The least string above every string with this prefix; none when the prefix is all 0xFF. */
  function SuccessorOf(prefix: Bytes): Option<Bytes> {
    if prefix == [] then None
    else
      var tail := SuccessorOf(prefix[1..]);
      if tail.Some? then Some([prefix[0]] + tail.value)
      else if prefix[0] < 255 then Some([prefix[0] + 1])
      else None
  }

  ghost predicate InRange(low: Bytes, high: Option<Bytes>, k: Bytes) {
    AtMost(low, k) && (high.Some? ==> Less(k, high.value))
  }

  /** A prefix whose first byte is not the last one has a successor. */
  lemma {:induction false} HasSuccessor(b: byte, rest: Bytes)
    requires b != 0xFF
    ensures SuccessorOf([b] + rest).Some?
    decreases |rest|
  {
    if rest != [] {
      var front, last := rest[..|rest| - 1], rest[|rest| - 1];
      HasSuccessor(b, front);
      assert ([b] + rest)[..|rest|] == [b] + front;
    }
  }

  /** A key starts with a prefix exactly when it lies between the prefix and its successor. */
  lemma {:induction false} PrefixIsRange(prefix: Bytes, k: Bytes)
    ensures prefix <= k <==> InRange(prefix, SuccessorOf(prefix), k)
  {
    if prefix != [] && k != [] {
      PrefixIsRange(prefix[1..], k[1..]);
      assert prefix == [prefix[0]] + prefix[1..] && k == [k[0]] + k[1..];
      assert prefix <= k <==> prefix[0] == k[0] && prefix[1..] <= k[1..];
      var tail := SuccessorOf(prefix[1..]);
      if tail.Some? {
        assert SuccessorOf(prefix).value[1..] == tail.value;
      } else if prefix[0] < 255 {
        assert SuccessorOf(prefix).value[1..] == [] && !Less(k[1..], []);
      }
    }
  }

  lemma {:induction false} SuccessorOfSplit(head: Bytes, b: byte, ones: Bytes)
    requires b < 255 && forall i :: 0 <= i < |ones| ==> ones[i] == 255
    ensures SuccessorOf(head + [b] + ones) == Some(head + [b + 1])
    decreases |head|
  {
    var p := head + [b] + ones;
    if head == [] {
      assert p[1..] == ones && head + [b + 1] == [b + 1];
      AllOnesHasNoSuccessor(ones);
    } else {
      assert p[1..] == head[1..] + [b] + ones;
      SuccessorOfSplit(head[1..], b, ones);
      assert [head[0]] + (head[1..] + [b + 1]) == head + [b + 1];
    }
  }

  lemma {:induction false} AllOnesHasNoSuccessor(ones: Bytes)
    requires forall i :: 0 <= i < |ones| ==> ones[i] == 255
    ensures SuccessorOf(ones) == None
  {
    if ones != [] { AllOnesHasNoSuccessor(ones[1..]); }
  }

  /** The scan from the last byte backwards finds that successor. */
  method Successor(prefix: Bytes) returns (r: Option<Bytes>)
    ensures r == SuccessorOf(prefix)
    ensures forall k: Bytes :: prefix <= k <==> InRange(prefix, r, k)
  {
    forall k: Bytes ensures prefix <= k <==> InRange(prefix, SuccessorOf(prefix), k) { PrefixIsRange(prefix, k); }
    var i := |prefix|;
    while i > 0
      invariant 0 <= i <= |prefix|
      invariant forall j :: i <= j < |prefix| ==> prefix[j] == 255
    {
      i := i - 1;
      if prefix[i] != 255 {
        assert prefix == prefix[..i] + [prefix[i]] + prefix[i + 1..];
        SuccessorOfSplit(prefix[..i], prefix[i], prefix[i + 1..]);
        return Some(prefix[..i] + [prefix[i] + 1]);
      }
    }
    AllOnesHasNoSuccessor(prefix);
    return None;
  }

  /** Appending a zero byte gives the exclusive bound that keeps `k` itself and skips nothing above it. */
  function UpperIncluding(k: Bytes): Bytes {
    k + [0]
  }

  lemma {:induction false} UpperIncludingIsNext(k: Bytes, x: Bytes)
    ensures AtMost(UpperIncluding(k), x) <==> Less(k, x)
  {
    if k == [] {
      assert UpperIncluding(k) == [0] && UpperIncluding(k)[1..] == [];
      if x != [] { assert !Less(x[1..], []); }
    } else if x != [] {
      assert UpperIncluding(k)[1..] == UpperIncluding(k[1..]);
      UpperIncludingIsNext(k[1..], x[1..]);
    }
  }

  // ---------------------------------------------------------------- big-endian integers

  function Pow256(width: nat): (r: nat)
    ensures r > 0
  {
    if width == 0 then 1 else 256 * Pow256(width - 1)
  }

  /** `to_be_bytes` at a given width. */
  function BE(n: nat, width: nat): (r: Bytes)
    ensures |r| == width
  {
    if width == 0 then [] else BE(n / 256, width - 1) + [n % 256]
  }

  /** `from_be_bytes`. */
  function FromBE(b: Bytes): nat {
    if b == [] then 0 else 256 * FromBE(b[..|b| - 1]) + b[|b| - 1]
  }

  lemma {:induction false} BERoundTrip(n: nat, width: nat)
    requires n < Pow256(width)
    ensures FromBE(BE(n, width)) == n
  {
    if width > 0 {
      BERoundTrip(n / 256, width - 1);
      var b := BE(n, width);
      assert b[..|b| - 1] == BE(n / 256, width - 1);
    }
  }

  /** Big-endian bytes sort as the numbers do. */
  lemma {:induction false} BEOrdered(m: nat, n: nat, width: nat)
    requires m < Pow256(width) && n < Pow256(width)
    ensures Less(BE(m, width), BE(n, width)) <==> m < n
  {
    if width > 0 {
      BEOrdered(m / 256, n / 256, width - 1);
      LessSnoc(BE(m / 256, width - 1), m % 256, BE(n / 256, width - 1), n % 256);
      if BE(m / 256, width - 1) == BE(n / 256, width - 1) {
        BEInjective(m / 256, n / 256, width - 1);
      }
    }
  }

  lemma BEInjective(m: nat, n: nat, width: nat)
    requires m < Pow256(width) && n < Pow256(width) && BE(m, width) == BE(n, width)
    ensures m == n
  {
    BERoundTrip(m, width);
    BERoundTrip(n, width);
  }

  lemma Pow256Widths()
    ensures Pow256(2) == U16_MAX + 1
    ensures Pow256(8) == U64_MAX + 1
    ensures Pow256(16) == (U64_MAX + 1) * (U64_MAX + 1)
  {
    assert Pow256(4) == 0x1_0000_0000;
    assert Pow256(6) == 0x1_0000_0000_0000;
    assert Pow256(8) == 0x1_0000_0000_0000_0000;
    assert Pow256(10) == 0x1_0000_0000_0000_0000_0000;
    assert Pow256(12) == 0x1_0000_0000_0000_0000_0000_0000;
    assert Pow256(14) == 0x1_0000_0000_0000_0000_0000_0000_0000;
  }

  // ---------------------------------------------------------------- length prefixes

  /** A `u64` big-endian length followed by the bytes. */
  function LenPrefixed(b: Bytes): Bytes {
    BE(|b|, 8) + b
  }

  /** Length prefixes make concatenation uniquely readable. */
  lemma LenPrefixedInjective(a: Bytes, x: Bytes, b: Bytes, y: Bytes)
    requires |a| <= U64_MAX && |b| <= U64_MAX
    requires LenPrefixed(a) + x == LenPrefixed(b) + y
    ensures a == b && x == y
  {
    var l, r := LenPrefixed(a) + x, LenPrefixed(b) + y;
    assert l[..8] == BE(|a|, 8) && r[..8] == BE(|b|, 8);
    Pow256Widths();
    BEInjective(|a|, |b|, 8);
    assert l[8..8 + |a|] == a && r[8..8 + |b|] == b;
    assert l[8 + |a|..] == x && r[8 + |b|..] == y;
  }

  lemma AfterPrefix(prefix: Bytes, k: Bytes)
    requires prefix <= k
    ensures k == prefix + k[|prefix|..]
  {
  }

  lemma AppendInjective(a: Bytes, x: Bytes, b: Bytes, y: Bytes)
    requires |a| == |b| && a + x == b + y
    ensures a == b && x == y
  {
    assert (a + x)[..|a|] == a && (b + y)[..|b|] == b;
    assert (a + x)[|a|..] == x && (b + y)[|b|..] == y;
  }
}
