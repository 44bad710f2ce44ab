/** Walking a byte range of an ordered tree, forwards or backwards, up to a limit. */
module RangeScan {
  import opened Base
  import opened Lexicographic

  // ---------------------------------------------------------------- sorted key lists

  ghost predicate Rising(keys: seq<Bytes>) {
    forall i, j :: 0 <= i < j < |keys| ==> Less(keys[i], keys[j])
  }

  predicate IsLeast(k: Bytes, keys: set<Bytes>) {
    k in keys && forall j :: j in keys && j != k ==> Less(k, j)
  }

  predicate IsGreatest(k: Bytes, keys: set<Bytes>) {
    k in keys && forall j :: j in keys && j != k ==> Less(j, k)
  }

  lemma {:induction false} ExtremesExist(keys: set<Bytes>)
    requires keys != {}
    ensures (exists k :: IsLeast(k, keys)) && (exists k :: IsGreatest(k, keys))
    decreases keys
  {
    var x :| x in keys;
    if keys == {x} {
      assert IsLeast(x, keys) && IsGreatest(x, keys);
    } else {
      ExtremesExist(keys - {x});
      var low :| IsLeast(low, keys - {x});
      var high :| IsGreatest(high, keys - {x});
      LeastWith(keys, x, low);
      GreatestWith(keys, x, high);
    }
  }

  lemma LeastWith(keys: set<Bytes>, x: Bytes, low: Bytes)
    requires x in keys && IsLeast(low, keys - {x})
    ensures exists k :: IsLeast(k, keys)
  {
    hide Less;
    LessTotal(x, low);
    if Less(x, low) {
      forall j | j in keys && j != x ensures Less(x, j) {
        if j != low {
          LessTransitive(x, low, j);
        }
      }
      assert IsLeast(x, keys);
    } else {
      assert IsLeast(low, keys);
    }
  }

  lemma GreatestWith(keys: set<Bytes>, x: Bytes, high: Bytes)
    requires x in keys && IsGreatest(high, keys - {x})
    ensures exists k :: IsGreatest(k, keys)
  {
    hide Less;
    LessTotal(x, high);
    if Less(high, x) {
      forall j | j in keys && j != x ensures Less(j, x) {
        if j != high {
          LessTransitive(j, high, x);
        }
      }
      assert IsGreatest(x, keys);
    } else {
      assert IsGreatest(high, keys);
    }
  }

  lemma LeastUnique(a: Bytes, b: Bytes, keys: set<Bytes>)
    requires IsLeast(a, keys) && IsLeast(b, keys)
    ensures a == b
  {
    hide Less;
    if a != b {
      LessAsymmetric(a, b);
    }
  }

  lemma LeastIsThe(keys: set<Bytes>)
    requires keys != {}
    ensures exists k :: IsLeast(k, keys)
    ensures forall a, b :: IsLeast(a, keys) && IsLeast(b, keys) ==> a == b
  {
    ExtremesExist(keys);
    forall a, b | IsLeast(a, keys) && IsLeast(b, keys) ensures a == b {
      LeastUnique(a, b, keys);
    }
  }

  function Least(keys: set<Bytes>): (k: Bytes)
    requires keys != {}
    ensures IsLeast(k, keys)
  {
    LeastIsThe(keys);
    var k :| IsLeast(k, keys);
    k
  }

  /** A set of keys in byte order. */
  function Sorted(keys: set<Bytes>): (r: seq<Bytes>)
    ensures forall k :: k in r <==> k in keys
    ensures Rising(r) && |r| == |keys|
  {
    if keys == {} then []
    else
      var k := Least(keys);
      SortedCons(k, Sorted(keys - {k}), keys);
      [k] + Sorted(keys - {k})
  }

  lemma SortedCons(k: Bytes, rest: seq<Bytes>, keys: set<Bytes>)
    requires IsLeast(k, keys) && Rising(rest) && (forall j :: j in rest <==> j in keys - {k})
    ensures Rising([k] + rest) && forall j :: j in [k] + rest <==> j in keys
  {
    hide Less;
    forall i, j | 0 <= i < j < |rest| + 1 ensures Less(([k] + rest)[i], ([k] + rest)[j]) {
      assert ([k] + rest)[j] == rest[j - 1] && rest[j - 1] in rest;
    }
  }

  lemma SortedNext(keys: set<Bytes>)
    requires keys != {}
    ensures Sorted(keys) == [Least(keys)] + Sorted(keys - {Least(keys)})
  {
  }

  /** There is only one rising list of a set. */
  lemma {:induction false} RisingIsSorted(a: seq<Bytes>, keys: set<Bytes>)
    requires Rising(a) && forall k :: k in a <==> k in keys
    ensures a == Sorted(keys)
    decreases |a|
  {
    if a == [] {
      assert keys == {};
    } else {
      assert a[0] in a;
      SortedNext(keys);
      hide Sorted, Less, Rising, IsLeast;
      RisingHead(a, keys);
      LeastUnique(a[0], Least(keys), keys);
      RisingIsSorted(a[1..], keys - {a[0]});
      assert a == [a[0]] + a[1..];
    }
  }

  lemma RisingHead(a: seq<Bytes>, keys: set<Bytes>)
    requires a != [] && Rising(a) && forall k :: k in a <==> k in keys
    ensures IsLeast(a[0], keys) && Rising(a[1..]) && forall k :: k in a[1..] <==> k in keys - {a[0]}
  {
    hide Less;
    assert a[0] in a;
    forall k | k in keys && k != a[0] ensures Less(a[0], k) && k in a[1..] {
      assert k in a;
      var i :| 0 <= i < |a| && a[i] == k;
      assert a[1..][i - 1] == k;
    }
    forall k | k in a[1..] ensures k in keys && k != a[0] {
      var i :| 0 <= i < |a[1..]| && a[1..][i] == k;
      assert a[i + 1] == k && k in a;
      LessIrreflexive(k);
    }
  }

  /** The last of a sorted list is the greatest of its keys. */
  lemma SortedEnd(keys: set<Bytes>, k: Bytes)
    requires IsGreatest(k, keys)
    ensures Sorted(keys) == Sorted(keys - {k}) + [k]
  {
    hide Less, Sorted;
    var a := Sorted(keys - {k}) + [k];
    var rest := Sorted(keys - {k});
    forall i, j | 0 <= i < j < |a| ensures Less(a[i], a[j]) {
      if j == |rest| {
        assert rest[i] in rest;
      }
    }
    forall j ensures j in a <==> j in keys {
      assert j in a <==> j in rest || j == k;
    }
    RisingIsSorted(a, keys);
  }

  function Backwards(s: seq<Bytes>): (r: seq<Bytes>)
    ensures |r| == |s|
  {
    if s == [] then [] else Backwards(s[1..]) + [s[0]]
  }

  lemma {:induction false} BackwardsSnoc(s: seq<Bytes>, x: Bytes)
    ensures Backwards(s + [x]) == [x] + Backwards(s)
    decreases |s|
  {
    if s == [] {
      assert [] + [x] == [x] && [x][1..] == [];
    } else {
      assert (s + [x])[1..] == s[1..] + [x];
      BackwardsSnoc(s[1..], x);
      assert ([x] + Backwards(s[1..])) + [s[0]] == [x] + (Backwards(s[1..]) + [s[0]]);
    }
  }

  // ---------------------------------------------------------------- the scan

  /** The keys of a tree in a half-open byte range. */
  function Between<V>(tree: map<Bytes, V>, low: Bytes, high: Bytes): set<Bytes> {
    set k | k in tree && AtMost(low, k) && Less(k, high)
  }

  /** How many entries a scan with this limit keeps; zero means no limit. */
  function Kept(found: nat, limit: nat): nat {
    if limit == 0 then found else Min(found, limit)
  }

  /** The order a range is walked in. */
  function Walk(keys: set<Bytes>, desc: bool): (r: seq<Bytes>)
    ensures |r| == |keys|
  {
    if desc then Backwards(Sorted(keys)) else Sorted(keys)
  }

  /** The next key of a walk and what is left of it. */
  lemma WalkStep(keys: set<Bytes>, desc: bool, k: Bytes)
    requires if desc then IsGreatest(k, keys) else IsLeast(k, keys)
    ensures Walk(keys, desc) == [k] + Walk(keys - {k}, desc)
  {
    if desc {
      SortedEnd(keys, k);
      hide Sorted, Backwards;
      BackwardsSnoc(Sorted(keys - {k}), k);
    } else {
      LeastUnique(k, Least(keys), keys);
    }
  }

  /** The key a walk is at. */
  method FirstOf(rest: set<Bytes>, desc: bool) returns (k: Bytes)
    requires rest != {}
    ensures k in rest && Walk(rest, desc) == [k] + Walk(rest - {k}, desc)
  {
    ExtremesExist(rest);
    if desc {
      k :| k in rest && IsGreatest(k, rest);
    } else {
      k :| k in rest && IsLeast(k, rest);
    }
    WalkStep(rest, desc, k);
    hide Walk, Less;
  }

  /** The keys of a range in walking order, stopping at its end or once the limit is reached. */
  method ScanKeys<V>(tree: map<Bytes, V>, low: Bytes, high: Bytes, desc: bool, limit: nat) returns (keys: seq<Bytes>)
    ensures var order := Walk(Between(tree, low, high), desc);
            keys == order[..Kept(|order|, limit)]
  {
    hide Walk, Less, Between;
    ghost var order := Walk(Between(tree, low, high), desc);
    keys := [];
    var rest := Between(tree, low, high);
    while rest != {}
      invariant |keys| + |rest| == |order| && order == keys + Walk(rest, desc)
      invariant limit == 0 || |keys| < limit || (|keys| == limit && rest == {})
      decreases |rest|
    {
      var k := FirstOf(rest, desc);
      Moved(keys, k, Walk(rest - {k}, desc));
      keys := keys + [k];
      rest := rest - {k};
      if limit != 0 && |keys| >= limit {
        break;
      }
    }
    assert keys == order[..|keys|];
  }

  lemma Moved(a: seq<Bytes>, k: Bytes, b: seq<Bytes>)
    ensures a + ([k] + b) == (a + [k]) + b
  {
  }

  /** Reads the values of a range in walking order; an empty or inverted range yields nothing. */
  method ScanValues<V>(tree: map<Bytes, V>, low: Bytes, high: Bytes, desc: bool, limit: nat) returns (values: seq<V>)
    ensures var order := Walk(Between(tree, low, high), desc);
            && |values| == Kept(|order|, limit)
            && forall i :: 0 <= i < |values| ==> order[i] in tree && values[i] == tree[order[i]]
  {
    hide Walk, Less, Between;
    var keys := ScanKeys(tree, low, high, desc, limit);
    values := [];
    for i := 0 to |keys|
      invariant |values| == i && forall j :: 0 <= j < i ==> keys[j] in tree && values[j] == tree[keys[j]]
    {
      WalkedKey(tree, low, high, desc, i);
      values := values + [tree[keys[i]]];
    }
  }

  lemma WalkedKey<V>(tree: map<Bytes, V>, low: Bytes, high: Bytes, desc: bool, i: nat)
    requires i < |Walk(Between(tree, low, high), desc)|
    ensures Walk(Between(tree, low, high), desc)[i] in tree
  {
    WalkMember(Between(tree, low, high), desc, i);
    hide Walk, Less;
  }

  lemma WalkMember(keys: set<Bytes>, desc: bool, i: nat)
    requires i < |Walk(keys, desc)|
    ensures Walk(keys, desc)[i] in keys
  {
    if desc {
      BackwardsMember(Sorted(keys), i);
    }
    hide Backwards;
    assert Sorted(keys)[i] in Sorted(keys);
  }

  lemma {:induction false} BackwardsMember(s: seq<Bytes>, i: nat)
    requires i < |s|
    ensures Backwards(s)[i] in s
    decreases |s|
  {
    if i < |s| - 1 {
      BackwardsMember(s[1..], i);
    }
  }
}
