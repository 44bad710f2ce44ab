/** Machine widths, byte strings and the small containers every other module uses. */
module Base {

  const U16_MAX: nat := 0xFFFF
  const U32_MAX: nat := 0xFFFF_FFFF
  const U64_MAX: nat := 0xFFFF_FFFF_FFFF_FFFF

  type byte = b: int | 0 <= b < 256
  type Bytes = seq<byte>

  /** A Rust `String`: its UTF-8 bytes. */
  type Text = Bytes

  /** A UUID as the unsigned number its sixteen big-endian bytes spell, so `<` is its `Ord`. */
  type Uuid = nat

  datatype Option<+T> = None | Some(value: T)

  /** `u64::saturating_add`. */
  function SatAdd64(a: nat, b: nat): nat {
    if a + b > U64_MAX then U64_MAX else a + b
  }

  /** `u32::saturating_add`. */
  function SatAdd32(a: nat, b: nat): nat {
    if a + b > U32_MAX then U32_MAX else a + b
  }

  /** `saturating_sub`, the same at every width. */
  function SatSub(a: nat, b: nat): nat {
    if a < b then 0 else a - b
  }

  function Min(a: nat, b: nat): nat {
    if a <= b then a else b
  }

  function Max(a: nat, b: nat): nat {
    if a <= b then b else a
  }

  /** `x as u32`. */
  function AsU32(a: nat): nat {
    a % (U32_MAX + 1)
  }

  predicate Least(m: nat, keys: set<nat>) {
    m in keys && forall x :: x in keys ==> m <= x
  }

  lemma LeastExists(keys: set<nat>)
    requires keys != {}
    ensures exists m :: Least(m, keys)
  {
    var x :| x in keys;
    if keys == {x} {
      assert Least(x, keys);
    } else {
      LeastExists(keys - {x});
      var m :| Least(m, keys - {x});
      assert forall y :: y in keys ==> y == x || y in keys - {x};
      assert Least(if m <= x then m else x, keys);
    }
  }

  function Smallest(keys: set<nat>): (m: nat)
    requires keys != {}
    ensures Least(m, keys)
  {
    LeastExists(keys);
    var m :| Least(m, keys);
    m
  }

  ghost predicate Lists(r: seq<nat>, keys: set<nat>) {
    && (forall x :: x in r <==> x in keys)
    && (forall i, j :: 0 <= i < j < |r| ==> r[i] < r[j])
    && |r| == |keys|
  }

  lemma ListsCons(m: nat, rest: seq<nat>, keys: set<nat>)
    requires Least(m, keys) && Lists(rest, keys - {m})
    ensures Lists([m] + rest, keys)
  {
    var r := [m] + rest;
    forall x ensures x in r <==> x in keys {
    }
    forall i, j | 0 <= i < j < |r| ensures r[i] < r[j] {
      assert rest[j - 1] in rest;
    }
  }

  /** A `BTreeMap`'s iteration order over its keys. */
  function Ascending(keys: set<nat>): (r: seq<nat>)
    ensures forall x :: x in r <==> x in keys
    ensures forall i, j :: 0 <= i < j < |r| ==> r[i] < r[j]
    ensures |r| == |keys|
  {
    if keys == {} then []
    else
      var m := Smallest(keys);
      var rest := Ascending(keys - {m});
      ListsCons(m, rest, keys);
      [m] + rest
  }

  lemma Assoc(a: Bytes, b: Bytes, c: Bytes)
    ensures (a + b) + c == a + (b + c)
  {
  }
}
