/**
 The Postcard encoding of the few types the cache file and the log are made of: integers as
 little-endian base-128 varints, byte strings with their length in front, structs and sequences
 by concatenation. Decoders return the value and the bytes left over.
 */
module Postcard {
  import opened Keys

  function Varint(n: nat): (bytes: Bytes)
    ensures 0 < |bytes|
  {
    if n < 128 then [n as byte] else [(128 + n % 128) as byte] + Varint(n / 128)
  }

  datatype Parsed<+T> = Parsed(value: T, rest: Bytes)

  function ParseVarint(bytes: Bytes): (r: Option<Parsed<nat>>)
    ensures r.Some? ==> |r.value.rest| < |bytes|
  {
    if bytes == [] then None
    else if bytes[0] < 128 then Some(Parsed(bytes[0] as nat, bytes[1..]))
    else
      match ParseVarint(bytes[1..])
      case None => None
      case Some(Parsed(high, rest)) => Some(Parsed(bytes[0] as nat - 128 + 128 * high, rest))
  }

  lemma {:induction false} VarintRoundTrip(n: nat, rest: Bytes)
    ensures ParseVarint(Varint(n) + rest) == Some(Parsed(n, rest))
    decreases n
  {
    if 128 <= n {
      VarintRoundTrip(n / 128, rest);
      assert (Varint(n) + rest)[1..] == Varint(n / 128) + rest;
    } else {
      assert (Varint(n) + rest)[1..] == rest;
    }
  }

  /** A larger number never has a shorter encoding. */
  lemma {:induction false} VarintMonotone(m: nat, n: nat)
    requires m <= n
    ensures |Varint(m)| <= |Varint(n)|
    decreases n
  {
    if 128 <= m {
      VarintMonotone(m / 128, n / 128);
    }
  }

  function Power128(k: nat): nat {
    if k == 0 then 1 else 128 * Power128(k - 1)
  }

  lemma {:induction false} VarintLength(n: nat, k: nat)
    requires 0 < k && n < Power128(k)
    ensures |Varint(n)| <= k
    decreases k
  {
    if 128 <= n {
      VarintLength(n / 128, k - 1);
    }
  }

  /** Which bytes these are: base 128, lowest first, as many as needed, all but the last marked. */
  lemma {:induction false} VarintDigits(n: nat, i: nat)
    requires i < |Varint(n)|
    ensures Power128(i) > 0
    ensures Varint(n)[i] as nat == n / Power128(i) % 128 + if i == |Varint(n)| - 1 then 0 else 128
    ensures n < Power128(|Varint(n)|) && (|Varint(n)| == 1 || Power128(|Varint(n)| - 1) <= n)
    decreases n, i
  {
    if 128 <= n {
      var rest := Varint(n / 128);
      assert Varint(n)[1..] == rest;
      VarintDigits(n / 128, if 0 < i then i - 1 else 0);
      if 0 < i {
        DivideTwice(n, Power128(i - 1));
        assert Varint(n)[i] == rest[i - 1];
      }
    } else {
      assert Power128(1) == 128;
    }
  }

  lemma {:induction false} DivideTwice(n: nat, d: nat)
    requires 0 < d
    ensures n / 128 / d == n / (128 * d)
  {
    var q := n / 128 / d;
    var r := n / 128 % d;
    assert n == 128 * (q * d + r) + n % 128;
    assert 128 * (q * d + r) == q * (128 * d) + 128 * r;
    QuotientIs(n, 128 * d, q, 128 * r + n % 128);
  }

  lemma {:induction false} QuotientIs(n: nat, d: nat, q: nat, r: nat)
    requires n == q * d + r && r < d
    ensures n / d == q
  {
    var p := n / d;
    assert n == p * d + n % d;
    assert (p + 1) * d == p * d + d && (q + 1) * d == q * d + d;
    FactorLess(p, q + 1, d);
    FactorLess(q, p + 1, d);
  }

  lemma FactorLess(a: nat, b: nat, d: nat)
    requires a * d < b * d
    ensures a < b
  {
    if b <= a {
      ProductGrows(b, a, d);
    }
  }

  lemma ProductGrows(a: nat, b: nat, d: nat)
    requires a <= b
    ensures a * d <= b * d
  {}

  function BytesField(b: Bytes): Bytes {
    Varint(|b|) + b
  }

  function ParseBytes(bytes: Bytes): (r: Option<Parsed<Bytes>>)
    ensures r.Some? ==> |r.value.rest| < |bytes|
  {
    match ParseVarint(bytes)
    case None => None
    case Some(Parsed(n, rest)) => if n <= |rest| then Some(Parsed(rest[..n], rest[n..])) else None
  }

  lemma {:induction false} BytesRoundTrip(b: Bytes, rest: Bytes)
    ensures ParseBytes(BytesField(b) + rest) == Some(Parsed(b, rest))
  {
    VarintRoundTrip(|b|, b + rest);
    assert BytesField(b) + rest == Varint(|b|) + (b + rest);
  }

  // ---------------------------------------------------------------------------
  // Sequences
  // ---------------------------------------------------------------------------

  function EncodeEach<T>(items: seq<T>, encode: T -> Bytes): Bytes {
    if items == [] then [] else encode(items[0]) + EncodeEach(items[1..], encode)
  }

  function ParseEach<T>(n: nat, bytes: Bytes, parse: Bytes -> Option<Parsed<T>>): Option<Parsed<seq<T>>> {
    if n == 0 then Some(Parsed([], bytes))
    else
      match parse(bytes)
      case None => None
      case Some(Parsed(first, rest)) =>
        match ParseEach(n - 1, rest, parse)
        case None => None
        case Some(Parsed(others, rest')) => Some(Parsed([first] + others, rest'))
  }

  /** An encoding that can be told from what follows it, for one value. */
  ghost predicate ReadsBack<T(!new)>(item: T, encode: T -> Bytes, parse: Bytes -> Option<Parsed<T>>) {
    forall rest :: parse(encode(item) + rest) == Some(Parsed(item, rest))
  }

  lemma {:induction false} EachRoundTrip<T(!new)>(
    items: seq<T>, encode: T -> Bytes, parse: Bytes -> Option<Parsed<T>>, rest: Bytes)
    requires forall item | item in items :: ReadsBack(item, encode, parse)
    ensures ParseEach(|items|, EncodeEach(items, encode) + rest, parse) == Some(Parsed(items, rest))
    decreases |items|
  {
    if items == [] {
      assert EncodeEach(items, encode) + rest == rest;
    } else {
      var others := EncodeEach(items[1..], encode) + rest;
      assert EncodeEach(items, encode) + rest == encode(items[0]) + others;
      assert ReadsBack(items[0], encode, parse);
      EachRoundTrip(items[1..], encode, parse, rest);
      assert [items[0]] + items[1..] == items;
    }
  }
}
