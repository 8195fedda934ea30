/**
 The keys of the version buckets (internal/store/store.go, encodeVersion) and the bucket they stand
 in: a map kept in the byte order of its keys, as bbolt keeps it.
 */
module VersionKeys {
  import opened Bytes

  /** A 64-bit version number: eight bytes hold it. */
  const WIDTH: nat := 8

  function FromBE(k: bytes): nat {
    if k == [] then 0 else k[0] * Pow256(|k| - 1) + FromBE(k[1..])
  }

  function ToBE(v: nat, n: nat): (k: bytes)
    requires v < Pow256(n)
    ensures |k| == n
    decreases n, v
  {
    if n == 0 then []
    else
      HeadFits(v, Pow256(n - 1));
      [v / Pow256(n - 1)] + ToBE(v % Pow256(n - 1), n - 1)
  }

  lemma HeadFits(v: nat, p: nat)
    requires p > 0 && v < 256 * p
    ensures 0 <= v / p < 256
  {
  }

  /** The order bbolt keeps its keys in. */
  predicate Less(a: bytes, b: bytes) {
    if b == [] then false
    else if a == [] then true
    else a[0] < b[0] || (a[0] == b[0] && Less(a[1..], b[1..]))
  }

  lemma {:induction false} BigEndianRoundTrip(v: nat, n: nat)
    requires v < Pow256(n)
    ensures FromBE(ToBE(v, n)) == v
    decreases n
  {
    if n == 0 {
      assert v == 0;
    } else {
      hide Pow256;
      var p, k := Pow256(n - 1), ToBE(v, n);
      BigEndianRoundTrip(v % p, n - 1);
      assert k[0] == v / p && k[1..] == ToBE(v % p, n - 1);
      assert FromBE(k) == v / p * p + v % p;
      QuotientAndRest(v, p);
    }
  }

  lemma QuotientAndRest(v: nat, p: nat)
    requires p > 0
    ensures v == v / p * p + v % p
  {
  }

  lemma HeadDecides(a: nat, b: nat, p: nat, x: nat, y: nat)
    requires x < p && y < p
    ensures a < b ==> a * p + x < b * p + y
    ensures a > b ==> a * p + x > b * p + y
  {
    if a < b {
      assert (a + 1) * p <= b * p;
    } else if a > b {
      assert (b + 1) * p <= a * p;
    }
  }

  lemma {:induction false} FromBEBound(k: bytes)
    ensures FromBE(k) < Pow256(|k|)
    decreases |k|
  {
    if k != [] {
      FromBEBound(k[1..]);
      HeadDecides(k[0], 256, Pow256(|k| - 1), FromBE(k[1..]), 0);
    }
  }

  /** On keys of one width, the order of the bytes is the order of the numbers. */
  lemma {:induction false} ByteOrderIsNumeric(a: bytes, b: bytes)
    requires |a| == |b|
    ensures Less(a, b) <==> FromBE(a) < FromBE(b)
    ensures a == b <==> FromBE(a) == FromBE(b)
    decreases |a|
  {
    if a != [] {
      ByteOrderIsNumeric(a[1..], b[1..]);
      FromBEBound(a[1..]);
      FromBEBound(b[1..]);
      HeadDecides(a[0], b[0], Pow256(|a| - 1), FromBE(a[1..]), FromBE(b[1..]));
      assert a == [a[0]] + a[1..] && b == [b[0]] + b[1..];
    }
  }

  function Key(v: nat): bytes
    requires v < Pow256(WIDTH)
  {
    ToBE(v, WIDTH)
  }

  lemma KeysAreInOrder(v: nat, w: nat)
    requires v < Pow256(WIDTH) && w < Pow256(WIDTH)
    ensures |Key(v)| == WIDTH && FromBE(Key(v)) == v
    ensures Less(Key(v), Key(w)) <==> v < w
    ensures Key(v) == Key(w) <==> v == w
  {
    hide ToBE, FromBE, Less;
    BigEndianRoundTrip(v, WIDTH);
    BigEndianRoundTrip(w, WIDTH);
    ByteOrderIsNumeric(Key(v), Key(w));
  }

  // ---- a bucket that holds a log

  /** The log's entries stand under versions 1 to n, and there is nothing else. */
  ghost predicate Holds<V>(b: map<bytes, V>, log: seq<V>) {
    && |log| < Pow256(WIDTH)
    && (forall v: nat :: 1 <= v <= |log| ==> Key(v) in b && b[Key(v)] == log[v - 1])
    && (forall k :: k in b ==> IsKeyOf(k, |log|))
  }

  ghost predicate IsKeyOf(k: bytes, n: nat) {
    n < Pow256(WIDTH) && exists v: nat :: 1 <= v <= n && k == Key(v)
  }

  predicate IsLast<V>(b: map<bytes, V>, k: bytes) { k in b && forall j :: j in b ==> !Less(k, j) }

  lemma HoldsEmpty<V>(b: map<bytes, V>)
    requires b == map[]
    ensures Holds(b, [])
  {
  }

  lemma HoldsAppend<V>(b: map<bytes, V>, log: seq<V>, entry: V)
    requires Holds(b, log) && |log| + 1 < Pow256(WIDTH)
    ensures Key(|log| + 1) !in b && Holds(b[Key(|log| + 1) := entry], log + [entry])
  {
    hide Key, Pow256;
    var top := Key(|log| + 1);
    forall v: nat | 1 <= v <= |log| ensures Key(v) != top {
      KeysAreInOrder(v, |log| + 1);
    }
    var c := b[top := entry];
    forall j | j in b ensures j != top && IsKeyOf(j, |log| + 1) {
      assert IsKeyOf(j, |log|);
    }
    assert IsKeyOf(top, |log| + 1);
  }

  /** A version is there just when the log is that long. */
  lemma Lookup<V>(b: map<bytes, V>, log: seq<V>, v: nat)
    requires Holds(b, log) && v < Pow256(WIDTH)
    ensures Key(v) in b <==> 1 <= v <= |log|
    ensures 1 <= v <= |log| ==> b[Key(v)] == log[v - 1]
  {
    hide Key, Pow256;
    if Key(v) in b {
      assert IsKeyOf(Key(v), |log|);
      var w: nat :| 1 <= w <= |log| && Key(v) == Key(w);
      KeysAreInOrder(v, w);
    }
  }

  /** The last key in byte order is that of the newest version. */
  lemma LastIsNewest<V>(b: map<bytes, V>, log: seq<V>, k: bytes)
    requires Holds(b, log) && log != []
    ensures IsLast(b, k) <==> k == Key(|log|)
  {
    hide Key, Pow256, Less;
    var top := Key(|log|);
    assert top in b;
    forall j | j in b ensures !Less(top, j) && (Less(j, top) || j == top) {
      assert IsKeyOf(j, |log|);
      var v: nat :| 1 <= v <= |log| && j == Key(v);
      KeysAreInOrder(|log|, v);
      KeysAreInOrder(v, |log|);
    }
  }
}
