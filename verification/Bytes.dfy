/** Bytes, little-endian integers and "this encoding sits at this offset". */
module Bytes {

  type byte = x: int | 0 <= x < 256

  type bytes = seq<byte>

  /** 256 to the power n: the number of values n bytes can hold. */
  function Pow256(n: nat): (r: nat)
    ensures r > 0
  {
    if n == 0 then 1 else 256 * Pow256(n - 1)
  }

  function FromLE(b: bytes): nat {
    if b == [] then 0 else b[0] + 256 * FromLE(b[1..])
  }

  // `v` is in the measure so that a literal width does not unfold the whole encoding.
  function ToLE(v: nat, n: nat): (b: bytes)
    ensures |b| == n
    decreases n, v
  {
    if n == 0 then [] else [v % 256] + ToLE(v / 256, n - 1)
  }

  lemma {:induction false} LittleEndianRoundTrip(v: nat, n: nat)
    requires v < Pow256(n)
    ensures FromLE(ToLE(v, n)) == v
  {
    if n > 0 {
      LittleEndianRoundTrip(v / 256, n - 1);
      assert ToLE(v, n)[1..] == ToLE(v / 256, n - 1);
    }
  }

  /** Byte i of the encoding is the one worth 256 to the i: the lowest comes first. */
  lemma {:induction false} LowestFirst(v: nat, n: nat, i: nat)
    requires i < n
    ensures ToLE(v, n)[i] == v / Pow256(i) % 256
    decreases n
  {
    if i > 0 {
      LowestFirst(v / 256, n - 1, i - 1);
      DivideTwice(v, Pow256(i - 1));
    }
  }

  lemma DivideTwice(v: nat, p: nat)
    requires p > 0
    ensures v / 256 / p == v / (256 * p)
  {
    var q, r := v / (256 * p), v % (256 * p);
    assert v == 256 * (p * q) + r;
    assert v / 256 == p * q + r / 256 && r / 256 < p;
    Quotient(v / 256, p, q, r / 256);
  }

  lemma Quotient(v: nat, p: nat, q: nat, r: nat)
    requires p > 0 && r < p && v == p * q + r
    ensures v / p == q
  {
    var k := v / p;
    assert v == p * k + v % p;
    Monotone(p, k + 1, q);
    Monotone(p, q + 1, k);
  }

  lemma Monotone(p: nat, a: nat, b: nat)
    ensures a <= b ==> p * a <= p * b
  {
  }

  /** The widths the protocol uses, unfolded once so that callers need not. */
  lemma Widths()
    ensures Pow256(1) == 0x100 && Pow256(2) == 0x1_0000 && Pow256(3) == 0x100_0000
    ensures Pow256(4) == 0x1_0000_0000 && Pow256(8) == 0x1_0000_0000_0000_0000
  {
    assert Pow256(1) == 256 * Pow256(0);
    assert Pow256(2) == 256 * Pow256(1);
    assert Pow256(3) == 256 * Pow256(2);
    assert Pow256(4) == 256 * Pow256(3);
    assert Pow256(5) == 256 * Pow256(4);
    assert Pow256(6) == 256 * Pow256(5);
    assert Pow256(7) == 256 * Pow256(6);
    assert Pow256(8) == 256 * Pow256(7);
  }

  /** Two's complement reading of an n-byte unsigned value, as Go's int8(b) .. int64(v) do. */
  function Signed(v: nat, n: nat): int {
    if 2 * v < Pow256(n) then v else v - Pow256(n)
  }

  /** Two's complement writing of a signed or unsigned value. */
  function Wrap(v: int, n: nat): (r: nat)
    requires 0 <= v + Pow256(n)
  {
    if v < 0 then v + Pow256(n) else v
  }

  /** Both are what n bytes hold of a number: the same up to 256 to the n, in the range they can show. */
  lemma TwosComplement(v: int, n: nat)
    ensures 0 <= v < Pow256(n) ==>
              && (Signed(v, n) == v || Signed(v, n) == v - Pow256(n))
              && 0 <= 2 * Signed(v, n) + Pow256(n) && 2 * Signed(v, n) < Pow256(n)
    ensures 0 <= v + Pow256(n) && v < Pow256(n) ==>
              Wrap(v, n) < Pow256(n) && (Wrap(v, n) == v || Wrap(v, n) == v + Pow256(n))
  {
  }

  /** The bytes `enc` occur in `b` at offset `pos`. */
  predicate At(b: bytes, pos: nat, enc: bytes) {
    pos + |enc| <= |b| && b[pos..pos + |enc|] == enc
  }

  lemma AtSplit(b: bytes, pos: nat, e1: bytes, e2: bytes)
    requires At(b, pos, e1 + e2)
    ensures At(b, pos, e1) && At(b, pos + |e1|, e2)
  {
    var whole := b[pos..pos + |e1 + e2|];
    assert whole[..|e1|] == e1 && whole[|e1|..] == e2;
    assert b[pos..pos + |e1|] == whole[..|e1|];
    assert b[pos + |e1|..pos + |e1| + |e2|] == whole[|e1|..];
  }

  lemma SuffixSplit(b: bytes, pos: nat, e: bytes, rest: bytes)
    requires pos <= |b| && b[pos..] == e + rest
    ensures At(b, pos, e) && b[pos + |e|..] == rest
  {
    assert b[pos..pos + |e|] == b[pos..][..|e|];
    assert b[pos + |e|..] == b[pos..][|e|..];
  }

  // ---- trimming text

  /** The length of the blank that starts at i, in UTF-8, or 0: what Go's strings.TrimSpace removes. */
  function BlankAt(b: bytes, i: nat): (n: nat)
    ensures i + n <= |b| || n == 0
  {
    if i < |b| && (0x09 <= b[i] <= 0x0D || b[i] == 0x20) then 1
    else if i + 1 < |b| && b[i] == 0xC2 && (b[i + 1] == 0x85 || b[i + 1] == 0xA0) then 2
    else if i + 2 < |b| && IsWideBlank(b[i], b[i + 1], b[i + 2]) then 3
    else 0
  }

  predicate IsWideBlank(x: byte, y: byte, z: byte) {
    || (x == 0xE1 && y == 0x9A && z == 0x80)
    || (x == 0xE2 && y == 0x80 && (0x80 <= z <= 0x8A || z == 0xA8 || z == 0xA9 || z == 0xAF))
    || (x == 0xE2 && y == 0x81 && z == 0x9F)
    || (x == 0xE3 && y == 0x80 && z == 0x80)
  }

  function TrimHead(b: bytes): bytes {
    if BlankAt(b, 0) == 0 then b else TrimHead(b[BlankAt(b, 0)..])
  }

  function TrimTail(b: bytes): bytes {
    if |b| >= 1 && BlankAt(b, |b| - 1) == 1 then TrimTail(b[..|b| - 1])
    else if |b| >= 2 && BlankAt(b, |b| - 2) == 2 then TrimTail(b[..|b| - 2])
    else if |b| >= 3 && BlankAt(b, |b| - 3) == 3 then TrimTail(b[..|b| - 3])
    else b
  }

  function TrimBlanks(b: bytes): bytes { TrimTail(TrimHead(b)) }

  /** Nothing to trim at either end. */
  predicate NoBlankEnds(b: bytes) {
    b != [] && BlankAt(b, 0) == 0
    && BlankAt(b, |b| - 1) != 1 && (|b| >= 2 ==> BlankAt(b, |b| - 2) != 2) && (|b| >= 3 ==> BlankAt(b, |b| - 3) != 3)
  }

  /** A blank on either side of a text goes, the text stays. */
  lemma TrimBlanksAround(b: bytes, before: bytes, after: bytes)
    requires NoBlankEnds(b) && |before| > 0 && BlankAt(before, 0) == |before|
    requires |after| > 0 && BlankAt(after, 0) == |after|
    ensures TrimBlanks(before + b + after) == b && TrimBlanks(b) == b
  {
    var t := before + b + after;
    assert t[|before|..] == b + after && BlankAt(t, 0) == |before|;
    assert BlankAt(b + after, 0) == 0;
    var u := b + after;
    assert u[..|b|] == b && BlankAt(u, |b|) == |after|;
    assert TrimHead(t) == TrimHead(u) == u;
    TrimTailOnce(b, after);
  }

  lemma TrimTailOnce(b: bytes, after: bytes)
    requires NoBlankEnds(b) && |after| > 0 && BlankAt(after, 0) == |after|
    ensures TrimTail(b + after) == b && TrimTail(b) == b
  {
    var u := b + after;
    assert u[..|b|] == b && u[|b|..] == after;
    assert TrimTail(b) == b;
  }
}
