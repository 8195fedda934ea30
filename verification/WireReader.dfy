/**
 The bounds-checked cursor over one packet payload (internal/wire/packet.go).

 Each accessor is given twice: as a pure step on a `Cursor`, which the lemmas
 below are about, and as a method of the class `Reader`, which moves the cursor in
 place and is proved to take exactly that step.
 */
module WireReader {
  import opened Bytes
  import opened Options

  const MAX_UINT64: nat := 0x1_0000_0000_0000_0000

  /** The two failures an accessor can record. */
  datatype ReadError = Truncated(want: nat, at: nat) | TruncatedString(want: nat, have: nat)

  datatype Cursor = Cursor(pos: nat, err: Option<ReadError>) {
    /** Only the first failure is kept. */
    function Fail(e: ReadError): Cursor {
      if err.None? then this.(err := Some(e)) else this
    }
  }

  function Remaining(b: bytes, c: Cursor): nat {
    if c.pos > |b| then 0 else |b| - c.pos
  }

  // ---- the accessors as steps on a cursor

  function TakeByte(b: bytes, c: Cursor): (byte, Cursor) {
    if Remaining(b, c) < 1 then (0, c.Fail(Truncated(1, c.pos)))
    else (b[c.pos], c.(pos := c.pos + 1))
  }

  function TakeFixed(b: bytes, c: Cursor, n: nat): (r: (Option<bytes>, Cursor))
    ensures r.0.Some? ==> |r.0.value| == n
  {
    if Remaining(b, c) < n then (None, c.Fail(Truncated(n, c.pos)).(pos := |b|))
    else if c.pos > |b| then (Some([]), c)
    else (Some(b[c.pos..c.pos + n]), c.(pos := c.pos + n))
  }

  /** uint16, uint32 and the 3- and 8-byte reads: 0 when the bytes are not there. */
  function TakeUint(b: bytes, c: Cursor, n: nat): (nat, Cursor) {
    var (s, c') := TakeFixed(b, c, n);
    if s.None? then (0, c') else (FromLE(s.value), c')
  }

  function TakeLenEncInt(b: bytes, c: Cursor): (nat, bool, Cursor) {
    var (first, c1) := TakeByte(b, c);
    if first < 0xFB then (first, false, c1)
    else if first == 0xFB then (0, true, c1)
    else
      var (v, c2) := TakeUint(b, c1, if first == 0xFC then 2 else if first == 0xFD then 3 else 8);
      (v, false, c2)
  }

  function TakeLenEncString(b: bytes, c: Cursor): (bytes, bool, Cursor) {
    var (n, isNull, c1) := TakeLenEncInt(b, c);
    if isNull then ([], true, c1)
    else if n > Remaining(b, c1) then
      ([], false, c1.Fail(TruncatedString(n, Remaining(b, c1))).(pos := |b|))
    else
      var (s, c2) := TakeFixed(b, c1, n);
      (if s.Some? then s.value else [], false, c2)
  }

  // ---- the encodings, from the MySQL protocol's length-encoded types

  function LenEncInt(v: nat): (e: bytes)
    requires v < MAX_UINT64
    ensures 1 <= |e| <= 9
    ensures e[0] != 0xFB && e[0] != 0xFF
    ensures e[0] == 0xFE ==> |e| == 9
    ensures v > 0 ==> e[0] != 0
  {
    if v < 0xFB then [v]
    else if v < 0x1_0000 then [0xFC] + ToLE(v, 2)
    else if v < 0x100_0000 then [0xFD] + ToLE(v, 3)
    else [0xFE] + ToLE(v, 8)
  }

  function LenEncString(s: bytes): (e: bytes)
    requires |s| < MAX_UINT64
    ensures |e| >= 1 + |s|
    ensures e[0] != 0xFB && e[0] != 0xFF
    ensures e[0] == 0xFE ==> |e| >= 9
  {
    LenEncInt(|s|) + s
  }

  // ---- round trips

  lemma TakeFixedAt(b: bytes, c: Cursor, enc: bytes)
    requires c.err.None? && At(b, c.pos, enc)
    ensures TakeFixed(b, c, |enc|) == (Some(enc), Cursor(c.pos + |enc|, None))
  {
  }

  lemma TakeUintAt(b: bytes, c: Cursor, v: nat, n: nat)
    requires c.err.None? && v < Pow256(n) && At(b, c.pos, ToLE(v, n))
    ensures TakeUint(b, c, n) == (v, Cursor(c.pos + n, None))
  {
    TakeFixedAt(b, c, ToLE(v, n));
    LittleEndianRoundTrip(v, n);
  }

  /** `lenEncInt` undoes the encoding of every 64-bit value, wherever it stands. */
  lemma LenEncIntRoundTrip(b: bytes, c: Cursor, v: nat)
    requires c.err.None? && v < MAX_UINT64 && At(b, c.pos, LenEncInt(v))
    ensures TakeLenEncInt(b, c) == (v, false, Cursor(c.pos + |LenEncInt(v)|, None))
  {
    Widths();
    var e := LenEncInt(v);
    AtSplit(b, c.pos, [e[0]], e[1..]) by { assert e == [e[0]] + e[1..]; }
    assert b[c.pos] == b[c.pos..c.pos + 1][0];
    if v >= 0xFB {
      TakeUintAt(b, Cursor(c.pos + 1, None), v, |e| - 1);
    }
  }

  lemma LenEncStringAfterLength(b: bytes, c: Cursor, s: bytes, c1: Cursor)
    requires TakeLenEncInt(b, c) == (|s|, false, c1)
    requires TakeFixed(b, c1, |s|) == (Some(s), Cursor(c1.pos + |s|, None))
    requires |s| <= Remaining(b, c1)
    ensures TakeLenEncString(b, c) == (s, false, Cursor(c1.pos + |s|, None))
  {
  }

  /** `lenEncString` undoes the encoding of every byte string. */
  lemma LenEncStringRoundTrip(b: bytes, c: Cursor, s: bytes)
    requires c.err.None? && |s| < MAX_UINT64 && At(b, c.pos, LenEncString(s))
    ensures TakeLenEncString(b, c) == (s, false, Cursor(c.pos + |LenEncString(s)|, None))
  {
    hide TakeFixed, TakeLenEncInt, LenEncInt;
    var prefix := LenEncInt(|s|);
    AtSplit(b, c.pos, prefix, s);
    LenEncIntRoundTrip(b, c, |s|);
    var c1 := Cursor(c.pos + |prefix|, None);
    TakeFixedAt(b, c1, s);
    LenEncStringAfterLength(b, c, s, c1);
  }

  /** The same, for an encoding at the head of what is left. */
  lemma LenEncStringHead(b: bytes, pos: nat, s: bytes, rest: bytes)
    requires |s| < MAX_UINT64 && pos <= |b| && b[pos..] == LenEncString(s) + rest
    ensures TakeLenEncString(b, Cursor(pos, None)) == (s, false, Cursor(pos + |LenEncString(s)|, None))
    ensures pos + |LenEncString(s)| <= |b| && b[pos + |LenEncString(s)|..] == rest
  {
    SuffixSplit(b, pos, LenEncString(s), rest);
    LenEncStringRoundTrip(b, Cursor(pos, None), s);
  }

  lemma LenEncIntHead(b: bytes, pos: nat, v: nat, rest: bytes)
    requires v < MAX_UINT64 && pos <= |b| && b[pos..] == LenEncInt(v) + rest
    ensures TakeLenEncInt(b, Cursor(pos, None)) == (v, false, Cursor(pos + |LenEncInt(v)|, None))
    ensures pos + |LenEncInt(v)| <= |b| && b[pos + |LenEncInt(v)|..] == rest
  {
    SuffixSplit(b, pos, LenEncInt(v), rest);
    LenEncIntRoundTrip(b, Cursor(pos, None), v);
  }

  lemma UintHead(b: bytes, pos: nat, v: nat, n: nat, rest: bytes)
    requires v < Pow256(n) && pos <= |b| && b[pos..] == ToLE(v, n) + rest
    ensures TakeUint(b, Cursor(pos, None), n) == (v, Cursor(pos + n, None))
    ensures TakeFixed(b, Cursor(pos, None), n).1 == Cursor(pos + n, None)
    ensures pos + n <= |b| && b[pos + n..] == rest
  {
    SuffixSplit(b, pos, ToLE(v, n), rest);
    TakeUintAt(b, Cursor(pos, None), v, n);
  }

  lemma FixedHead(b: bytes, pos: nat, s: bytes, rest: bytes)
    requires pos <= |b| && b[pos..] == s + rest
    ensures TakeFixed(b, Cursor(pos, None), |s|) == (Some(s), Cursor(pos + |s|, None))
    ensures pos + |s| <= |b| && b[pos + |s|..] == rest
  {
    SuffixSplit(b, pos, s, rest);
  }

  lemma ByteHead(b: bytes, pos: nat, v: byte, rest: bytes)
    requires pos <= |b| && b[pos..] == [v] + rest
    ensures TakeByte(b, Cursor(pos, None)) == (v, Cursor(pos + 1, None))
    ensures pos + 1 <= |b| && b[pos + 1..] == rest
  {
    SuffixSplit(b, pos, [v], rest);
    assert b[pos] == b[pos..][0];
  }

  // ---- arbitrary bytes

  /** What every accessor keeps on arbitrary bytes: the cursor only moves forward and
      never leaves the payload, and the first error sticks. */
  predicate Advances(b: bytes, c: Cursor, c': Cursor) {
    && c.pos <= c'.pos <= |b|
    && (c.err.Some? ==> c'.err == c.err)
  }

  lemma AccessorsStayInside(b: bytes, c: Cursor, n: nat)
    requires c.pos <= |b|
    ensures Advances(b, c, TakeByte(b, c).1)
    ensures Advances(b, c, TakeFixed(b, c, n).1)
    ensures Advances(b, c, TakeUint(b, c, n).1)
    ensures Advances(b, c, TakeLenEncInt(b, c).2)
    ensures Advances(b, c, TakeLenEncString(b, c).2)
    // an accessor that could not deliver says so
    ensures TakeFixed(b, c, n).0.None? ==> TakeFixed(b, c, n).1.err.Some?
    ensures c.pos == |b| ==> TakeLenEncString(b, c).2.err.Some?
    // and one that starts before the end makes progress
    ensures c.pos < |b| ==> c.pos < TakeLenEncString(b, c).2.pos
  {
  }

  /** What is recorded when the bytes asked for are not there: how many, and where or how many there were.
      Nothing is left to read then, except after a single byte's failure, where nothing was left before. */
  lemma ShortReadIsReported(b: bytes, c: Cursor, n: nat)
    requires c.pos <= |b| && c.err.None?
    ensures c.pos == |b| ==> TakeByte(b, c) == (0, Cursor(|b|, Some(Truncated(1, |b|))))
    ensures |b| < c.pos + n ==>
              && TakeFixed(b, c, n) == (None, Cursor(|b|, Some(Truncated(n, c.pos))))
              && TakeUint(b, c, n) == (0, Cursor(|b|, Some(Truncated(n, c.pos))))
    ensures var (length, isNull, c1) := TakeLenEncInt(b, c);
            c1.err.None? && !isNull && length > |b| - c1.pos ==>
              TakeLenEncString(b, c) == ([], false, Cursor(|b|, Some(TruncatedString(length, |b| - c1.pos))))
  {
    AccessorsStayInside(b, c, n);
  }

  /** The text-row loop: length-encoded strings until the payload or the patience ends. */
  function TakeTextRow(b: bytes, c: Cursor): (r: (seq<Option<bytes>>, Cursor))
    requires c.pos <= |b|
    decreases |b| - c.pos
  {
    if Remaining(b, c) == 0 || c.err.Some? then ([], c)
    else
      var (s, isNull, c1) := TakeLenEncString(b, c);
      AccessorsStayInside(b, c, 0);
      var (rest, c2) := TakeTextRow(b, c1);
      ([if isNull then None else Some(s)] + rest, c2)
  }

  /** Every cell is NULL or a string whose length fits the encoding. */
  ghost predicate TextRowOk(cells: seq<Option<bytes>>) {
    forall i :: 0 <= i < |cells| && cells[i].Some? ==> |cells[i].value| < MAX_UINT64
  }

  function EncodeTextCell(cell: Option<bytes>): (e: bytes)
    requires cell.Some? ==> |cell.value| < MAX_UINT64
    ensures |e| >= 1
    ensures e[0] != 0xFF && (e[0] == 0xFE ==> |e| >= 9)
  {
    if cell.None? then [0xFB] else LenEncString(cell.value)
  }

  function EncodeTextRow(cells: seq<Option<bytes>>): (e: bytes)
    requires TextRowOk(cells)
    ensures cells != [] ==> |e| > 0 && e[0] != 0xFF && (e[0] == 0xFE ==> |e| >= 9)
  {
    if cells == [] then [] else EncodeTextCell(cells[0]) + EncodeTextRow(cells[1..])
  }

  lemma TextCellRoundTrip(b: bytes, c: Cursor, cell: Option<bytes>)
    requires cell.Some? ==> |cell.value| < MAX_UINT64
    requires c.err.None? && At(b, c.pos, EncodeTextCell(cell))
    ensures TakeLenEncString(b, c)
         == (if cell.Some? then cell.value else [], cell.None?, Cursor(c.pos + |EncodeTextCell(cell)|, None))
  {
    if cell.None? {
      assert b[c.pos] == b[c.pos..c.pos + 1][0] == 0xFB;
    } else {
      LenEncStringRoundTrip(b, c, cell.value);
    }
  }

  lemma TextRowStep(b: bytes, c: Cursor, cells: seq<Option<bytes>>, c1: Cursor, c2: Cursor)
    requires cells != [] && c.pos < |b| && c.err.None? && c1.pos <= |b|
    requires TakeLenEncString(b, c) == (if cells[0].Some? then cells[0].value else [], cells[0].None?, c1)
    requires TakeTextRow(b, c1) == (cells[1..], c2)
    ensures TakeTextRow(b, c) == (cells, c2)
  {
    hide TakeLenEncString;
    AccessorsStayInside(b, c, 0);
    assert [cells[0]] + cells[1..] == cells;
  }

  /** The text-row loop returns exactly the encoded columns, and stops at the end without error. */
  lemma {:induction false} TextRowRoundTrip(b: bytes, pos: nat, cells: seq<Option<bytes>>)
    requires TextRowOk(cells)
    requires pos <= |b| && b[pos..] == EncodeTextRow(cells)
    ensures TakeTextRow(b, Cursor(pos, None)) == (cells, Cursor(|b|, None))
    decreases |cells|
  {
    hide TakeLenEncString, EncodeTextCell;
    if cells != [] {
      var e, rest := EncodeTextCell(cells[0]), EncodeTextRow(cells[1..]);
      SuffixSplit(b, pos, e, rest);
      TextCellRoundTrip(b, Cursor(pos, None), cells[0]);
      TextRowRoundTrip(b, pos + |e|, cells[1..]);
      TextRowStep(b, Cursor(pos, None), cells, Cursor(pos + |e|, None), Cursor(|b|, None));
    }
  }

  // ---- the cursor as the source has it

  class Reader {
    const b: bytes
    var pos: nat
    var err: Option<ReadError>

    constructor (b: bytes)
      ensures this.b == b && pos == 0 && err == None
    {
      this.b := b;
      pos := 0;
      err := None;
    }

    function Now(): Cursor
      reads this
    {
      Cursor(pos, err)
    }

    method Fail(e: ReadError)
      modifies this
      ensures Now() == old(Now()).Fail(e)
    {
      if err == None { err := Some(e); }
    }

    method Left() returns (n: nat)
      ensures n == Remaining(b, Now())
    {
      if pos > |b| { return 0; }
      n := |b| - pos;
    }

    method Byte() returns (v: byte)
      modifies this
      ensures (v, Now()) == TakeByte(b, old(Now()))
    {
      var left := Left();
      if left < 1 {
        Fail(Truncated(1, pos));
        return 0;
      }
      v := b[pos];
      pos := pos + 1;
    }

    method Fixed(n: nat) returns (s: Option<bytes>)
      modifies this
      ensures (s, Now()) == TakeFixed(b, old(Now()), n)
    {
      var left := Left();
      if left < n {
        Fail(Truncated(n, pos));
        pos := |b|;
        return None;
      }
      if pos > |b| { return Some([]); }
      s := Some(b[pos..pos + n]);
      pos := pos + n;
    }

    method Uint(n: nat) returns (v: nat)
      modifies this
      ensures (v, Now()) == TakeUint(b, old(Now()), n)
    {
      var s := Fixed(n);
      if s == None { return 0; }
      v := FromLE(s.value);
    }

    method ReadLenEncInt() returns (v: nat, isNull: bool)
      modifies this
      ensures (v, isNull, Now()) == TakeLenEncInt(b, old(Now()))
    {
      var first := Byte();
      isNull := false;
      if first < 0xFB {
        v := first;
      } else if first == 0xFB {
        v, isNull := 0, true;
      } else if first == 0xFC {
        v := Uint(2);
      } else if first == 0xFD {
        v := Uint(3);
      } else {
        v := Uint(8);
      }
    }

    method ReadLenEncString() returns (s: bytes, isNull: bool)
      modifies this
      ensures (s, isNull, Now()) == TakeLenEncString(b, old(Now()))
    {
      var n, none := ReadLenEncInt();
      if none { return [], true; }
      var left := Left();
      if n > left {
        Fail(TruncatedString(n, left));
        pos := |b|;
        return [], false;
      }
      var f := Fixed(n);
      s := if f.Some? then f.value else [];
      isNull := false;
    }

    method RestOfPacket() returns (s: bytes)
      modifies this
      ensures s == (if old(pos) < |b| then b[old(pos)..] else [])
      ensures Now() == old(if pos < |b| then Cursor(|b|, err) else Now())
    {
      var left := Left();
      if left <= 0 { return []; }
      s := b[pos..];
      pos := |b|;
    }

    /** The loop over one text-protocol row. */
    method ReadTextRow() returns (vals: seq<Option<bytes>>)
      requires pos <= |b|
      modifies this
      ensures (vals, Now()) == TakeTextRow(b, old(Now()))
      ensures pos <= |b|
    {
      hide TakeLenEncString;
      vals := [];
      ghost var whole := TakeTextRow(b, Now());
      assert [] + whole.0 == whole.0;
      var left := Left();
      while left > 0 && err == None
        invariant pos <= |b| && left == Remaining(b, Now())
        invariant var rest := TakeTextRow(b, Now()); whole == (vals + rest.0, rest.1)
        decreases |b| - pos
      {
        AccessorsStayInside(b, Now(), 0);
        var s, isNull := ReadLenEncString();
        ghost var before := vals;
        ghost var cell := if isNull then None else Some(s);
        vals := vals + [if isNull then None else Some(s)];
        assert before + ([cell] + TakeTextRow(b, Now()).0) == vals + TakeTextRow(b, Now()).0;
        left := Left();
      }
      assert vals + [] == vals;
    }
  }
}
