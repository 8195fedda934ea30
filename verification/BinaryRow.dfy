/**
 Binary-protocol result rows (internal/wire/decode.go, decodeBinaryRow and
 decodeBinaryValue): a NULL bitmap offset by two bits, then one typed value per
 column that is not NULL. The encoder is the one of the protocol's "Binary Protocol
 Resultset Row" page.
 */
module BinaryRow {
  import opened Bytes
  import opened Options
  import opened WireReader

  datatype ColumnDef = ColumnDef(name: bytes, table: bytes, typ: byte, flags: nat) {
    predicate Unsigned() { (flags / 0x20) % 2 == 1 }
  }

  /** A decoded value before it is formatted: floats and moments keep their raw bytes. */
  datatype Cell =
    | Null
    | Number(value: int)
    | Float(raw: bytes)
    | Moment(raw: bytes)
    | OddMoment(length: nat)
    | Text(text: bytes)

  datatype Width = Ints(n: nat) | Floats(n: nat) | NullType | Dates | Times | Strings

  /** How a column type is laid out on the wire. */
  function WidthOf(typ: byte): Width {
    if typ == 0x01 then Ints(1)
    else if typ == 0x02 || typ == 0x0d then Ints(2)
    else if typ == 0x03 || typ == 0x09 then Ints(4)
    else if typ == 0x08 then Ints(8)
    else if typ == 0x04 then Floats(4)
    else if typ == 0x05 then Floats(8)
    else if typ == 0x06 then NullType
    else if typ == 0x0a || typ == 0x0c || typ == 0x07 then Dates
    else if typ == 0x0b then Times
    else Strings
  }

  // ---- decoding, as steps on a cursor

  function ReadInt(v: nat, n: nat, col: ColumnDef): Cell {
    Number(if col.Unsigned() then v else Signed(v, n))
  }

  function TakeMoment(b: bytes, c: Cursor, lengths: set<nat>): (Cell, Cursor) {
    var (n, c1) := TakeByte(b, c);
    if n == 0 then (Moment([]), c1)
    else
      var (s, c2) := TakeFixed(b, c1, n);
      (if n !in lengths then OddMoment(n) else if s.None? then Text([]) else Moment(s.value), c2)
  }

  const DATE_LENGTHS: set<nat> := {4, 7, 11}
  const TIME_LENGTHS: set<nat> := {8, 12}

  function TakeValue(b: bytes, c: Cursor, col: ColumnDef): (Cell, Cursor) {
    match WidthOf(col.typ)
    case Ints(n) =>
      if n == 1 then
        var (v, c1) := TakeByte(b, c);
        (ReadInt(v, 1, col), c1)
      else if n == 8 then
        var (s, c1) := TakeFixed(b, c, 8);
        (if s.None? then Text([]) else ReadInt(FromLE(s.value), 8, col), c1)
      else
        var (v, c1) := TakeUint(b, c, n);
        (ReadInt(v, n, col), c1)
    case Floats(n) =>
      var (s, c1) := TakeFixed(b, c, n);
      (if s.None? then Text([]) else Float(s.value), c1)
    case NullType => (Null, c)
    case Dates => TakeMoment(b, c, DATE_LENGTHS)
    case Times => TakeMoment(b, c, TIME_LENGTHS)
    case Strings =>
      var (s, isNull, c1) := TakeLenEncString(b, c);
      (if isNull then Null else Text(s), c1)
  }

  function BitmapLength(columns: nat): nat { (columns + 7 + 2) / 8 }

  /** Bit j of x, that is x & (1 << j) != 0. */
  predicate Bit(x: nat, j: nat) {
    if j == 0 then x % 2 == 1 else Bit(x / 2, j - 1)
  }

  /** Column i's NULL flag: the first two bits of the bitmap are reserved. */
  predicate IsNull(bitmap: bytes, i: nat)
    requires (i + 2) / 8 < |bitmap|
  {
    Bit(bitmap[(i + 2) / 8], (i + 2) % 8)
  }

  function TakeCells(b: bytes, c: Cursor, cols: seq<ColumnDef>, bitmap: bytes, i: nat): (seq<Cell>, Cursor)
    requires i <= |cols| && |bitmap| == BitmapLength(|cols|)
    decreases |cols| - i
  {
    if i == |cols| then ([], c)
    else if IsNull(bitmap, i) then
      var (rest, c1) := TakeCells(b, c, cols, bitmap, i + 1);
      ([Null] + rest, c1)
    else
      var (v, c1) := TakeValue(b, c, cols[i]);
      if c1.err.Some? then ([v], c1)
      else
        var (rest, c2) := TakeCells(b, c1, cols, bitmap, i + 1);
        ([v] + rest, c2)
  }

  function TakeBinaryRow(b: bytes, c: Cursor, cols: seq<ColumnDef>): (seq<Cell>, Cursor) {
    var (_, c1) := TakeByte(b, c);
    var (bitmap, c2) := TakeFixed(b, c1, BitmapLength(|cols|));
    if bitmap.None? then ([], c2) else TakeCells(b, c2, cols, bitmap.value, 0)
  }

  // ---- the encoder

  /** The protocol's table of binary values: which layout each column type has. */
  function LayoutOf(typ: byte): Width {
    match typ
    case 0x01 => Ints(1)
    case 0x02 | 0x0d => Ints(2)
    case 0x03 | 0x09 => Ints(4)
    case 0x08 => Ints(8)
    case 0x04 => Floats(4)
    case 0x05 => Floats(8)
    case 0x06 => NullType
    case 0x07 | 0x0a | 0x0c => Dates
    case 0x0b => Times
    case _ => Strings
  }

  /** UNSIGNED_FLAG of the protocol's column definition flags, 32. */
  predicate IsUnsigned(flags: nat) { flags % 64 >= 32 }

  /** The decoder's switch and flag are those of the protocol. */
  lemma ReadsTheProtocol(col: ColumnDef)
    ensures WidthOf(col.typ) == LayoutOf(col.typ)
    ensures col.Unsigned() <==> IsUnsigned(col.flags)
  {
  }

  /** The values a column of this type can carry. NULL is carried by the bitmap. */
  predicate Fits(col: ColumnDef, cell: Cell) {
    cell.Null? ||
    match LayoutOf(col.typ)
    case Ints(n) =>
      && cell.Number?
      && (if IsUnsigned(col.flags) then 0 <= cell.value < Pow256(n)
          else 0 <= 2 * cell.value + Pow256(n) && 2 * cell.value < Pow256(n))
    case Floats(n) => cell.Float? && |cell.raw| == n
    case NullType => false
    case Dates => cell.Moment? && (cell.raw == [] || |cell.raw| == 4 || |cell.raw| == 7 || |cell.raw| == 11)
    case Times => cell.Moment? && (cell.raw == [] || |cell.raw| == 8 || |cell.raw| == 12)
    case Strings => cell.Text? && |cell.text| < MAX_UINT64
  }

  predicate RowFits(cols: seq<ColumnDef>, cells: seq<Cell>) {
    |cells| == |cols| && forall i :: 0 <= i < |cols| ==> Fits(cols[i], cells[i])
  }

  function EncodeValue(col: ColumnDef, cell: Cell): bytes
    requires Fits(col, cell) && !cell.Null?
  {
    match cell
    case Number(v) => ToLE(Wrap(v, LayoutOf(col.typ).n), LayoutOf(col.typ).n)
    case Float(raw) => raw
    case Moment(raw) => [|raw|] + raw
    case Text(s) => LenEncString(s)
  }

  function NullBit(cells: seq<Cell>, i: int): (r: nat)
    ensures r <= 1
  {
    if 0 <= i < |cells| && cells[i].Null? then 1 else 0
  }

  function Pow2(n: nat): nat { if n == 0 then 1 else 2 * Pow2(n - 1) }

  /** n flags from position `at`, lowest bit first. */
  function Pack(cells: seq<Cell>, at: int, n: nat): (r: nat)
    ensures r < Pow2(n)
    decreases n, at
  {
    if n == 0 then 0 else NullBit(cells, at) + 2 * Pack(cells, at + 1, n - 1)
  }

  function BitmapByte(cells: seq<Cell>, k: nat): byte {
    assert Pow2(8) == 256;
    Pack(cells, 8 * k - 2, 8)
  }

  /** The bitmap has room for two reserved bits and one for each column, and no byte more. */
  lemma BitmapLengthIs(columns: nat)
    ensures 8 * BitmapLength(columns) - 8 < columns + 2 <= 8 * BitmapLength(columns)
  {
  }

  function EncodeBitmap(cells: seq<Cell>): (e: bytes)
    ensures |e| == BitmapLength(|cells|)
  {
    seq(BitmapLength(|cells|), k requires 0 <= k => BitmapByte(cells, k))
  }

  function EncodeValues(cols: seq<ColumnDef>, cells: seq<Cell>, i: nat): bytes
    requires RowFits(cols, cells) && i <= |cols|
    decreases |cols| - i
  {
    if i == |cols| then []
    else (if cells[i].Null? then [] else EncodeValue(cols[i], cells[i])) + EncodeValues(cols, cells, i + 1)
  }

  function EncodeBinaryRow(cols: seq<ColumnDef>, cells: seq<Cell>): bytes
    requires RowFits(cols, cells)
  {
    [0x00] + (EncodeBitmap(cells) + EncodeValues(cols, cells, 0))
  }

  // ---- round trips

  lemma {:induction false} PackedBit(cells: seq<Cell>, at: int, n: nat, j: nat)
    requires j < n
    ensures Bit(Pack(cells, at, n), j) <==> NullBit(cells, at + j) == 1
    decreases j
  {
    assert Pack(cells, at, n) / 2 == Pack(cells, at + 1, n - 1);
    if j > 0 { PackedBit(cells, at + 1, n - 1, j - 1); }
  }

  /** Every pattern of NULLs is read back from the bitmap. */
  lemma BitmapRoundTrip(cells: seq<Cell>, i: nat)
    requires i < |cells|
    ensures IsNull(EncodeBitmap(cells), i) <==> cells[i].Null?
  {
    var k := (i + 2) / 8;
    assert 8 * k - 2 + (i + 2) % 8 == i;
    PackedBit(cells, 8 * k - 2, 8, (i + 2) % 8);
    assert EncodeBitmap(cells)[k] == BitmapByte(cells, k);
  }

  lemma SignedRoundTrip(v: int, n: nat)
    requires 0 <= 2 * v + Pow256(n) && 2 * v < Pow256(n)
    ensures Wrap(v, n) < Pow256(n) && Signed(Wrap(v, n), n) == v
  {
  }

  lemma IntRoundTrip(b: bytes, pos: nat, col: ColumnDef, v: int, rest: bytes)
    requires LayoutOf(col.typ).Ints? && Fits(col, Number(v))
    requires pos <= |b| && b[pos..] == EncodeValue(col, Number(v)) + rest
    ensures TakeValue(b, Cursor(pos, None), col) == (Number(v), Cursor(pos + LayoutOf(col.typ).n, None))
    ensures pos + LayoutOf(col.typ).n <= |b| && b[pos + LayoutOf(col.typ).n..] == rest
  {
    hide WidthOf, LayoutOf;
    ReadsTheProtocol(col);
    var n := LayoutOf(col.typ).n;
    var w := Wrap(v, n);
    if !col.Unsigned() { SignedRoundTrip(v, n); }
    UintHead(b, pos, w, n, rest);
    assert ReadInt(w, n, col) == Number(v);
    if n == 1 {
      TakeOneByte(b, pos, w, rest);
    }
  }

  lemma TakeOneByte(b: bytes, pos: nat, v: nat, rest: bytes)
    requires v < Pow256(1) && pos <= |b| && b[pos..] == ToLE(v, 1) + rest
    ensures TakeByte(b, Cursor(pos, None)) == (v, Cursor(pos + 1, None))
  {
    assert Pow256(1) == 256 * Pow256(0);
    assert ToLE(v, 1) == [v % 256] + ToLE(v / 256, 0) == [v];
    ByteHead(b, pos, v, rest);
  }

  lemma MomentRoundTrip(b: bytes, pos: nat, raw: bytes, rest: bytes, lengths: set<nat>)
    requires raw == [] || |raw| in lengths
    requires |raw| < 256 && pos <= |b| && b[pos..] == ([|raw|] + raw) + rest
    ensures TakeMoment(b, Cursor(pos, None), lengths) == (Moment(raw), Cursor(pos + 1 + |raw|, None))
    ensures pos + 1 + |raw| <= |b| && b[pos + 1 + |raw|..] == rest
  {
    assert ([|raw|] + raw) + rest == [|raw|] + (raw + rest);
    ByteHead(b, pos, |raw|, raw + rest);
    FixedHead(b, pos + 1, raw, rest);
  }

  lemma StringRoundTrip(b: bytes, pos: nat, col: ColumnDef, s: bytes, rest: bytes)
    requires LayoutOf(col.typ).Strings? && |s| < MAX_UINT64
    requires pos <= |b| && b[pos..] == LenEncString(s) + rest
    ensures TakeValue(b, Cursor(pos, None), col) == (Text(s), Cursor(pos + |LenEncString(s)|, None))
    ensures pos + |LenEncString(s)| <= |b| && b[pos + |LenEncString(s)|..] == rest
  {
    ReadsTheProtocol(col);
    LenEncStringHead(b, pos, s, rest);
  }

  /** `decodeBinaryValue` undoes the encoding of every value of every type. */
  lemma ValueRoundTrip(b: bytes, pos: nat, col: ColumnDef, cell: Cell, enc: bytes, rest: bytes)
    requires Fits(col, cell) && !cell.Null? && enc == EncodeValue(col, cell)
    requires pos <= |b| && b[pos..] == enc + rest
    ensures TakeValue(b, Cursor(pos, None), col) == (cell, Cursor(pos + |enc|, None))
    ensures pos + |enc| <= |b| && b[pos + |enc|..] == rest
  {
    hide WidthOf, LayoutOf, LenEncString;
    ReadsTheProtocol(col);
    var width := LayoutOf(col.typ);
    if width.Ints? {
      IntRoundTrip(b, pos, col, cell.value, rest);
    } else if width.Floats? {
      FixedHead(b, pos, cell.raw, rest);
    } else if width.Dates? {
      MomentRoundTrip(b, pos, cell.raw, rest, DATE_LENGTHS);
    } else if width.Times? {
      MomentRoundTrip(b, pos, cell.raw, rest, TIME_LENGTHS);
    } else {
      StringRoundTrip(b, pos, col, cell.text, rest);
    }
  }

  lemma TakeCellsStep(b: bytes, c: Cursor, cols: seq<ColumnDef>, cells: seq<Cell>,
                      bitmap: bytes, i: nat, c1: Cursor, c2: Cursor)
    requires |cells| == |cols| && i < |cols| && |bitmap| == BitmapLength(|cols|)
    requires IsNull(bitmap, i) <==> cells[i].Null?
    requires if cells[i].Null? then c1 == c else TakeValue(b, c, cols[i]) == (cells[i], c1) && c1.err.None?
    requires TakeCells(b, c1, cols, bitmap, i + 1) == (cells[i + 1..], c2)
    ensures TakeCells(b, c, cols, bitmap, i) == (cells[i..], c2)
  {
    assert cells[i..] == [cells[i]] + cells[i + 1..];
  }

  /** The bitmap flags exactly the NULL cells. */
  ghost predicate Flags(bitmap: bytes, cells: seq<Cell>) {
    && |bitmap| == BitmapLength(|cells|)
    && forall i: nat :: i < |cells| ==> (IsNull(bitmap, i) <==> cells[i].Null?)
  }

  lemma {:induction false} CellsRoundTrip(b: bytes, pos: nat, cols: seq<ColumnDef>, cells: seq<Cell>,
                                       bitmap: bytes, i: nat)
    requires RowFits(cols, cells) && i <= |cols| && pos <= |b| && Flags(bitmap, cells)
    requires b[pos..] == EncodeValues(cols, cells, i)
    ensures TakeCells(b, Cursor(pos, None), cols, bitmap, i) == (cells[i..], Cursor(|b|, None))
    decreases |cols| - i
  {
    if i < |cols| {
      var rest := EncodeValues(cols, cells, i + 1);
      var pos' := CellRoundTrip(b, pos, cols[i], cells[i], rest);
      CellsRoundTrip(b, pos', cols, cells, bitmap, i + 1);
      TakeCellsStep(b, Cursor(pos, None), cols, cells, bitmap, i, Cursor(pos', None), Cursor(|b|, None));
    } else {
      assert |b[pos..]| == 0 && cells[i..] == [];
    }
  }

  lemma CellRoundTrip(b: bytes, pos: nat, col: ColumnDef, cell: Cell, rest: bytes) returns (pos': nat)
    requires Fits(col, cell) && pos <= |b|
    requires b[pos..] == (if cell.Null? then [] else EncodeValue(col, cell)) + rest
    ensures pos' <= |b| && b[pos'..] == rest
    ensures if cell.Null? then pos' == pos else TakeValue(b, Cursor(pos, None), col) == (cell, Cursor(pos', None))
  {
    if cell.Null? {
      assert [] + rest == rest;
      pos' := pos;
    } else {
      var enc := EncodeValue(col, cell);
      ValueRoundTrip(b, pos, col, cell, enc, rest);
      pos' := pos + |enc|;
    }
  }

  /** `decodeBinaryRow` undoes the row encoding for every column list and every pattern of
      NULLs, and consumes the payload exactly. */
  lemma BinaryRowRoundTrip(cols: seq<ColumnDef>, cells: seq<Cell>)
    requires RowFits(cols, cells)
    ensures var b := EncodeBinaryRow(cols, cells);
            TakeBinaryRow(b, Cursor(0, None), cols) == (cells, Cursor(|b|, None))
  {
    var b := EncodeBinaryRow(cols, cells);
    var bitmap, values := EncodeBitmap(cells), EncodeValues(cols, cells, 0);
    ByteHead(b, 0, 0x00, bitmap + values);
    FixedHead(b, 1, bitmap, values);
    forall i: nat | i < |cells| ensures IsNull(bitmap, i) <==> cells[i].Null? { BitmapRoundTrip(cells, i); }
    CellsRoundTrip(b, 1 + |bitmap|, cols, cells, bitmap, 0);
    assert cells[0..] == cells;
  }

  /** Dates of 4, 7 and 11 bytes and times of 8 and 12 are read; of any other length only that is said,
      and the value is passed over. */
  lemma MomentsByLength(b: bytes, pos: nat, col: ColumnDef)
    requires col.typ in {0x07, 0x0a, 0x0b, 0x0c} && pos < |b| && 0 < b[pos] && pos + 1 + b[pos] <= |b|
    ensures var n, end := b[pos], Cursor(pos + 1 + b[pos], None);
            var known := if col.typ == 0x0b then n in {8, 12} else n in {4, 7, 11};
            TakeValue(b, Cursor(pos, None), col)
              == (if known then Moment(b[pos + 1..pos + 1 + n]) else OddMoment(n), end)
  {
    ReadsTheProtocol(col);
  }

  /** The values up to the first that cannot be read, whose error is the row's. */
  lemma {:induction false} RowStopsAtError(b: bytes, c: Cursor, cols: seq<ColumnDef>, bitmap: bytes, i: nat)
    requires i <= |cols| && |bitmap| == BitmapLength(|cols|) && c.err.None?
    ensures var (vals, end) := TakeCells(b, c, cols, bitmap, i);
            if end.err.None? then |vals| == |cols| - i
            else 0 < |vals| <= |cols| - i && FailsAt(b, cols[i + |vals| - 1], vals[|vals| - 1], end)
    decreases |cols| - i
  {
    hide TakeValue;
    if i < |cols| {
      if IsNull(bitmap, i) {
        RowStopsAtError(b, c, cols, bitmap, i + 1);
      } else {
        var (v, c1) := TakeValue(b, c, cols[i]);
        if c1.err.None? {
          RowStopsAtError(b, c1, cols, bitmap, i + 1);
        } else {
          assert FailsAt(b, cols[i], v, c1);
        }
      }
    }
  }

  /** Reading a column's value without an error before it ended in this one. */
  ghost predicate FailsAt(b: bytes, col: ColumnDef, v: Cell, end: Cursor) {
    exists c: Cursor :: c.err.None? && end.err.Some? && TakeValue(b, c, col) == (v, end)
  }

  // ---- the decoder as the source has it

  method DecodeMoment(r: Reader, lengths: set<nat>) returns (cell: Cell)
    modifies r
    ensures (cell, r.Now()) == TakeMoment(r.b, old(r.Now()), lengths)
  {
    var n := r.Byte();
    if n == 0 { return Moment([]); }
    var s := r.Fixed(n);
    cell := if n !in lengths then OddMoment(n) else if s == None then Text([]) else Moment(s.value);
  }

  method DecodeBinaryValue(r: Reader, col: ColumnDef) returns (cell: Cell)
    modifies r
    ensures (cell, r.Now()) == TakeValue(r.b, old(r.Now()), col)
  {
    match WidthOf(col.typ)
    case Ints(n) =>
      if n == 1 {
        var v := r.Byte();
        cell := ReadInt(v, 1, col);
      } else if n == 8 {
        var s := r.Fixed(8);
        cell := if s == None then Text([]) else ReadInt(FromLE(s.value), 8, col);
      } else {
        var v := r.Uint(n);
        cell := ReadInt(v, n, col);
      }
    case Floats(n) =>
      var s := r.Fixed(n);
      cell := if s == None then Text([]) else Float(s.value);
    case NullType => cell := Null;
    case Dates => cell := DecodeMoment(r, DATE_LENGTHS);
    case Times => cell := DecodeMoment(r, TIME_LENGTHS);
    case Strings =>
      var s, isNull := r.ReadLenEncString();
      cell := if isNull then Null else Text(s);
  }

  /** The loop over the columns; indexing the bitmap is in bounds for every column. */
  method DecodeBinaryRow(r: Reader, cols: seq<ColumnDef>) returns (vals: seq<Cell>, err: Option<ReadError>)
    modifies r
    ensures (vals, r.Now()) == TakeBinaryRow(r.b, old(r.Now()), cols)
    ensures old(r.err) == None ==> err == r.err
  {
    hide TakeValue, IsNull;
    var _ := r.Byte();
    var bitmap := r.Fixed(BitmapLength(|cols|));
    if bitmap == None { return [], r.err; }
    vals := [];
    ghost var whole := TakeCells(r.b, r.Now(), cols, bitmap.value, 0);
    assert [] + whole.0 == whole.0;
    for i := 0 to |cols|
      invariant var rest := TakeCells(r.b, r.Now(), cols, bitmap.value, i); whole == (vals + rest.0, rest.1)
      invariant old(r.err) == None ==> r.err == None
    {
      ghost var before, c := vals, r.Now();
      if IsNull(bitmap.value, i) {
        vals := vals + [Null];
        assert before + ([Null] + TakeCells(r.b, c, cols, bitmap.value, i + 1).0)
            == vals + TakeCells(r.b, c, cols, bitmap.value, i + 1).0;
      } else {
        var v := DecodeBinaryValue(r, cols[i]);
        vals := vals + [v];
        if r.err != None {
          return vals, r.err;
        }
        assert before + ([v] + TakeCells(r.b, r.Now(), cols, bitmap.value, i + 1).0)
            == vals + TakeCells(r.b, r.Now(), cols, bitmap.value, i + 1).0;
      }
    }
    assert vals + [] == vals;
    err := None;
  }
}
