/**
 The server's side of a dialogue, as the MySQL client/server protocol lays it out:
 each packet as it is sent, paired with the event it truly is. Pages "OK_Packet",
 "EOF_Packet", "ERR_Packet", "Text Resultset", "Binary Protocol Resultset Row" and
 "COM_STMT_PREPARE_OK" of the protocol documentation.
 */
module Frames {
  import opened Bytes
  import opened WireReader
  import opened BinaryRow
  import opened Decoder
  import opened Options

  /** One server packet and what it is. */
  datatype Frame = Frame(packet: bytes, event: Event)

  // ---- OK, EOF and ERR packets

  datatype OkInfo = OkInfo(affected: nat, lastInsert: nat, status: nat, warnings: nat, info: bytes) {
    predicate Fits() {
      affected < MAX_UINT64 && lastInsert < MAX_UINT64 && status < 0x1_0000 && warnings < 0x1_0000
    }
  }

  /** SERVER_MORE_RESULTS_EXISTS, 8, is set: another result follows. */
  predicate Announces(status: nat): (b: bool)
    ensures b <==> MoreResults(status)
  {
    status % 16 >= 8
  }

  function EncodeOk(header: byte, ok: OkInfo): (p: bytes)
    requires ok.Fits()
    ensures p != [] && p[0] == header
  {
    [header] + (LenEncInt(ok.affected) + (LenEncInt(ok.lastInsert)
      + (ToLE(ok.status, 2) + (ToLE(ok.warnings, 2) + ok.info))))
  }

  function OkMeaning(ok: OkInfo): Event {
    Plain(Ok).(affected := ok.affected, lastInsert := ok.lastInsert, status := ok.status, warnings := ok.warnings,
               info := TrimBlanks(ok.info))
  }

  lemma OkCounts(p: bytes, header: byte, ok: OkInfo, rest: bytes) returns (pos: nat)
    requires ok.affected < MAX_UINT64 && ok.lastInsert < MAX_UINT64
    requires p == [header] + (LenEncInt(ok.affected) + (LenEncInt(ok.lastInsert) + rest))
    ensures var (affected, _, c1) := TakeLenEncInt(p, TakeByte(p, Cursor(0, None)).1);
            affected == ok.affected && TakeLenEncInt(p, c1) == (ok.lastInsert, false, Cursor(pos, None))
    ensures pos <= |p| && p[pos..] == rest
  {
    hide TakeLenEncInt, LenEncInt;
    var e2 := LenEncInt(ok.lastInsert) + rest;
    var e1 := LenEncInt(ok.affected) + e2;
    ByteHead(p, 0, header, e1);
    LenEncIntHead(p, 1, ok.affected, e2);
    LenEncIntHead(p, 1 + |LenEncInt(ok.affected)|, ok.lastInsert, rest);
    pos := 1 + |LenEncInt(ok.affected)| + |LenEncInt(ok.lastInsert)|;
  }

  lemma OkRoundTrip(header: byte, ok: OkInfo)
    requires ok.Fits()
    ensures OkEvent(EncodeOk(header, ok)) == OkMeaning(ok)
  {
    hide TrimBlanks, TakeLenEncInt, TakeUint, LenEncInt, ToLE, TakeByte;
    Widths();
    var p := EncodeOk(header, ok);
    var e4 := ToLE(ok.warnings, 2) + ok.info;
    var pos := OkCounts(p, header, ok, ToLE(ok.status, 2) + e4);
    UintHead(p, pos, ok.status, 2, e4);
    UintHead(p, pos + 2, ok.warnings, 2, ok.info);
  }

  function EncodeEof(warnings: nat, status: nat): (p: bytes)
    ensures |p| == 5 && p[0] == 0xFE
  {
    [0xFE] + (ToLE(warnings, 2) + ToLE(status, 2))
  }

  lemma EofRoundTrip(warnings: nat, status: nat)
    requires warnings < 0x1_0000 && status < 0x1_0000
    ensures EofEvent(EncodeEof(warnings, status)) == Plain(Eof).(warnings := warnings, status := status)
  {
    Widths();
    var p := EncodeEof(warnings, status);
    ByteHead(p, 0, 0xFE, ToLE(warnings, 2) + ToLE(status, 2));
    UintHead(p, 1, warnings, 2, ToLE(status, 2));
    assert ToLE(status, 2) == ToLE(status, 2) + [];
    UintHead(p, 3, status, 2, []);
  }

  datatype ErrInfo = ErrInfo(code: nat, sqlState: bytes, message: bytes) {
    predicate Fits() { code < 0x1_0000 && |sqlState| == 5 }
  }

  function ErrFrame(e: ErrInfo): Frame {
    Frame([0xFF] + (ToLE(e.code, 2) + (['#' as int] + (e.sqlState + e.message))),
          Plain(Err).(errCode := e.code, sqlState := e.sqlState, errMessage := e.message))
  }

  lemma ErrRoundTrip(e: ErrInfo)
    requires e.Fits()
    ensures ErrEvent(ErrFrame(e).packet) == ErrFrame(e).event
  {
    Widths();
    var p := ErrFrame(e).packet;
    var tail := e.sqlState + e.message;
    ByteHead(p, 0, 0xFF, ToLE(e.code, 2) + (['#' as int] + tail));
    UintHead(p, 1, e.code, 2, ['#' as int] + tail);
    assert p[3] == p[3..][0];
    assert p[4..] == p[3..][1..] == tail;
    assert p[4..9] == tail[..5] == e.sqlState;
    assert p[9..] == tail[5..] == e.message;
  }

  // ---- column definitions

  datatype ColumnSpec = ColumnSpec(
    schema: bytes, table: bytes, orgTable: bytes, name: bytes, orgName: bytes,
    charset: nat, length: nat, typ: byte, flags: nat, decimals: byte)
  {
    predicate Fits() {
      && |schema| < MAX_UINT64 && |table| < MAX_UINT64 && |orgTable| < MAX_UINT64
      && |name| < MAX_UINT64 && |orgName| < MAX_UINT64
      && charset < 0x1_0000 && length < 0x1_0000_0000 && flags < 0x1_0000
    }

    /** What the decoder keeps of it. */
    function Def(): ColumnDef { ColumnDef(name, table, typ, flags) }
  }

  /** The catalog is always "def". */
  const DEF: bytes := [0x64, 0x65, 0x66]

  function ColumnTail(c: ColumnSpec): bytes
    requires c.Fits()
  {
    LenEncInt(0x0c) + (ToLE(c.charset, 2) + (ToLE(c.length, 4) + ([c.typ] + (ToLE(c.flags, 2) + [c.decimals, 0, 0]))))
  }

  function ColumnNamesPart(c: ColumnSpec): bytes
    requires c.Fits()
  {
    LenEncString(c.orgTable) + (LenEncString(c.name) + (LenEncString(c.orgName) + ColumnTail(c)))
  }

  function EncodeColumn(c: ColumnSpec): bytes
    requires c.Fits()
  {
    LenEncString(DEF) + (LenEncString(c.schema) + (LenEncString(c.table) + ColumnNamesPart(c)))
  }

  lemma ColumnStartsWithDef(c: ColumnSpec)
    requires c.Fits()
    ensures |EncodeColumn(c)| >= 9 && EncodeColumn(c)[0] == 3
  {
    assert LenEncInt(3) == [3];
    assert LenEncString(DEF)[0] == 3;
  }

  lemma ColumnTailRoundTrip(p: bytes, pos: nat, c: ColumnSpec)
    requires c.Fits() && pos <= |p| && p[pos..] == ColumnTail(c)
    ensures TakeColumnTail(p, Cursor(pos, None), c.name, c.table).0 == c.Def()
    ensures TakeColumnTail(p, Cursor(pos, None), c.name, c.table).1.err == None
  {
    Widths();
    var e4 := ToLE(c.flags, 2) + [c.decimals, 0, 0];
    var e3 := [c.typ] + e4;
    var e2 := ToLE(c.length, 4) + e3;
    var e1 := ToLE(c.charset, 2) + e2;
    assert LenEncInt(0x0c) == [0x0c];
    LenEncIntHead(p, pos, 0x0c, e1);
    UintHead(p, pos + 1, c.charset, 2, e2);
    UintHead(p, pos + 3, c.length, 4, e3);
    ByteHead(p, pos + 7, c.typ, e4);
    UintHead(p, pos + 8, c.flags, 2, [c.decimals, 0, 0]);
    assert [c.decimals, 0, 0] == [c.decimals] + [0, 0];
    FixedHead(p, pos + 10, [c.decimals], [0, 0]);
  }

  lemma FirstNames(p: bytes, c: ColumnSpec) returns (pos: nat)
    requires c.Fits() && p == EncodeColumn(c)
    ensures var c1 := TakeLenEncString(p, Cursor(0, None)).2;
            var c2 := TakeLenEncString(p, c1).2;
            TakeLenEncString(p, c2) == (c.table, false, Cursor(pos, None))
    ensures pos <= |p| && p[pos..] == ColumnNamesPart(c)
  {
    hide TakeLenEncString, LenEncString;
    var e2 := LenEncString(c.table) + ColumnNamesPart(c);
    var e1 := LenEncString(c.schema) + e2;
    assert p[0..] == p;
    LenEncStringHead(p, 0, DEF, e1);
    var p1 := |LenEncString(DEF)|;
    LenEncStringHead(p, p1, c.schema, e2);
    var p2 := p1 + |LenEncString(c.schema)|;
    LenEncStringHead(p, p2, c.table, ColumnNamesPart(c));
    pos := p2 + |LenEncString(c.table)|;
  }

  lemma LastNames(p: bytes, at: nat, c: ColumnSpec) returns (pos: nat)
    requires c.Fits() && at <= |p| && p[at..] == ColumnNamesPart(c)
    ensures var c4 := TakeLenEncString(p, Cursor(at, None)).2;
            TakeLenEncString(p, c4).0 == c.name
            && TakeLenEncString(p, TakeLenEncString(p, c4).2).2 == Cursor(pos, None)
    ensures pos < |p| && p[pos..] == ColumnTail(c)
  {
    hide TakeLenEncString, LenEncString;
    var e2 := LenEncString(c.orgName) + ColumnTail(c);
    var e1 := LenEncString(c.name) + e2;
    LenEncStringHead(p, at, c.orgTable, e1);
    var p1 := at + |LenEncString(c.orgTable)|;
    LenEncStringHead(p, p1, c.name, e2);
    var p2 := p1 + |LenEncString(c.name)|;
    LenEncStringHead(p, p2, c.orgName, ColumnTail(c));
    pos := p2 + |LenEncString(c.orgName)|;
    assert |p[pos..]| > 0;
  }

  /** `decodeColumnDef` recovers name, table, type and flags of every column definition. */
  lemma ColumnRoundTrip(c: ColumnSpec)
    requires c.Fits()
    ensures var r := TakeColumnDef(EncodeColumn(c), Cursor(0, None)); r.0 == c.Def() && r.1.err == None
  {
    var p := EncodeColumn(c);
    var at := FirstNames(p, c);
    var pos := LastNames(p, at, c);
    ColumnTailRoundTrip(p, pos, c);
  }

  // ---- frames

  function OkFrame(ok: OkInfo): Frame
    requires ok.Fits()
  {
    Frame(EncodeOk(0x00, ok), OkMeaning(ok))
  }

  function DefFrame(c: ColumnSpec): Frame
    requires c.Fits()
  {
    Frame(EncodeColumn(c), Plain(ColumnDefinition).(def := Some(c.Def())))
  }

  /** What an EOF packet says; the decoder keeps it of the one that ends the rows. */
  datatype EofInfo = EofInfo(warnings: nat, status: nat) {
    predicate Fits() { warnings < 0x1_0000 && status < 0x1_0000 }
  }

  /** The EOF packet that ends a block of definitions. */
  function BlockEnd(eof: EofInfo): Frame { Frame(EncodeEof(eof.warnings, eof.status), Plain(Eof)) }

  predicate AllFit(cols: seq<ColumnSpec>) { forall i :: 0 <= i < |cols| ==> cols[i].Fits() }

  function Defs(cols: seq<ColumnSpec>): (d: seq<ColumnDef>)
    ensures |d| == |cols|
  {
    seq(|cols|, i requires 0 <= i < |cols| => cols[i].Def())
  }

  function DefFrames(cols: seq<ColumnSpec>): (f: seq<Frame>)
    requires AllFit(cols)
    ensures |f| == |cols|
  {
    seq(|cols|, i requires 0 <= i < |cols| => DefFrame(cols[i]))
  }

  /** A result set: `end` closes it, as an OK packet under the EOF header when the
      connection deprecates EOF and as a plain EOF packet otherwise. `defsEnd` is the EOF packet
      after the column definitions, sent in the latter case only. */
  datatype ResultSet = ResultSet(columns: seq<ColumnSpec>, defsEnd: EofInfo, rows: seq<seq<Cell>>, end: OkInfo)

  predicate TextCellFits(c: Cell) { c.Null? || (c.Text? && |c.text| < MAX_UINT64) }

  function TextOption(c: Cell): Option<bytes> { if c.Text? then Some(c.text) else None }

  function TextOptions(cells: seq<Cell>): (o: seq<Option<bytes>>)
    ensures |o| == |cells|
  {
    seq(|cells|, i requires 0 <= i < |cells| => TextOption(cells[i]))
  }

  predicate CellsFit(binary: bool, defs: seq<ColumnDef>, cells: seq<Cell>) {
    if binary then RowFits(defs, cells)
    else |cells| == |defs| && forall i :: 0 <= i < |cells| ==> TextCellFits(cells[i])
  }

  function RowBytes(binary: bool, defs: seq<ColumnDef>, cells: seq<Cell>): bytes
    requires CellsFit(binary, defs, cells)
  {
    if binary then EncodeBinaryRow(defs, cells) else EncodeTextRow(TextOptions(cells))
  }

  function RowFrame(binary: bool, defs: seq<ColumnDef>, cells: seq<Cell>, ordinal: nat): Frame
    requires CellsFit(binary, defs, cells)
  {
    Frame(RowBytes(binary, defs, cells),
          Plain(Row).(values := cells, columns := ColumnNames(defs), count := ordinal))
  }

  predicate ResultSetFits(binary: bool, rs: ResultSet) {
    && 0 < |rs.columns| < 0x8000_0000_0000_0000
    && AllFit(rs.columns)
    && rs.defsEnd.Fits() && rs.end.Fits()
    && forall j :: 0 <= j < |rs.rows| ==> CellsFit(binary, Defs(rs.columns), rs.rows[j])
  }

  function HeaderFrame(n: nat): Frame
    requires n < MAX_UINT64
  {
    Frame(LenEncInt(n), Plain(ResultSetHeader).(count := n))
  }

  function RowFrames(binary: bool, defs: seq<ColumnDef>, rows: seq<seq<Cell>>): (f: seq<Frame>)
    requires forall j :: 0 <= j < |rows| ==> CellsFit(binary, defs, rows[j])
    ensures |f| == |rows|
  {
    seq(|rows|, j requires 0 <= j < |rows| => RowFrame(binary, defs, rows[j], j + 1))
  }

  /** The terminator says how many rows were sent, whichever packet carries it. */
  function EndFrame(dep: bool, rs: ResultSet): Frame
    requires rs.end.Fits()
  {
    var names := ColumnNames(Defs(rs.columns));
    if dep then
      Frame(EncodeOk(0xFE, rs.end), OkMeaning(rs.end).(count := |rs.rows|, columns := names))
    else
      Frame(EncodeEof(rs.end.warnings, rs.end.status),
            Plain(Eof).(warnings := rs.end.warnings, status := rs.end.status, count := |rs.rows|, columns := names))
  }

  function Heading(dep: bool, rs: ResultSet): seq<Frame>
    requires 0 < |rs.columns| < MAX_UINT64 && AllFit(rs.columns)
  {
    [HeaderFrame(|rs.columns|)] + (DefFrames(rs.columns) + if dep then [] else [BlockEnd(rs.defsEnd)])
  }

  function ResultSetFrames(dep: bool, binary: bool, rs: ResultSet): seq<Frame>
    requires ResultSetFits(binary, rs)
  {
    Heading(dep, rs) + (RowFrames(binary, Defs(rs.columns), rs.rows) + [EndFrame(dep, rs)])
  }

  function PrepareOkFrame(id: nat, sql: bytes, params: nat, cols: nat, warnings: nat): Frame {
    Frame([0x00] + (ToLE(id, 4) + (ToLE(cols, 2) + (ToLE(params, 2) + ([0x00] + ToLE(warnings, 2))))),
          Plain(PrepareOk).(query := sql, warnings := warnings, stmtId := id, params := params, count := cols))
  }

  /** One metadata block of a prepare response, and the EOF packet that ends it. */
  function Block(dep: bool, cols: seq<ColumnSpec>, eof: EofInfo): seq<Frame>
    requires AllFit(cols)
  {
    DefFrames(cols) + if dep || cols == [] then [] else [BlockEnd(eof)]
  }
}
