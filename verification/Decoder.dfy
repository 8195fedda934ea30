/**
 The command-phase protocol state machine (internal/wire/decode.go).

 `OnCommand` and `OnResponse` say what one forwarded packet does to the connection's
 state and which event it becomes; the class `ConnDecoder` holds the source's fields
 and is proved to do exactly that. The dialogues themselves are in Dialogue.dfy.
 */
module Decoder {
  import opened Bytes
  import opened WireReader
  import opened BinaryRow
  import opened Options

  const COM_QUIT: byte := 0x01
  const COM_INIT_DB: byte := 0x02
  const COM_QUERY: byte := 0x03
  const COM_PING: byte := 0x0e
  const COM_STMT_PREPARE: byte := 0x16
  const COM_STMT_EXECUTE: byte := 0x17
  const COM_STMT_CLOSE: byte := 0x19
  const COM_STMT_RESET: byte := 0x1a
  const COM_RESET_CONNECTION: byte := 0x1f

  datatype Phase = RespNone | RespFirst | RespPrepareParams | RespPrepareColumns | RespColumnDefs | RespRows

  datatype Kind =
    | EmptyPacket | Continuation | Command(code: byte)
    | Err | Ok | Eof | PrepareOk | LocalInfile
    | ResultSetHeader | ColumnDefinition | Row | Unsolicited

  /** A decoded packet. `count` is the number its summary reports: the column count of a header or
      a prepared statement, the ordinal of a row, the row total of a terminator. `stmtId` is the
      statement a command or a prepare response is about, `params` its number of parameters. `info` is
      the text of an OK packet, or the database a command names. */
  datatype Event = Event(
    kind: Kind, query: bytes, errCode: nat, sqlState: bytes, errMessage: bytes,
    affected: nat, lastInsert: nat, warnings: nat, status: nat,
    columns: seq<bytes>, values: seq<Cell>, def: Option<ColumnDef>,
    count: nat, stmtId: nat, params: nat, info: bytes, decodeErr: Option<ReadError>)

  function Plain(kind: Kind): Event {
    Event(kind, [], 0, [], [], 0, 0, 0, 0, [], [], None, 0, 0, 0, [], None)
  }

  datatype State = State(
    phase: Phase, lastCommand: byte,
    columnsWanted: int, columnsSeen: nat, paramsWanted: int, paramsSeen: nat,
    columns: seq<ColumnDef>, rowCount: nat, awaitColumnEOF: bool,
    stmts: map<nat, bytes>, pendingPrep: bytes)

  predicate MoreResults(status: nat) { (status / 8) % 2 == 1 }

  /** Go's int(n) of a uint64. */
  function ToInt(n: nat): int {
    if n < 0x8000_0000_0000_0000 then n else n - MAX_UINT64
  }

  function ColumnNames(cols: seq<ColumnDef>): (names: seq<bytes>)
    ensures |names| == |cols|
  {
    seq(|cols|, i requires 0 <= i < |cols| => cols[i].name)
  }

  function TextCell(v: Option<bytes>): Cell { if v.None? then Null else Text(v.value) }

  function TextCells(vals: seq<Option<bytes>>): (cells: seq<Cell>)
    ensures |cells| == |vals|
  {
    seq(|vals|, i requires 0 <= i < |vals| => TextCell(vals[i]))
  }

  // ---- one client packet

  function OnCommand(s: State, seqId: byte, p: bytes): (State, Event) {
    if p == [] then (s, Plain(EmptyPacket))
    else if seqId != 0 then (s, Plain(Continuation))
    else
      var cmd := p[0];
      var s0 := s.(lastCommand := cmd);
      var e := Plain(Command(cmd));
      var id := TakeUint(p, Cursor(1, None), 4).0;
      if cmd == COM_QUERY then (s0.(phase := RespFirst), e.(query := p[1..]))
      else if cmd == COM_STMT_PREPARE then (s0.(phase := RespFirst, pendingPrep := p[1..]), e.(query := p[1..]))
      else if cmd == COM_STMT_EXECUTE then
        (s0.(phase := RespFirst), e.(query := if id in s.stmts then s.stmts[id] else [], stmtId := id))
      else if cmd == COM_STMT_CLOSE then (s0.(phase := RespNone, stmts := s.stmts - {id}), e.(stmtId := id))
      else if cmd == COM_STMT_RESET then (s0.(phase := RespFirst), e.(stmtId := id))
      else if cmd == COM_INIT_DB then (s0.(phase := RespFirst), e.(info := p[1..]))
      else if cmd == COM_QUIT then (s0.(phase := RespNone), e)
      else (s0.(phase := RespFirst), e)
  }

  // ---- one server packet

  function ResetResult(s: State): State {
    s.(phase := RespNone, columnsWanted := 0, columnsSeen := 0, paramsWanted := 0, paramsSeen := 0,
       awaitColumnEOF := false)
  }

  function ErrEvent(p: bytes): Event {
    var (_, c0) := TakeByte(p, Cursor(0, None));
    var (code, c1) := TakeUint(p, c0, 2);
    if Remaining(p, c1) >= 6 && p[c1.pos] == '#' as int then
      Plain(Err).(errCode := code, sqlState := p[c1.pos + 1..c1.pos + 6], errMessage := p[c1.pos + 6..])
    else Plain(Err).(errCode := code, errMessage := if c1.pos < |p| then p[c1.pos..] else [])
  }

  function OkEvent(p: bytes): Event {
    var (_, c0) := TakeByte(p, Cursor(0, None));
    var (affected, _, c1) := TakeLenEncInt(p, c0);
    var (lastInsert, _, c2) := TakeLenEncInt(p, c1);
    var (status, c3) := TakeUint(p, c2, 2);
    var (warnings, c4) := TakeUint(p, c3, 2);
    Plain(Ok).(affected := affected, lastInsert := lastInsert, status := status, warnings := warnings,
               info := TrimBlanks(if c4.pos < |p| then p[c4.pos..] else []))
  }

  function AfterOk(s: State, status: nat): State {
    if MoreResults(status) then s.(phase := RespFirst) else ResetResult(s)
  }

  function TakeColumnDef(b: bytes, c: Cursor): (ColumnDef, Cursor) {
    var c1 := TakeLenEncString(b, c).2;
    var c2 := TakeLenEncString(b, c1).2;
    var (table, _, c3) := TakeLenEncString(b, c2);
    var c4 := TakeLenEncString(b, c3).2;
    var (name, _, c5) := TakeLenEncString(b, c4);
    var c6 := TakeLenEncString(b, c5).2;
    if Remaining(b, c6) < 1 then (ColumnDef(name, table, 0, 0), c6)
    else TakeColumnTail(b, c6, name, table)
  }

  function TakeColumnTail(b: bytes, c: Cursor, name: bytes, table: bytes): (ColumnDef, Cursor) {
    var c1 := TakeLenEncInt(b, c).2;
    var c2 := TakeFixed(b, c1, 2).1;
    var c3 := TakeFixed(b, c2, 4).1;
    var (typ, c4) := TakeByte(b, c3);
    var (flags, c5) := TakeUint(b, c4, 2);
    (ColumnDef(name, table, typ, flags), TakeFixed(b, c5, 1).1)
  }

  predicate IsEofPacket(p: bytes) { 0 < |p| < 9 && p[0] == 0xFE }

  function OnPrepareOk(s: State, p: bytes): (State, Event) {
    var (_, c0) := TakeByte(p, Cursor(0, None));
    var (id, c1) := TakeUint(p, c0, 4);
    var (numCols, c2) := TakeUint(p, c1, 2);
    var (numParams, c3) := TakeUint(p, c2, 2);
    var (warnings, _) := TakeUint(p, TakeFixed(p, c3, 1).1, 2);
    (s.(stmts := s.stmts[id := s.pendingPrep], pendingPrep := [],
        paramsWanted := numParams, paramsSeen := 0, columnsWanted := numCols, columnsSeen := 0, columns := [],
        phase := if numParams > 0 then RespPrepareParams else if numCols > 0 then RespPrepareColumns else RespNone),
     Plain(PrepareOk).(query := s.pendingPrep, warnings := warnings, stmtId := id, params := numParams,
                       count := numCols))
  }

  function OnFirst(dep: bool, s: State, p: bytes): (State, Event)
    requires p != []
  {
    if p[0] == 0x00 && s.lastCommand == COM_STMT_PREPARE then OnPrepareOk(s, p)
    else if p[0] == 0x00 || IsEofPacket(p) then (AfterOk(s, OkEvent(p).status), OkEvent(p))
    else if p[0] == 0xFB then (s.(phase := RespNone), Plain(LocalInfile))
    else
      var n := TakeLenEncInt(p, Cursor(0, None)).0;
      var s1 := s.(columnsWanted := ToInt(n), columnsSeen := 0, columns := [], rowCount := 0);
      (if n == 0 then s1.(phase := RespNone) else s1.(phase := RespColumnDefs, awaitColumnEOF := !dep),
       Plain(ResultSetHeader).(count := n))
  }

  function AfterDefinitionEof(s: State): State {
    match s.phase
    case RespPrepareParams => s.(phase := if s.columnsWanted > 0 then RespPrepareColumns else RespNone)
    case RespColumnDefs => s.(phase := RespRows, awaitColumnEOF := false)
    case _ => s.(phase := RespNone)
  }

  function AfterDefinition(dep: bool, s: State, def: ColumnDef): State {
    match s.phase
    case RespPrepareParams =>
      var s1 := s.(paramsSeen := s.paramsSeen + 1);
      if s1.paramsSeen >= s1.paramsWanted && dep then AfterDefinitionEof(s1) else s1
    case RespPrepareColumns =>
      var s1 := s.(columnsSeen := s.columnsSeen + 1);
      if s1.columnsSeen >= s1.columnsWanted && dep then s1.(phase := RespNone) else s1
    case RespColumnDefs =>
      var s1 := s.(columnsSeen := s.columnsSeen + 1, columns := s.columns + [def]);
      if s1.columnsSeen >= s1.columnsWanted && !s.awaitColumnEOF then s1.(phase := RespRows) else s1
    case _ => s
  }

  function OnDefinition(dep: bool, s: State, p: bytes): (State, Event) {
    if IsEofPacket(p) then (AfterDefinitionEof(s), Plain(Eof))
    else
      var (def, c) := TakeColumnDef(p, Cursor(0, None));
      (AfterDefinition(dep, s, def), Plain(ColumnDefinition).(def := Some(def), decodeErr := c.err))
  }

  function EofEvent(p: bytes): Event {
    var (_, c0) := TakeByte(p, Cursor(0, None));
    var (warnings, c1) := TakeUint(p, c0, 2);
    var (status, _) := TakeUint(p, c1, 2);
    Plain(Eof).(warnings := warnings, status := status)
  }

  function RowValues(s: State, p: bytes): (seq<Cell>, Cursor) {
    if s.lastCommand == COM_STMT_EXECUTE then TakeBinaryRow(p, Cursor(0, None), s.columns)
    else
      var (vals, c) := TakeTextRow(p, Cursor(0, None));
      (TextCells(vals), c)
  }

  function OnRow(dep: bool, s: State, p: bytes): (State, Event) {
    if IsEofPacket(p) then
      var e := if dep then OkEvent(p) else EofEvent(p);
      (if dep then AfterOk(s, e.status) else s.(phase := RespNone),
       e.(count := s.rowCount, columns := ColumnNames(s.columns)))
    else
      var (vals, c) := RowValues(s, p);
      (s.(rowCount := s.rowCount + 1),
       Plain(Row).(values := vals, columns := ColumnNames(s.columns), count := s.rowCount + 1, decodeErr := c.err))
  }

  function OnResponse(dep: bool, s: State, p: bytes): (State, Event) {
    if p == [] then (s, Plain(EmptyPacket))
    else if p[0] == 0xFF then (ResetResult(s), ErrEvent(p))
    else
      match s.phase
      case RespFirst => OnFirst(dep, s, p)
      case RespPrepareParams | RespPrepareColumns | RespColumnDefs => OnDefinition(dep, s, p)
      case RespRows => OnRow(dep, s, p)
      case RespNone => (s, Plain(Unsolicited))
  }

  // ---- the decoder as the source has it

  class ConnDecoder {
    const deprecateEOF: bool
    var phase: Phase
    var lastCommand: byte
    var columnsWanted: int
    var columnsSeen: nat
    var paramsWanted: int
    var paramsSeen: nat
    var columns: seq<ColumnDef>
    var rowCount: nat
    var awaitColumnEOF: bool
    var stmts: map<nat, bytes>
    var pendingPrep: bytes

    function Now(): State
      reads this
    {
      State(phase, lastCommand, columnsWanted, columnsSeen, paramsWanted, paramsSeen, columns, rowCount,
            awaitColumnEOF, stmts, pendingPrep)
    }

    /** The command phase of a fresh connection. */
    constructor (deprecateEOF: bool)
      ensures this.deprecateEOF == deprecateEOF
      ensures phase == RespNone && stmts == map[]
    {
      this.deprecateEOF := deprecateEOF;
      phase, stmts, pendingPrep, columns := RespNone, map[], [], [];
      lastCommand, columnsWanted, columnsSeen, paramsWanted, paramsSeen := 0, 0, 0, 0, 0;
      rowCount, awaitColumnEOF := 0, false;
    }

    method DecodeCommand(seqId: byte, p: bytes) returns (ev: Event)
      modifies this
      ensures (Now(), ev) == OnCommand(old(Now()), seqId, p)
    {
      if p == [] { return Plain(EmptyPacket); }
      if seqId != 0 { return Plain(Continuation); }
      lastCommand := p[0];
      ev := Plain(Command(p[0]));
      var r := new Reader(p);
      var cmd := r.Byte();
      if cmd == COM_QUERY {
        var q := r.RestOfPacket();
        ev := ev.(query := q);
        phase := RespFirst;
      } else if cmd == COM_STMT_PREPARE {
        var q := r.RestOfPacket();
        pendingPrep := q;
        ev := ev.(query := q);
        phase := RespFirst;
      } else if cmd == COM_STMT_EXECUTE {
        var id := r.Uint(4);
        ev := ev.(query := if id in stmts then stmts[id] else [], stmtId := id);
        phase := RespFirst;
      } else if cmd == COM_STMT_CLOSE {
        var id := r.Uint(4);
        ev := ev.(stmtId := id);
        stmts := stmts - {id};
        phase := RespNone;
      } else if cmd == COM_STMT_RESET {
        var id := r.Uint(4);
        ev := ev.(stmtId := id);
        phase := RespFirst;
      } else if cmd == COM_INIT_DB {
        var name := r.RestOfPacket();
        ev := ev.(info := name);
        phase := RespFirst;
      } else if cmd == COM_QUIT {
        phase := RespNone;
      } else {
        phase := RespFirst;
      }
    }

    method DecodeResponse(p: bytes) returns (ev: Event)
      modifies this
      ensures (Now(), ev) == OnResponse(deprecateEOF, old(Now()), p)
    {
      if p == [] { return Plain(EmptyPacket); }
      if p[0] == 0xFF {
        ev := DecodeErrPacket(p);
        DoResetResult();
        return;
      }
      match phase
      case RespFirst => ev := DecodeFirstResponse(p);
      case RespPrepareParams | RespPrepareColumns | RespColumnDefs => ev := DecodeDefinition(p);
      case RespRows => ev := DecodeRow(p);
      case RespNone => ev := Plain(Unsolicited);
    }

    method DecodeFirstResponse(p: bytes) returns (ev: Event)
      requires p != []
      modifies this
      ensures (Now(), ev) == OnFirst(deprecateEOF, old(Now()), p)
    {
      hide OnPrepareOk, OkEvent, TakeLenEncInt, AfterOk;
      if p[0] == 0x00 && lastCommand == COM_STMT_PREPARE {
        ev := DecodePrepareOk(p);
      } else if p[0] == 0x00 || (p[0] == 0xFE && |p| < 9) {
        ev := DecodeOKPacket(p);
      } else if p[0] == 0xFB {
        ev := Plain(LocalInfile);
        phase := RespNone;
      } else {
        var r := new Reader(p);
        var n, _ := r.ReadLenEncInt();
        columnsWanted, columnsSeen := ToInt(n), 0;
        columns, rowCount := [], 0;
        ev := Plain(ResultSetHeader).(count := n);
        if n == 0 {
          phase := RespNone;
          return;
        }
        phase := RespColumnDefs;
        awaitColumnEOF := !deprecateEOF;
      }
    }

    method DecodePrepareOk(p: bytes) returns (ev: Event)
      modifies this
      ensures (Now(), ev) == OnPrepareOk(old(Now()), p)
    {
      hide TakeUint, TakeFixed, TakeByte;
      var r := new Reader(p);
      var _ := r.Byte();
      var id := r.Uint(4);
      var numCols := r.Uint(2);
      var numParams := r.Uint(2);
      var _ := r.Fixed(1);
      var warnings := r.Uint(2);
      stmts := stmts[id := pendingPrep];
      ev := Plain(PrepareOk).(query := pendingPrep, warnings := warnings, stmtId := id, params := numParams,
                              count := numCols);
      pendingPrep := [];
      paramsWanted, paramsSeen := numParams, 0;
      columnsWanted, columnsSeen := numCols, 0;
      columns := [];
      phase := if numParams > 0 then RespPrepareParams else if numCols > 0 then RespPrepareColumns else RespNone;
    }

    method DecodeDefinition(p: bytes) returns (ev: Event)
      modifies this
      ensures (Now(), ev) == OnDefinition(deprecateEOF, old(Now()), p)
    {
      if 0 < |p| < 9 && p[0] == 0xFE {
        AdvanceAfterDefinitionEOF();
        return Plain(Eof);
      }
      var r := new Reader(p);
      var def := DecodeColumnDef(r);
      ev := Plain(ColumnDefinition).(def := Some(def), decodeErr := r.err);
      CountDefinition(def);
    }

    /** The state switch at the end of decodeDefinition. */
    method CountDefinition(def: ColumnDef)
      modifies this
      ensures Now() == AfterDefinition(deprecateEOF, old(Now()), def)
    {
      match phase
      case RespPrepareParams =>
        paramsSeen := paramsSeen + 1;
        if paramsSeen >= paramsWanted && deprecateEOF {
          AdvanceAfterDefinitionEOF();
        }
      case RespPrepareColumns =>
        columnsSeen := columnsSeen + 1;
        if columnsSeen >= columnsWanted && deprecateEOF {
          phase := RespNone;
        }
      case RespColumnDefs =>
        columnsSeen := columnsSeen + 1;
        columns := columns + [def];
        if columnsSeen >= columnsWanted {
          if awaitColumnEOF { return; }
          phase := RespRows;
        }
      case _ =>
    }

    method AdvanceAfterDefinitionEOF()
      modifies this
      ensures Now() == AfterDefinitionEof(old(Now()))
    {
      match phase
      case RespPrepareParams => phase := if columnsWanted > 0 then RespPrepareColumns else RespNone;
      case RespColumnDefs =>
        awaitColumnEOF := false;
        phase := RespRows;
      case _ => phase := RespNone;
    }

    method DecodeRow(p: bytes) returns (ev: Event)
      modifies this
      ensures (Now(), ev) == OnRow(deprecateEOF, old(Now()), p)
    {
      var r := new Reader(p);
      if 0 < |p| < 9 && p[0] == 0xFE {
        var total := rowCount;
        if deprecateEOF {
          ev := DecodeOKPacket(p);
        } else {
          var _ := r.Byte();
          var warnings := r.Uint(2);
          var status := r.Uint(2);
          ev := Plain(Eof).(warnings := warnings, status := status);
          phase := RespNone;
        }
        ev := ev.(count := total, columns := ColumnNames(columns));
        return;
      }
      rowCount := rowCount + 1;
      var vals: seq<Cell>;
      if lastCommand == COM_STMT_EXECUTE {
        var err;
        vals, err := DecodeBinaryRow(r, columns);
        ev := Plain(Row).(decodeErr := err);
      } else {
        var text := r.ReadTextRow();
        vals := TextCells(text);
        ev := Plain(Row).(decodeErr := r.err);
      }
      ev := ev.(values := vals, columns := ColumnNames(columns), count := rowCount);
    }

    method DecodeOKPacket(p: bytes) returns (ev: Event)
      modifies this
      ensures (Now(), ev) == (AfterOk(old(Now()), OkEvent(p).status), OkEvent(p))
    {
      var r := new Reader(p);
      var _ := r.Byte();
      var affected, _ := r.ReadLenEncInt();
      var lastInsert, _ := r.ReadLenEncInt();
      var status := r.Uint(2);
      var warnings := r.Uint(2);
      var info := r.RestOfPacket();
      ev := Plain(Ok).(affected := affected, lastInsert := lastInsert, status := status, warnings := warnings,
                       info := TrimBlanks(info));
      if MoreResults(status) {
        phase := RespFirst;
      } else {
        DoResetResult();
      }
    }

    method DoResetResult()
      modifies this
      ensures Now() == ResetResult(old(Now()))
    {
      phase := RespNone;
      columnsWanted, columnsSeen := 0, 0;
      paramsWanted, paramsSeen := 0, 0;
      awaitColumnEOF := false;
    }
  }

  method DecodeErrPacket(p: bytes) returns (ev: Event)
    ensures ev == ErrEvent(p)
  {
    var r := new Reader(p);
    var _ := r.Byte();
    var code := r.Uint(2);
    var sqlState: bytes := [];
    var left := r.Left();
    if left >= 6 && p[r.pos] == '#' as int {
      var _ := r.Byte();
      var five := r.Fixed(5);
      sqlState := five.value;
    }
    var msg := r.RestOfPacket();
    ev := Plain(Err).(errCode := code, sqlState := sqlState, errMessage := msg);
  }

  method DecodeColumnDef(r: Reader) returns (def: ColumnDef)
    modifies r
    ensures (def, r.Now()) == TakeColumnDef(r.b, old(r.Now()))
  {
    var _, _ := r.ReadLenEncString();
    var _, _ := r.ReadLenEncString();
    var table, _ := r.ReadLenEncString();
    var _, _ := r.ReadLenEncString();
    var name, _ := r.ReadLenEncString();
    var _, _ := r.ReadLenEncString();
    var left := r.Left();
    if left < 1 {
      return ColumnDef(name, table, 0, 0);
    }
    def := DecodeColumnTail(r, name, table);
  }

  method DecodeColumnTail(r: Reader, name: bytes, table: bytes) returns (def: ColumnDef)
    modifies r
    ensures (def, r.Now()) == TakeColumnTail(r.b, old(r.Now()), name, table)
  {
    var _, _ := r.ReadLenEncInt();
    var _ := r.Fixed(2);
    var _ := r.Fixed(4);
    var typ := r.Byte();
    var flags := r.Uint(2);
    var _ := r.Fixed(1);
    def := ColumnDef(name, table, typ, flags);
  }
}
