/**
 Reading the answer to a query (section "COM_QUERY Response"): one result after another, each an OK
 packet or a result set with its column definitions and rows, as long as the status says that more
 follow. Whatever the caller does with the rows, the connection must end up at the next command.
 */
module MySqlResults {
  import opened Bytes
  import opened MySqlLenEnc
  import opened Wrappers

  const OK: byte := 0x00
  const LOCAL_INFILE: byte := 0xfb
  const EOF: byte := 0xfe
  const ERR: byte := 0xff
  const COM_QUERY: byte := 0x03

  datatype Error = NoError | BadConn | InvalidConn | Canceled | ServerError | InfileRequest | Malformed | ColumnMismatch | Panic

  /** The status bit that announces another result. */
  predicate More(status: nat) {
    status / 8 % 2 == 1
  }

  // ---------------------------------------------------------------- what the server sends

  datatype Column = Column(catalog: bytes, database: bytes, table: bytes, orgTable: bytes, name: bytes, orgName: bytes,
                           charset: byte, charsetHigh: byte, length: nat, kind: byte, flags: nat, decimals: byte)

  datatype End = End(warnings: nat, status: nat)

  type Row = seq<Value>

  datatype Result =
    | Okay(affected: nat, insertId: nat, status: nat, info: bytes)
    | Set(columns: seq<Column>, columnsEnd: End, rows: seq<Row>, rowsEnd: End)

  predicate ShortString(s: bytes) {
    |s| < TWO63 - 9
  }

  predicate ValidColumn(c: Column) {
    && c.catalog == [0x64, 0x65, 0x66]
    && ShortString(c.database) && ShortString(c.table) && ShortString(c.orgTable)
    && ShortString(c.name) && ShortString(c.orgName)
    && c.length < TWO32 && c.flags < 0x1_0000
  }

  /** A row of the right width whose packet starts with neither 0xfe nor 0xff. */
  predicate ValidRow(row: Row, width: nat) {
    |row| == width && Encodable(row) && width > 0 && (row[0].Text? ==> |row[0].text| < 0x100_0000)
  }

  predicate ValidColumns(columns: seq<Column>) {
    forall c :: c in columns ==> ValidColumn(c)
  }

  predicate ValidRows(rows: seq<Row>, width: nat) {
    forall r :: r in rows ==> ValidRow(r, width)
  }

  predicate ValidResult(r: Result) {
    match r
    case Okay(affected, insertId, status, _) => affected < TWO64 && insertId < TWO64 && status < 0x1_0000
    case Set(columns, columnsEnd, rows, rowsEnd) =>
      && 0 < |columns| < TWO63 && ValidColumns(columns) && ValidRows(rows, |columns|)
      && columnsEnd.status < 0x1_0000 && rowsEnd.status < 0x1_0000
  }

  function StatusOf(r: Result): nat {
    if r.Okay? then r.status else r.rowsEnd.status
  }

  /** Error-free results, each announcing the next one and the last one announcing none. */
  predicate Sound(results: seq<Result>) {
    results == [] ||
    (ValidResult(results[0]) && (More(StatusOf(results[0])) <==> results[1..] != []) && Sound(results[1..]))
  }

  function FixedPart(c: Column): bytes {
    [0x0c, c.charset, c.charsetHigh] + LittleEndian(c.length, 4) + [c.kind] + LittleEndian(c.flags, 2) + [c.decimals, 0, 0]
  }

  function ColumnPacket(c: Column): bytes
    requires ValidColumn(c)
  {
    String(c.catalog) + (String(c.database) + (String(c.table) + (String(c.orgTable)
    + (String(c.name) + (String(c.orgName) + FixedPart(c))))))
  }

  function EndPacket(e: End): (p: bytes)
    ensures |p| == 5 && p[0] == EOF
  {
    [EOF] + LittleEndian(e.warnings, 2) + LittleEndian(e.status, 2)
  }

  function OkPacket(affected: nat, insertId: nat, status: nat, info: bytes): (p: bytes)
    ensures p != [] && p[0] == OK
  {
    [OK] + (Integer(affected) + (Integer(insertId) + (LittleEndian(status, 2) + info)))
  }

  // Each of these puts the packets in front of those that come later.
  function ColumnsThen(columns: seq<Column>, later: seq<bytes>): seq<bytes>
    requires ValidColumns(columns)
  {
    if columns == [] then later else [ColumnPacket(columns[0])] + ColumnsThen(columns[1..], later)
  }

  function RowsThen(rows: seq<Row>, later: seq<bytes>): seq<bytes>
    requires forall r :: r in rows ==> Encodable(r)
  {
    if rows == [] then later else [EncodeValues(rows[0])] + RowsThen(rows[1..], later)
  }

  function ResultsThen(results: seq<Result>, later: seq<bytes>): seq<bytes>
    requires Sound(results)
  {
    if results == [] then later
    else
      match results[0]
      case Okay(affected, insertId, status, info) =>
        [OkPacket(affected, insertId, status, info)] + ResultsThen(results[1..], later)
      case Set(columns, columnsEnd, rows, rowsEnd) =>
        [Integer(|columns|)]
        + ColumnsThen(columns, [EndPacket(columnsEnd)]
                               + RowsThen(rows, [EndPacket(rowsEnd)] + ResultsThen(results[1..], later)))
  }

  // ---------------------------------------------------------------- what the client makes of one packet

  datatype Field = Field(table: bytes, name: bytes, charset: byte, length: nat, kind: byte, flags: nat, decimals: byte)

  datatype Header = OkHeader(affected: nat, insertId: nat, status: nat) | Count(count: int) | BadHeader(error: Error)

  function ParseOk(data: bytes): Header
    requires data != []
  {
    match ReadInteger(data[1..])
    case IntPanic => BadHeader(Panic)
    case IntRead(affected, _, n) =>
      if 1 + n > |data| then BadHeader(Panic)
      else
        match ReadInteger(data[1 + n..])
        case IntPanic => BadHeader(Panic)
        case IntRead(insertId, _, m) =>
          if 1 + n + m + 2 > |data| then BadHeader(Panic)
          else OkHeader(affected, insertId, FromLittleEndian(data[1 + n + m..1 + n + m + 2]))
  }

  function ParseHeader(data: bytes): Header
    requires data != []
  {
    if data[0] == OK then ParseOk(data)
    else if data[0] == ERR then BadHeader(ServerError)
    else if data[0] == LOCAL_INFILE then BadHeader(InfileRequest)
    else
      match ReadInteger(data)
      case IntPanic => BadHeader(Panic)
      case IntRead(num, _, n) => if n == |data| then Count(Signed(num)) else BadHeader(Malformed)
  }

  /** The position behind the string at pos, if there is one. */
  function SkipAt(data: bytes, pos: int): Option<int> {
    if 0 <= pos <= |data| && SkipString(data[pos..]).Skipped? then Some(pos + SkipString(data[pos..]).n) else None
  }

  function StringAt(data: bytes, pos: int): bytes {
    if 0 <= pos <= |data| && ReadString(data[pos..]).Str? then ReadString(data[pos..]).value else []
  }

  function ReadAt(data: bytes, pos: int): Option<int> {
    if 0 <= pos <= |data| && ReadString(data[pos..]).Str? then Some(pos + ReadString(data[pos..]).n) else None
  }

  /** The numbers behind the six strings of a column definition. */
  function ParseFixed(data: bytes, pos: int, table: bytes, name: bytes): Option<Field> {
    if 0 <= pos && pos + 11 <= |data| then
      Some(Field(table, name, data[pos + 1], FromLittleEndian(data[pos + 3..pos + 7]), data[pos + 7],
                 FromLittleEndian(data[pos + 8..pos + 10]), data[pos + 10]))
    else None
  }

  /** A column definition, read string by string; the table name is kept only when aliases are wanted. */
  function ParseColumn(data: bytes, alias: bool): Option<Field> {
    var database := SkipAt(data, 0);
    if database == None then None
    else
      var table := SkipAt(data, database.value);
      if table == None then None
      else
        var orgTable := if alias then ReadAt(data, table.value) else SkipAt(data, table.value);
        if orgTable == None then None
        else
          var name := SkipAt(data, orgTable.value);
          if name == None then None
          else
            var orgName := ReadAt(data, name.value);
            if orgName == None then None
            else
              var fixed := SkipAt(data, orgName.value);
              if fixed == None then None
              else
                ParseFixed(data, fixed.value, if alias then StringAt(data, table.value) else [], StringAt(data, name.value))
  }

  function FieldOf(c: Column, alias: bool): Field {
    Field(if alias then c.table else [], c.name, c.charset, c.length, c.kind, c.flags, c.decimals)
  }

  function FieldsOf(columns: seq<Column>, alias: bool): seq<Field> {
    if columns == [] then [] else [FieldOf(columns[0], alias)] + FieldsOf(columns[1..], alias)
  }

  // ---------------------------------------------------------------- packet round trips

  lemma LittleEndian16(n: nat)
    requires n < 0x1_0000
    ensures FromLittleEndian(LittleEndian(n, 2)) == n
  {
    Pow256Values();
    LittleEndianRoundTrip(n, 2);
  }

  lemma EndStatus(e: End)
    requires e.status < 0x1_0000
    ensures FromLittleEndian(EndPacket(e)[3..5]) == e.status
  {
    LittleEndian16(e.status);
    assert EndPacket(e)[3..5] == LittleEndian(e.status, 2);
  }

  lemma OkRoundTrip(affected: nat, insertId: nat, status: nat, info: bytes)
    requires affected < TWO64 && insertId < TWO64 && status < 0x1_0000
    ensures ParseHeader(OkPacket(affected, insertId, status, info)) == OkHeader(affected, insertId, status)
  {
    hide Integer, ReadInteger, LittleEndian, FromLittleEndian;
    var data := OkPacket(affected, insertId, status, info);
    var tail := LittleEndian(status, 2) + info;
    var n, m := |Integer(affected)|, |Integer(insertId)|;
    IntegerRoundTrip(affected, Integer(insertId) + tail);
    IntegerRoundTrip(insertId, tail);
    LittleEndian16(status);
    assert data[1..] == Integer(affected) + (Integer(insertId) + tail);
    assert data[1 + n..] == Integer(insertId) + tail;
    assert data[1 + n + m..1 + n + m + 2] == LittleEndian(status, 2);
  }

  lemma CountRoundTrip(count: nat)
    requires 0 < count < TWO63
    ensures ParseHeader(Integer(count)) == Count(count)
  {
    IntegerRoundTrip(count, []);
    assert Integer(count) + [] == Integer(count);
  }

  lemma OneString(data: bytes, pos: nat, s: bytes, tail: bytes)
    requires ShortString(s) && pos <= |data| && data[pos..] == String(s) + tail
    ensures SkipAt(data, pos) == ReadAt(data, pos) == Some(pos + |String(s)|) && StringAt(data, pos) == s
    ensures pos + |String(s)| <= |data| && data[pos + |String(s)|..] == tail
  {
    hide ReadString, SkipString, String;
    StringRoundTrip(s, tail);
    SkipAgrees(data[pos..]);
    assert data[pos + |String(s)|..] == data[pos..][|String(s)|..];
  }

  lemma FixedRoundTrip(c: Column, data: bytes, pos: nat, table: bytes)
    requires c.length < TWO32 && c.flags < 0x1_0000
    requires pos <= |data| && data[pos..] == FixedPart(c)
    ensures ParseFixed(data, pos, table, c.name) ==
            Some(Field(table, c.name, c.charset, c.length, c.kind, c.flags, c.decimals))
  {
    hide LittleEndian, FromLittleEndian;
    LittleEndian16(c.flags);
    assert Pow256(4) == TWO32 by { assert Pow256(4) == 256 * Pow256(3); }
    LittleEndianRoundTrip(c.length, 4);
    var tail := data[pos..];
    assert tail[3..7] == LittleEndian(c.length, 4) && data[pos + 3..pos + 7] == tail[3..7];
    assert tail[8..10] == LittleEndian(c.flags, 2) && data[pos + 8..pos + 10] == tail[8..10];
    assert tail[1] == c.charset && tail[7] == c.kind && tail[10] == c.decimals;
  }

  /** A column definition is read back. */
  lemma ColumnRoundTrip(c: Column, alias: bool)
    requires ValidColumn(c)
    ensures ParseColumn(ColumnPacket(c), alias) == Some(FieldOf(c, alias))
  {
    hide String, SkipAt, ReadAt, StringAt, ParseFixed, FixedPart;
    var data := ColumnPacket(c);
    var t5 := String(c.orgName) + FixedPart(c);
    var t4 := String(c.name) + t5;
    var t3 := String(c.orgTable) + t4;
    var t2 := String(c.table) + t3;
    var t1 := String(c.database) + t2;
    assert data[0..] == String(c.catalog) + t1;
    OneString(data, 0, c.catalog, t1);
    var p1 := |String(c.catalog)|;
    OneString(data, p1, c.database, t2);
    var p2 := p1 + |String(c.database)|;
    OneString(data, p2, c.table, t3);
    var p3 := p2 + |String(c.table)|;
    OneString(data, p3, c.orgTable, t4);
    var p4 := p3 + |String(c.orgTable)|;
    OneString(data, p4, c.name, t5);
    var p5 := p4 + |String(c.name)|;
    OneString(data, p5, c.orgName, FixedPart(c));
    FixedRoundTrip(c, data, p5 + |String(c.orgName)|, if alias then c.table else []);
  }

  lemma ColumnStart(c: Column)
    requires ValidColumn(c)
    ensures ColumnPacket(c) != [] && ColumnPacket(c)[0] == 3
  {
    hide FixedPart;
    assert Integer(3) == [3] && String(c.catalog) == [3] + c.catalog;
    hide String;
  }

  /** A row packet starts with 0xfe exactly when its first value has 2^24 bytes or more, and never with 0xff. */
  lemma RowStart(row: Row)
    requires row != [] && Encodable(row)
    ensures EncodeValues(row) != [] && EncodeValues(row)[0] != ERR
    ensures EncodeValues(row)[0] == EOF <==> row[0].Text? && |row[0].text| >= 0x100_0000
  {
    assert row[0] in row;
    hide LittleEndian;
    var first := EncodeValue(row[0]);
    assert first != [] && EncodeValues(row)[0] == first[0];
  }

  // ---------------------------------------------------------------- skipping to the end of a packet sequence

  datatype Skip = Skip(error: Error, rest: seq<bytes>, status: nat)

  /** Packets are thrown away up to the first one that starts with 0xfe, however long. */
  function SkipToEof(packets: seq<bytes>, status: nat): Skip {
    if packets == [] then Skip(InvalidConn, [], status)
    else
      var data := packets[0];
      if data == [] then Skip(InvalidConn, packets[1..], status)
      else if data[0] == ERR then Skip(ServerError, packets[1..], status)
      else if data[0] == EOF then
        Skip(NoError, packets[1..], if |data| == 5 then FromLittleEndian(data[3..5]) else status)
      else SkipToEof(packets[1..], status)
  }

  lemma SkipOne(data: bytes, later: seq<bytes>, status: nat)
    requires data != []
    ensures SkipToEof([data] + later, status) ==
            if data[0] == ERR then Skip(ServerError, later, status)
            else if data[0] == EOF then
              Skip(NoError, later, if |data| == 5 then FromLittleEndian(data[3..5]) else status)
            else SkipToEof(later, status)
  {
    assert ([data] + later)[1..] == later;
  }

  lemma SkipEnd(e: End, later: seq<bytes>, status: nat)
    requires e.status < 0x1_0000
    ensures SkipToEof([EndPacket(e)] + later, status) == Skip(NoError, later, e.status)
  {
    hide EndPacket, SkipToEof;
    SkipOne(EndPacket(e), later, status);
    EndStatus(e);
  }

  lemma {:induction false} SkipColumns(columns: seq<Column>, e: End, later: seq<bytes>, status: nat)
    requires ValidColumns(columns) && e.status < 0x1_0000
    ensures SkipToEof(ColumnsThen(columns, [EndPacket(e)] + later), status) == Skip(NoError, later, e.status)
  {
    hide EndPacket, SkipToEof, ColumnPacket;
    if columns == [] {
      SkipEnd(e, later, status);
    } else {
      ColumnStart(columns[0]);
      SkipOne(ColumnPacket(columns[0]), ColumnsThen(columns[1..], [EndPacket(e)] + later), status);
      SkipColumns(columns[1..], e, later, status);
    }
  }

  lemma {:induction false} SkipRows(rows: seq<Row>, width: nat, e: End, later: seq<bytes>, status: nat)
    requires ValidRows(rows, width) && e.status < 0x1_0000
    ensures SkipToEof(RowsThen(rows, [EndPacket(e)] + later), status) == Skip(NoError, later, e.status)
  {
    hide EndPacket, SkipToEof, EncodeValues;
    if rows == [] {
      SkipEnd(e, later, status);
    } else {
      assert forall r :: r in rows[1..] ==> r in rows;
      assert ValidRow(rows[0], width);
      RowStart(rows[0]);
      SkipOne(EncodeValues(rows[0]), RowsThen(rows[1..], [EndPacket(e)] + later), status);
      SkipRows(rows[1..], width, e, later, status);
    }
  }

  /**
   The limit on the first value of a row is no convenience: the rows of a set are skipped exactly up to
   their end marker if and only if no row starts with a value of 2^24 bytes or more.
   */
  lemma {:induction false} SkipRowsExactly(rows: seq<Row>, e: End, later: seq<bytes>, status: nat)
    requires (forall r :: r in rows ==> Encodable(r) && r != []) && e.status < 0x1_0000
    ensures SkipToEof(RowsThen(rows, [EndPacket(e)] + later), status).rest == later <==>
            forall r: Row :: r in rows ==> r[0].Text? ==> |r[0].text| < 0x100_0000
    ensures |SkipToEof(RowsThen(rows, [EndPacket(e)] + later), status).rest| >= |later|
  {
    hide EndPacket, SkipToEof, EncodeValues;
    if rows == [] {
      SkipEnd(e, later, status);
    } else {
      assert rows[0] in rows;
      assert forall r :: r in rows[1..] ==> r in rows;
      RowStart(rows[0]);
      var after := RowsThen(rows[1..], [EndPacket(e)] + later);
      SkipOne(EncodeValues(rows[0]), after, status);
      SkipRowsExactly(rows[1..], e, later, status);
      RowsThenLonger(rows[1..], [EndPacket(e)] + later);
      assert forall r :: r in rows <==> r == rows[0] || r in rows[1..];
    }
  }

  lemma {:induction false} RowsThenLonger(rows: seq<Row>, later: seq<bytes>)
    requires forall r :: r in rows ==> Encodable(r)
    ensures |RowsThen(rows, later)| >= |later|
  {
    if rows != [] {
      RowsThenLonger(rows[1..], later);
    }
  }

  // ---------------------------------------------------------------- the reference: a cursor over the results

  datatype Answer = OneRow(row: Row) | NoMoreRows | NewSet(fields: seq<Field>) | NoMoreSets

  /** Where a caller stands in a response, described without packets. */
  datatype Cursor =
    | Closed
    | Between(later: seq<Result>)
    | Inside(columns: seq<Column>, left: seq<Row>, end: End, later: seq<Result>)

  function NextRow(c: Cursor): Cursor {
    match c
    case Inside(columns, left, end, later) =>
      if left != [] then Inside(columns, left[1..], end, later)
      else if later == [] then Closed
      else Between(later)
    case _ => c
  }

  function RowAnswer(c: Cursor): Answer {
    if c.Inside? && c.left != [] then OneRow(c.left[0]) else NoMoreRows
  }

  /** The next result set, past results without one. */
  function SkipTo(results: seq<Result>): Cursor {
    if results == [] then Closed
    else
      match results[0]
      case Okay(_, _, _, _) => SkipTo(results[1..])
      case Set(columns, _, rows, end) => Inside(columns, rows, end, results[1..])
  }

  function NextSet(c: Cursor): Cursor {
    if c.Closed? then c else SkipTo(c.later)
  }

  function SetAnswer(c: Cursor, alias: bool): Answer {
    if c.Inside? then NewSet(FieldsOf(c.columns, alias)) else NoMoreSets
  }

  /** The state of the client agrees with the cursor; rest is what follows the whole response. */
  ghost predicate InStep(open: bool, done: bool, fields: seq<Field>, incoming: seq<bytes>, status: nat,
                         c: Cursor, rest: seq<bytes>)
  {
    match c
    case Closed => !open && incoming == rest
    case Between(later) =>
      open && done && Sound(later) && (More(status) <==> later != []) && incoming == ResultsThen(later, rest)
    case Inside(columns, left, end, later) =>
      && open && !done && |fields| == |columns| && ValidRows(left, |columns|) && end.status < 0x1_0000
      && Sound(later) && (More(end.status) <==> later != [])
      && incoming == RowsThen(left, [EndPacket(end)] + ResultsThen(later, rest))
  }

  datatype Counts = Counts(affected: nat, insertId: nat)

  /** What the last OK packet of the results reports. */
  function LastCounts(results: seq<Result>, before: Counts): Counts {
    if results == [] then before
    else
      LastCounts(results[1..], if results[0].Okay? then Counts(results[0].affected, results[0].insertId) else before)
  }

  // ---------------------------------------------------------------- the client

  class Conn {
    var incoming: seq<bytes>
    var status: nat
    var affectedRows: nat
    var insertId: nat
    var commands: seq<bytes>
    var closed: bool
    var canceled: bool
    const columnsWithAlias: bool

    constructor (incoming: seq<bytes>, columnsWithAlias: bool)
      ensures this.incoming == incoming && this.columnsWithAlias == columnsWithAlias
      ensures status == 0 && affectedRows == 0 && insertId == 0 && commands == [] && !closed && !canceled
    {
      this.incoming, this.columnsWithAlias := incoming, columnsWithAlias;
      status, affectedRows, insertId, commands, closed, canceled := 0, 0, 0, [], false, false;
    }

    /** The next packet; a missing or an empty one ends the connection. */
    method ReadPacket() returns (data: bytes, error: Error)
      modifies this`incoming, this`closed
      ensures error == NoError <==> old(incoming) != [] && old(incoming)[0] != []
      ensures error == NoError ==> data == old(incoming)[0] && closed == old(closed)
      ensures error != NoError ==> closed && error == InvalidConn
      ensures incoming == if old(incoming) == [] then [] else old(incoming)[1..]
    {
      if incoming == [] {
        closed := true;
        return [], InvalidConn;
      }
      data := incoming[0];
      incoming := incoming[1..];
      if data == [] {
        closed := true;
        return [], InvalidConn;
      }
      error := NoError;
    }

    method ReadUntilEof() returns (error: Error)
      modifies this`incoming, this`closed, this`status
      ensures Skip(error, incoming, status) == SkipToEof(old(incoming), old(status))
      ensures error == NoError ==> closed == old(closed) && |incoming| < |old(incoming)|
    {
      while true
        invariant SkipToEof(incoming, status) == SkipToEof(old(incoming), old(status))
        invariant closed == old(closed) && |incoming| <= |old(incoming)|
        decreases |incoming|
      {
        var data;
        data, error := ReadPacket();
        if error != NoError {
          return;
        }
        if data[0] == ERR {
          return ServerError;
        }
        if data[0] == EOF {
          if |data| == 5 {
            status := FromLittleEndian(data[3..5]);
          }
          return NoError;
        }
      }
    }

    /** The number of columns of the next result, zero for one without a result set. */
    method ReadResultSetHeader() returns (resLen: int, error: Error)
      modifies this`incoming, this`closed, this`status, this`affectedRows, this`insertId
      ensures incoming == if old(incoming) == [] then [] else old(incoming)[1..]
      ensures error == NoError ==> old(incoming) != [] && closed == old(closed)
      ensures old(incoming) != [] && old(incoming)[0] != [] ==>
        closed == old(closed) &&
        match ParseHeader(old(incoming)[0])
        case OkHeader(a, i, st) => resLen == 0 && error == NoError && affectedRows == a && insertId == i && status == st
        case Count(count) => resLen == count && error == NoError && status == old(status)
                             && affectedRows == old(affectedRows) && insertId == old(insertId)
        case BadHeader(e) => resLen == 0 && error == e
    {
      var data;
      data, error := ReadPacket();
      resLen := 0;
      if error != NoError {
        return;
      }
      match ParseHeader(data) {
        case OkHeader(a, i, st) =>
          affectedRows, insertId, status := a, i, st;
        case Count(count) =>
          resLen := count;
        case BadHeader(e) =>
          error := e;
      }
    }

    /** Reads the definitions of count columns. */
    method ReadColumns(count: int, ghost columns: seq<Column>, ghost end: End, ghost later: seq<bytes>)
      returns (fields: seq<Field>, error: Error)
      modifies this`incoming, this`closed
      ensures ValidColumns(columns) && count == |columns| && old(incoming) == ColumnsThen(columns, [EndPacket(end)] + later) ==>
        error == NoError && fields == FieldsOf(columns, columnsWithAlias) && |fields| == count
        && incoming == later && closed == old(closed)
      ensures error == NoError ==> |fields| == count
    {
      hide ParseColumn, ColumnPacket, EndPacket;
      fields := [];
      if count < 0 {
        return [], Panic;
      }
      ghost var fine := ValidColumns(columns) && count == |columns| && incoming == ColumnsThen(columns, [EndPacket(end)] + later);
      while true
        invariant |fields| <= count && closed == old(closed)
        invariant fine ==> incoming == ColumnsThen(columns[|fields|..], [EndPacket(end)] + later)
                           && fields == FieldsOf(columns[..|fields|], columnsWithAlias)
        decreases |incoming|
      {
        ghost var i := |fields|;
        if fine && i < count {
          ColumnStart(columns[i]);
          ColumnRoundTrip(columns[i], columnsWithAlias);
          FieldsOfMore(columns, i, columnsWithAlias);
          assert columns[i..][1..] == columns[i + 1..];
        }
        var data;
        data, error := ReadPacket();
        if error != NoError {
          return;
        }
        if data[0] == EOF && (|data| == 5 || |data| == 1) {
          if |fields| == count {
            assert fine ==> columns[..count] == columns;
            return;
          }
          return [], ColumnMismatch;
        }
        var field := ParseColumn(data, columnsWithAlias);
        if field == None {
          return [], Malformed;
        }
        if |fields| == count {
          return [], Panic;
        }
        fields := fields + [field.value];
      }
    }

    /** Throws away the columns and rows of a result set whose header has been read. */
    method DiscardSet(ghost r: Result, ghost later: seq<bytes>) returns (error: Error)
      modifies this`incoming, this`closed, this`status
      ensures ValidResult(r) && r.Set? && old(incoming) == SetBody(r, later) ==>
        error == NoError && incoming == later && status == r.rowsEnd.status && closed == old(closed)
      ensures error == NoError ==> |incoming| < |old(incoming)|
    {
      hide SkipToEof, RowsThen, ColumnsThen, EndPacket, ValidColumns;
      ghost var fine := ValidResult(r) && r.Set? && incoming == SetBody(r, later);
      if fine {
        SkipColumns(r.columns, r.columnsEnd, RowsThen(r.rows, [EndPacket(r.rowsEnd)] + later), status);
      }
      error := ReadUntilEof();
      if error != NoError {
        return;
      }
      if fine {
        SkipRows(r.rows, |r.columns|, r.rowsEnd, later, status);
      }
      error := ReadUntilEof();
    }

    /** Throws away all results that follow, up to the next command. */
    method DiscardResults(ghost later: seq<Result>, ghost rest: seq<bytes>) returns (error: Error)
      modifies this`incoming, this`closed, this`status, this`affectedRows, this`insertId
      ensures old(Sound(later) && (More(status) <==> later != []) && incoming == ResultsThen(later, rest)) ==>
        error == NoError && incoming == rest && closed == old(closed)
        && Counts(affectedRows, insertId) == LastCounts(later, old(Counts(affectedRows, insertId)))
    {
      hide ParseHeader, ResultsThen, SetBody, OkPacket, Integer, ValidResult;
      ghost var l := later;
      ghost var fine := Sound(l) && (More(status) <==> l != []) && incoming == ResultsThen(l, rest);
      ghost var goal := LastCounts(l, Counts(affectedRows, insertId));
      while More(status)
        invariant fine ==> Sound(l) && (More(status) <==> l != []) && incoming == ResultsThen(l, rest)
                           && closed == old(closed) && goal == LastCounts(l, Counts(affectedRows, insertId))
        decreases |incoming|
      {
        if fine {
          FirstResult(l, rest);
        }
        var resLen;
        resLen, error := ReadResultSetHeader();
        if error != NoError {
          return;
        }
        if resLen > 0 {
          error := DiscardSet(if fine then l[0] else Okay(0, 0, 0, []), if fine then ResultsThen(l[1..], rest) else []);
          if error != NoError {
            return;
          }
        }
        l := if fine then l[1..] else l;
      }
      NoResults(rest);
      error := NoError;
    }

    /** Sends a query and reads its whole answer. */
    method Exec(query: bytes, ghost response: seq<Result>, ghost rest: seq<bytes>) returns (error: Error)
      modifies this`incoming, this`closed, this`status, this`affectedRows, this`insertId, this`commands
      ensures !old(closed) ==> commands == old(commands) + [[COM_QUERY] + query]
      ensures !old(closed) && response != [] && Sound(response) && old(incoming) == ResultsThen(response, rest) ==>
        error == NoError && incoming == rest && !closed
        && Counts(affectedRows, insertId) == LastCounts(response, Counts(0, 0))
    {
      hide ParseHeader, ResultsThen, SetBody, OkPacket, Integer, ValidResult;
      if closed {
        return BadConn;
      }
      affectedRows, insertId := 0, 0;
      commands := commands + [[COM_QUERY] + query];
      ghost var fine := response != [] && Sound(response) && incoming == ResultsThen(response, rest);
      if fine {
        FirstResult(response, rest);
      }
      var resLen;
      resLen, error := ReadResultSetHeader();
      if error != NoError {
        return;
      }
      if resLen > 0 {
        error := DiscardSet(if fine then response[0] else Okay(0, 0, 0, []), if fine then ResultsThen(response[1..], rest) else []);
        if error != NoError {
          return;
        }
      }
      error := DiscardResults(if fine then response[1..] else [], rest);
    }
  }

  /** What follows the header of a result set. */
  function SetBody(r: Result, later: seq<bytes>): seq<bytes>
    requires ValidResult(r) && r.Set?
  {
    ColumnsThen(r.columns, [EndPacket(r.columnsEnd)] + RowsThen(r.rows, [EndPacket(r.rowsEnd)] + later))
  }

  /** How the answer begins and what the client makes of its first packet. */
  lemma FirstResult(results: seq<Result>, rest: seq<bytes>)
    requires results != [] && Sound(results)
    ensures ValidResult(results[0]) && Sound(results[1..]) && (More(StatusOf(results[0])) <==> results[1..] != [])
    ensures var stream := ResultsThen(results, rest);
            stream != [] && stream[0] != [] &&
            (results[0].Okay? ==>
              ParseHeader(stream[0]) == OkHeader(results[0].affected, results[0].insertId, results[0].status)
              && stream[1..] == ResultsThen(results[1..], rest)) &&
            (results[0].Set? ==>
              |results[0].columns| > 0 && ParseHeader(stream[0]) == Count(|results[0].columns|)
              && stream[1..] == SetBody(results[0], ResultsThen(results[1..], rest)))
  {
    hide ParseHeader, ColumnsThen, RowsThen, OkPacket, EndPacket, Integer;
    HeadOf(results[0]);
  }

  lemma NoResults(rest: seq<bytes>)
    ensures ResultsThen([], rest) == rest
  {
  }

  /** The first packet of a result and what the client makes of it. */
  lemma HeadOf(r: Result)
    requires ValidResult(r)
    ensures r.Okay? ==>
      OkPacket(r.affected, r.insertId, r.status, r.info) != []
      && ParseHeader(OkPacket(r.affected, r.insertId, r.status, r.info)) == OkHeader(r.affected, r.insertId, r.status)
    ensures r.Set? ==> Integer(|r.columns|) != [] && ParseHeader(Integer(|r.columns|)) == Count(|r.columns|) && |r.columns| > 0
  {
    if r.Okay? {
      OkRoundTrip(r.affected, r.insertId, r.status, r.info);
    } else {
      CountRoundTrip(|r.columns|);
    }
  }

  lemma {:induction false} FieldsOfMore(columns: seq<Column>, i: nat, alias: bool)
    requires i < |columns|
    ensures FieldsOf(columns[..i + 1], alias) == FieldsOf(columns[..i], alias) + [FieldOf(columns[i], alias)]
    ensures |FieldsOf(columns[..i], alias)| == i && |FieldsOf(columns[..i + 1], alias)| == i + 1
    decreases i
  {
    if i > 0 {
      FieldsOfMore(columns[1..], i - 1, alias);
      assert columns[1..][..i - 1] == columns[..i][1..] && columns[1..][..i] == columns[..i + 1][1..];
    }
  }

  // ---------------------------------------------------------------- rows handed to the caller

  datatype RowRead = RowRead(answer: Answer, error: Error)

  class Rows {
    var mc: Conn?
    var done: bool
    var columns: seq<Field>

    constructor (mc: Conn)
      ensures this.mc == mc && !done && columns == []
    {
      this.mc, done, columns := mc, false, [];
    }

    /** The rows belong to conn and agree with the cursor. */
    ghost predicate At(conn: Conn, c: Cursor, rest: seq<bytes>)
      reads this, conn
    {
      && (mc == null || mc == conn)
      && !conn.closed
      && InStep(mc != null, done, columns, conn.incoming, conn.status, c, rest)
    }

    /** The error of a closed connection: the cancellation, if there was one. */
    method ConnError(conn: Conn) returns (error: Error)
      ensures error == if !conn.closed then NoError else if conn.canceled then Canceled else InvalidConn
    {
      error := if !conn.closed then NoError else if conn.canceled then Canceled else InvalidConn;
    }

    /** Fetches the next row of the current result set. */
    method Next(ghost conn: Conn, ghost c: Cursor, ghost rest: seq<bytes>) returns (answer: Answer, error: Error)
      requires mc == null || mc == conn
      modifies this`mc, this`done, conn`incoming, conn`closed, conn`status
      ensures mc == null || mc == conn
      ensures old(At(conn, c, rest)) ==> error == NoError && answer == RowAnswer(c) && At(conn, NextRow(c), rest)
    {
      hide ResultsThen, EncodeValues, ReadValues;
      answer := NoMoreRows;
      if mc == null {
        return answer, NoError;
      }
      error := ConnError(mc);
      if error != NoError {
        return;
      }
      if done {
        return;
      }
      ghost var fine := old(At(conn, c, rest));
      if fine {
        NextPacket(c, rest);
      }
      var data;
      data, error := mc.ReadPacket();
      if error != NoError {
        return;
      }
      if data[0] == EOF && |data| == 5 {
        mc.status := FromLittleEndian(data[3..5]);
        done := true;
        if !More(mc.status) {
          mc := null;
        }
        return;
      }
      if data[0] == ERR {
        mc := null;
        return answer, ServerError;
      }
      var dest, failure := ReadRow(data, |columns|);
      if !failure.Str? {
        return answer, if failure.Truncated? then Malformed else Panic;
      }
      answer := OneRow(dest);
    }

    /** Moves on to the next result, with or without a result set. */
    method NextResult(ghost conn: Conn, ghost c: Cursor, ghost rest: seq<bytes>)
      returns (resLen: int, atEnd: bool, error: Error)
      requires mc == null || mc == conn
      modifies this, conn`incoming, conn`closed, conn`status, conn`affectedRows, conn`insertId
      ensures mc == null || mc == conn
      ensures error == NoError && !atEnd ==> mc == conn && |conn.incoming| < |old(conn.incoming)|
      ensures old(At(conn, c, rest)) ==> error == NoError && (atEnd <==> c.Closed? || c.later == [])
      ensures old(At(conn, c, rest)) && atEnd ==> At(conn, Closed, rest)
      ensures old(At(conn, c, rest)) && !atEnd ==>
        !conn.closed && mc == conn && !done && columns == [] &&
        if c.later[0].Okay? then
          resLen == 0 && Sound(c.later[1..]) && (More(conn.status) <==> c.later[1..] != [])
          && conn.incoming == ResultsThen(c.later[1..], rest)
        else
          && ValidResult(c.later[0]) && resLen == |c.later[0].columns| > 0
          && Sound(c.later[1..]) && (More(c.later[0].rowsEnd.status) <==> c.later[1..] != [])
          && conn.incoming == SetBody(c.later[0], ResultsThen(c.later[1..], rest))
    {
      hide ResultsThen, RowsThen, SetBody, SkipToEof, ParseHeader, EndPacket, ValidResult;
      resLen, atEnd := 0, false;
      ghost var fine := old(At(conn, c, rest));
      if mc == null {
        return 0, true, NoError;
      }
      error := ConnError(mc);
      if error != NoError {
        return;
      }
      if !done {
        if fine {
          SkipRows(c.left, |c.columns|, c.end, ResultsThen(c.later, rest), mc.status);
        }
        error := mc.ReadUntilEof();
        if error != NoError {
          return;
        }
        done := true;
      }
      assert fine ==> Sound(c.later) && (More(mc.status) <==> c.later != []) && mc.incoming == ResultsThen(c.later, rest);
      if !More(mc.status) {
        mc := null;
        NoResults(rest);
        return 0, true, NoError;
      }
      done, columns := false, [];
      if fine {
        FirstResult(c.later, rest);
      }
      resLen, error := mc.ReadResultSetHeader();
    }

    /** Moves on to the next result set, past results without one. */
    method NextResultSet(ghost conn: Conn, ghost c: Cursor, ghost rest: seq<bytes>) returns (answer: Answer, error: Error)
      requires mc == null || mc == conn
      modifies this, conn`incoming, conn`closed, conn`status, conn`affectedRows, conn`insertId
      ensures mc == null || mc == conn
      ensures old(At(conn, c, rest)) ==>
        error == NoError && answer == SetAnswer(NextSet(c), conn.columnsWithAlias) && At(conn, NextSet(c), rest)
    {
      hide ResultsThen, RowsThen, EndPacket, ColumnsThen;
      ghost var fine := old(At(conn, c, rest));
      ghost var now := c;
      answer := NoMoreSets;
      while true
        invariant mc == null || mc == conn
        invariant fine ==> At(conn, now, rest) && NextSet(now) == NextSet(c)
        decreases |conn.incoming|
      {
        var resLen, atEnd;
        resLen, atEnd, error := NextResult(conn, now, rest);
        if error != NoError || atEnd {
          return;
        }
        if resLen > 0 {
          ghost var r := if fine then now.later[0] else Okay(0, 0, 0, []);
          columns, error := mc.ReadColumns(resLen, if fine then r.columns else [], if fine then r.columnsEnd else End(0, 0),
                                           if fine then RowsThen(r.rows, [EndPacket(r.rowsEnd)] + ResultsThen(now.later[1..], rest)) else []);
          answer := NewSet(columns);
          return;
        }
        done := true;
        now := if fine then Between(now.later[1..]) else now;
      }
    }

    /** Throws away what is left of the response. */
    method Close(ghost conn: Conn, ghost c: Cursor, ghost rest: seq<bytes>) returns (error: Error)
      requires mc == null || mc == conn
      modifies this`mc, conn`incoming, conn`closed, conn`status, conn`affectedRows, conn`insertId
      ensures old(At(conn, c, rest)) ==> error == NoError && mc == null && !conn.closed && conn.incoming == rest
    {
      hide ResultsThen, RowsThen, EndPacket, SkipToEof;
      if mc == null {
        return NoError;
      }
      error := ConnError(mc);
      if error != NoError {
        return;
      }
      ghost var fine := old(At(conn, c, rest));
      if !done {
        if fine {
          SkipRows(c.left, |c.columns|, c.end, ResultsThen(c.later, rest), mc.status);
        }
        error := mc.ReadUntilEof();
      }
      if error == NoError {
        error := mc.DiscardResults(if fine then c.later else [], rest);
        if error != NoError {
          return;
        }
      }
      mc := null;
    }
  }

  /** Sends a query and hands out its rows, placed at the first result set. */
  method Query(conn: Conn, query: bytes, ghost response: seq<Result>, ghost rest: seq<bytes>)
    returns (rows: Rows?, error: Error)
    modifies conn`incoming, conn`closed, conn`status, conn`affectedRows, conn`insertId, conn`commands
    ensures !old(conn.closed) ==> conn.commands == old(conn.commands) + [[COM_QUERY] + query]
    ensures old(!conn.closed && response != [] && Sound(response) && conn.incoming == ResultsThen(response, rest)) ==>
      error == NoError && rows != null && fresh(rows) && rows.At(conn, SkipTo(response), rest)
    ensures rows != null ==> fresh(rows) && (rows.mc == null || rows.mc == conn)
  {
    hide ResultsThen, RowsThen, EndPacket, ColumnsThen, ParseHeader;
    if conn.closed {
      return null, BadConn;
    }
    conn.commands := conn.commands + [[COM_QUERY] + query];
    ghost var fine := response != [] && Sound(response) && conn.incoming == ResultsThen(response, rest);
    if fine {
      FirstResult(response, rest);
    }
    var resLen;
    resLen, error := conn.ReadResultSetHeader();
    if error != NoError {
      return null, error;
    }
    rows := new Rows(conn);
    if resLen == 0 {
      rows.done := true;
      var answer;
      answer, error := rows.NextResultSet(conn, if fine then Between(response[1..]) else Closed, rest);
      if error != NoError {
        rows := null;
      }
      return;
    }
    ghost var r := if fine then response[0] else Okay(0, 0, 0, []);
    rows.columns, error := conn.ReadColumns(resLen, if fine then r.columns else [], if fine then r.columnsEnd else End(0, 0),
                                            if fine then RowsThen(r.rows, [EndPacket(r.rowsEnd)] + ResultsThen(response[1..], rest)) else []);
  }

  // ---------------------------------------------------------------- whole sessions

  datatype Op = AskRow | AskSet

  /** What a caller sees who performs these operations, according to the reference. */
  function Answers(c: Cursor, ops: seq<Op>, alias: bool): seq<Answer>
    decreases |ops|
  {
    if ops == [] then []
    else
      match ops[0]
      case AskRow => [RowAnswer(c)] + Answers(NextRow(c), ops[1..], alias)
      case AskSet => [SetAnswer(NextSet(c), alias)] + Answers(NextSet(c), ops[1..], alias)
  }

  function Move(c: Cursor, op: Op): Cursor {
    if op == AskRow then NextRow(c) else NextSet(c)
  }

  function Reply(c: Cursor, op: Op, alias: bool): Answer {
    if op == AskRow then RowAnswer(c) else SetAnswer(NextSet(c), alias)
  }

  lemma AnswersStep(c: Cursor, ops: seq<Op>, i: nat, alias: bool)
    requires i < |ops|
    ensures Answers(c, ops[i..], alias) == [Reply(c, ops[i], alias)] + Answers(Move(c, ops[i]), ops[i + 1..], alias)
  {
    assert ops[i..][1..] == ops[i + 1..];
  }

  lemma NoAnswers(c: Cursor, ops: seq<Op>, alias: bool)
    ensures Answers(c, ops[|ops|..], alias) == []
  {
  }

  /** The usual loop: every row of every set, then on to the next set. */
  function ReadAll(results: seq<Result>): seq<Op> {
    if results == [] then []
    else if results[0].Okay? then ReadAll(results[1..])
    else Repeat(|results[0].rows| + 1) + ([AskSet] + ReadAll(results[1..]))
  }

  function Repeat(n: nat): seq<Op> {
    if n == 0 then [] else [AskRow] + Repeat(n - 1)
  }

  function RowsAnswered(rows: seq<Row>): seq<Answer> {
    if rows == [] then [] else [OneRow(rows[0])] + RowsAnswered(rows[1..])
  }

  /** All that the results hold, in order. */
  function Everything(results: seq<Result>, alias: bool): seq<Answer> {
    if results == [] then []
    else if results[0].Okay? then Everything(results[1..], alias)
    else
      RowsAnswered(results[0].rows)
      + ([NoMoreRows, SetAnswer(SkipTo(results[1..]), alias)] + Everything(results[1..], alias))
  }

  lemma {:induction false} RowsInOrder(c: Cursor, ops: seq<Op>, alias: bool)
    requires c.Inside?
    ensures Answers(c, Repeat(|c.left| + 1) + ops, alias) ==
            RowsAnswered(c.left) + ([NoMoreRows] + Answers(NextRow(c.(left := [])), ops, alias))
    decreases |c.left|
  {
    var all := Repeat(|c.left| + 1) + ops;
    assert all == [AskRow] + (Repeat(|c.left|) + ops);
    AnswersStep(c, all, 0, alias);
    assert all[0..] == all && all[1..] == Repeat(|c.left|) + ops;
    if c.left == [] {
      assert Repeat(0) + ops == ops && c.(left := []) == c;
    } else {
      RowsInOrder(NextRow(c), ops, alias);
    }
  }

  /** The usual loop sees every row of every set, in order. */
  lemma {:induction false} ReadAllSeesEverything(results: seq<Result>, alias: bool)
    ensures Answers(SkipTo(results), ReadAll(results), alias) == Everything(results, alias)
  {
    if results != [] {
      ReadAllSeesEverything(results[1..], alias);
      if results[0].Set? {
        var c, later := SkipTo(results), ReadAll(results[1..]);
        var ops := [AskSet] + later;
        var atEnd := NextRow(c.(left := []));
        RowsInOrder(c, ops, alias);
        AnswersStep(atEnd, ops, 0, alias);
        assert ops[0..] == ops && ops[1..] == later;
      }
    }
  }

  /**
   A query, any operations on its rows, and Close: the caller sees what the reference says, and the
   connection is left exactly behind the response.
   */
  method Session(conn: Conn, query: bytes, ops: seq<Op>, ghost response: seq<Result>, ghost rest: seq<bytes>)
    returns (answers: seq<Answer>, error: Error)
    requires !conn.closed && response != [] && Sound(response) && conn.incoming == ResultsThen(response, rest)
    modifies conn`incoming, conn`closed, conn`status, conn`affectedRows, conn`insertId, conn`commands
    ensures error == NoError && !conn.closed && conn.incoming == rest
    ensures answers == Answers(SkipTo(response), ops, conn.columnsWithAlias)
    ensures conn.commands == old(conn.commands) + [[COM_QUERY] + query]
  {
    hide Answers, ResultsThen, InStep, SkipTo, NextRow, NextSet, RowAnswer, SetAnswer;
    var rows: Rows?;
    rows, error := Query(conn, query, response, rest);
    ghost var c := SkipTo(response);
    answers := [];
    ghost var goal, commands := Answers(SkipTo(response), ops, conn.columnsWithAlias), conn.commands;
    assert ops[0..] == ops;
    for i := 0 to |ops|
      invariant error == NoError && rows != null && fresh(rows) && rows.At(conn, c, rest)
      invariant conn.commands == commands
      invariant answers + Answers(c, ops[i..], conn.columnsWithAlias) == goal
    {
      var answer;
      AnswersStep(c, ops, i, conn.columnsWithAlias);
      if ops[i] == AskRow {
        answer, error := rows.Next(conn, c, rest);
        c := NextRow(c);
      } else {
        answer, error := rows.NextResultSet(conn, c, rest);
        c := NextSet(c);
      }
      ghost var later := Answers(c, ops[i + 1..], conn.columnsWithAlias);
      assert answers + ([answer] + later) == answers + [answer] + later;
      answers := answers + [answer];
    }
    assert Answers(c, ops[|ops|..], conn.columnsWithAlias) == [] by { NoAnswers(c, ops, conn.columnsWithAlias); }
    error := rows.Close(conn, c, rest);
  }

  /** The packet the client reads next inside a result set. */
  lemma NextPacket(c: Cursor, rest: seq<bytes>)
    requires c.Inside? && ValidRows(c.left, |c.columns|) && Sound(c.later) && c.end.status < 0x1_0000
    ensures var stream := RowsThen(c.left, [EndPacket(c.end)] + ResultsThen(c.later, rest));
            stream != [] && stream[0] != [] &&
            if c.left == [] then
              stream[0] == EndPacket(c.end) && stream[1..] == ResultsThen(c.later, rest)
              && FromLittleEndian(stream[0][3..5]) == c.end.status
            else
              && stream[1..] == RowsThen(c.left[1..], [EndPacket(c.end)] + ResultsThen(c.later, rest))
              && stream[0][0] != EOF && stream[0][0] != ERR
              && ReadValues(stream[0], |c.columns|) == ValuesRead.Values(c.left[0])
    ensures ResultsThen([], rest) == rest
  {
    hide ReadValues, EncodeValues, EndPacket;
    NoResults(rest);
    hide ResultsThen;
    if c.left == [] {
      EndStatus(c.end);
    } else {
      var row := c.left[0];
      assert row in c.left;
      RowStart(row);
      ValuesRoundTrip(row, []);
      assert EncodeValues(row) + [] == EncodeValues(row);
    }
  }
}
