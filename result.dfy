/** The Result class of the binding and the two Connection methods that
    create Results: cResult_fetch_row, cResult_close, cResult_set_types,
    cConnection_execute_reader and cConnection_execute_non_query. */
module ResultSet {
  import opened Wrappers
  import opened Sqlite
  import opened Ruby
  import opened Rows

  /** What Data_Get_Struct raises when `@reader` is nil. */
  const NilReader := RubyError("TypeError", "wrong argument type nil (expected data)")

  /** A RbSqlite3::Result. Each field is one of its instance variables;
      `None` and `null` stand for an instance variable that is nil or was
      never set. `fieldTypes` holds the names of the Ruby classes the
      caller declared, one per column. */
  class Result {
    var reader: Statement?
    var affectedRows: Option<int>
    var insertedId: Option<int>
    var fieldCount: Option<int>
    var fieldNames: Option<seq<string>>
    var fieldTypes: Option<seq<string>>

    /** While a statement is held it is live, and the result knows its
        column count and has a list of class names. */
    ghost predicate Valid()
      reads this, reader
    {
      reader != null ==>
        reader.Valid() && !reader.finalized &&
        fieldCount == Some(|reader.columnNames|) && fieldTypes.Some?
    }

    /** The shape execute_reader gives a result. */
    ghost predicate IsReaderResult()
      reads this, reader
    {
      reader != null && affectedRows == None && insertedId == None &&
      fieldCount == Some(|reader.columnNames|) &&
      fieldNames.Some? && |fieldNames.value| == |reader.columnNames| &&
      fieldTypes == Some([])
    }

    /** The shape execute_non_query gives a result. */
    ghost predicate IsNonQueryResult()
      reads this
    {
      reader == null && affectedRows.Some? && insertedId.Some? &&
      fieldCount == None && fieldNames == None && fieldTypes == None
    }

    /** Result.new: no instance variable is set yet. */
    constructor ()
      ensures Valid()
      ensures reader == null && affectedRows == None && insertedId == None
      ensures fieldCount == None && fieldNames == None && fieldTypes == None
    {
      reader := null;
      affectedRows := None;
      insertedId := None;
      fieldCount := None;
      fieldNames := None;
      fieldTypes := None;
    }

    /** cResult_fetch_row: raises if no statement is held; otherwise steps
        the statement once and yields nothing unless a row is ready, or the
        row decoded with the declared class names (natively if none were
        declared). Nothing of the result itself changes. */
    method FetchRow(env: HostEnv) returns (r: FetchOutcome)
      requires Valid()
      requires reader != null && reader.answers(reader.steps).RowReady? ==>
                 TypesCover(fieldTypes.value, fieldCount.value)
      modifies reader
      ensures Valid()
      ensures old(reader) == null ==> r == Failed(NilReader)
      ensures reader != null ==>
                reader.steps == old(reader.steps) + 1 && !reader.finalized &&
                r == FetchSpec(env, fieldTypes.value, fieldCount.value, reader.answers(old(reader.steps)))
    {
      if reader == null {
        return Failed(NilReader);
      }
      var stmt := reader;
      var count: nat := fieldCount.value;
      var types := fieldTypes.value;
      var step := stmt.Step();
      if !step.RowReady? {
        return NoRow;
      }
      var row := DecodeColumns(env, types, step.columns, count);
      match row
      case Raised(e) => r := Failed(e);
      case Returned(values) => r := Fetched(values);
    }

    /** cResult_close: finalizes the statement if one is held and forgets
        it, answering whether there was one. No other instance variable
        changes. */
    method Close() returns (closed: bool)
      requires Valid()
      modifies this`reader, reader
      ensures Valid()
      ensures closed == (old(reader) != null)
      ensures reader == null
      ensures closed ==> old(reader).finalized && old(reader).steps == old(reader.steps)
    {
      if reader != null {
        reader.Finalize();
        reader := null;
        closed := true;
      } else {
        closed := false;
      }
    }

    /** cResult_set_types: replaces the declared class names and returns
        the argument. No other instance variable changes. */
    method SetTypes(types: seq<string>) returns (r: seq<string>)
      requires Valid()
      modifies this`fieldTypes
      ensures Valid()
      ensures fieldTypes == Some(types)
      ensures r == types
    {
      fieldTypes := Some(types);
      r := types;
    }
  }

  /** The engine's answer to sqlite3_prepare_v2: a statement, or the text
      of sqlite3_errmsg. */
  datatype Prepared = Prepared(stmt: Statement) | PrepareFailed(message: string)

  /** The engine's answer to sqlite3_exec followed by sqlite3_changes and
      sqlite3_last_insert_rowid, or the error message sqlite3_exec gave. */
  datatype Executed = Executed(changes: int, lastInsertRowid: int) | ExecFailed(message: string)

  /** A RbSqlite3::Connection, as far as the execute methods touch it. */
  class Connection {
    var lastError: Option<string>

    constructor ()
      ensures lastError == None
    {
      lastError := None;
    }

    /** cConnection_execute_reader: on a failed prepare, records the
        engine's message and returns nil; otherwise a reader result over
        the new statement, with the column names in column order and no
        class names declared. */
    method ExecuteReader(prepared: Prepared) returns (result: Result?)
      requires prepared.Prepared? ==> prepared.stmt.Valid() && !prepared.stmt.finalized
      modifies this`lastError
      ensures prepared.PrepareFailed? ==> result == null && lastError == Some(CString(prepared.message))
      ensures prepared.Prepared? ==>
                lastError == old(lastError) &&
                result != null && fresh(result) && result.Valid() && result.IsReaderResult() &&
                result.reader == prepared.stmt &&
                forall i :: 0 <= i < |prepared.stmt.columnNames| ==>
                  result.fieldNames.value[i] == CString(prepared.stmt.columnNames[i])
    {
      if prepared.PrepareFailed? {
        lastError := Some(CString(prepared.message));
        return null;
      }
      var stmt := prepared.stmt;
      var fieldCount := |stmt.columnNames|;
      result := new Result();
      result.reader := stmt;
      result.affectedRows := None;
      result.fieldCount := Some(fieldCount);
      var names: seq<string> := [];
      var i := 0;
      while i < fieldCount
        invariant 0 <= i <= fieldCount
        invariant |names| == i
        invariant forall k :: 0 <= k < i ==> names[k] == CString(stmt.columnNames[k])
      {
        names := names + [CString(stmt.columnNames[i])];
        i := i + 1;
      }
      result.fieldNames := Some(names);
      result.fieldTypes := Some([]);
    }

    /** cConnection_execute_non_query: on a failed exec, records the
        engine's message and returns nil; otherwise a non-query result with
        the change count and the last rowid cut to a C `int`. */
    method ExecuteNonQuery(executed: Executed) returns (result: Result?)
      modifies this`lastError
      ensures executed.ExecFailed? ==> result == null && lastError == Some(CString(executed.message))
      ensures executed.Executed? ==>
                lastError == old(lastError) &&
                result != null && fresh(result) && result.Valid() && result.IsNonQueryResult() &&
                result.affectedRows == Some(executed.changes) &&
                result.insertedId == Some(ToCInt(executed.lastInsertRowid))
    {
      if executed.ExecFailed? {
        lastError := Some(CString(executed.message));
        return null;
      }
      result := new Result();
      result.affectedRows := Some(executed.changes);
      result.reader := null;
      result.insertedId := Some(ToCInt(executed.lastInsertRowid));
    }
  }

  /** A result closed twice: the first close releases the statement, the
      second finds nothing to release, and a fetch afterwards raises. */
  method CloseTwiceThenFetch(result: Result, env: HostEnv) returns (first: bool, second: bool, fetched: FetchOutcome)
    requires result.Valid() && result.reader != null
    modifies result, result.reader
    ensures first && !second
    ensures fetched == Failed(NilReader)
  {
    first := result.Close();
    second := result.Close();
    fetched := result.FetchRow(env);
  }
}
