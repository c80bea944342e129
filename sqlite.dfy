/** The part of the SQLite C interface that the Ruby binding calls:
    storage classes, column values as the sqlite3_value_* accessors see
    them, the C `int` those accessors return, and a prepared statement that
    sqlite3_step advances. How SQLite itself evaluates SQL is not modelled:
    a statement is an oracle that answers each step. */
module Sqlite {
  import opened Wrappers

  /** The storage class sqlite3_column_type reports for a value. */
  datatype StorageClass = IntegerClass | FloatClass | TextClass | BlobClass | NullClass

  /** The 64 bits of an IEEE double. The binding only passes doubles on,
      so no arithmetic is defined on them. */
  datatype Double = Double(bits: bv64)

  /** One column value of the current row: its storage class, and what
      sqlite3_value_int64, sqlite3_value_double and sqlite3_value_text
      return for it once SQLite has applied its own conversions between
      storage classes (those conversions are the engine's and are not
      modelled). `text` is ignored for a NULL value, for which the text
      accessor returns a null pointer (see ValueText). */
  datatype RawValue = RawValue(storage: StorageClass, int64: int, double: Double, text: string)

  const INT_MIN: int := -0x8000_0000
  const INT_MAX: int := 0x7fff_ffff

  /** C's conversion of an integer to a 32-bit `int`: the low 32 bits, read
      as two's complement. */
  function ToCInt(x: int): (r: int)
    ensures INT_MIN <= r <= INT_MAX
    ensures INT_MIN <= x <= INT_MAX ==> r == x
    ensures (x - r) % 0x1_0000_0000 == 0
  {
    var m := (x - INT_MIN) % 0x1_0000_0000;
    assert x - (m + INT_MIN) == 0x1_0000_0000 * ((x - INT_MIN) / 0x1_0000_0000);
    m + INT_MIN
  }

  /** sqlite3_value_int: the 64-bit integer view cut down to a C `int`. */
  function ValueInt(v: RawValue): (r: int)
    ensures INT_MIN <= r <= INT_MAX
    ensures INT_MIN <= v.int64 <= INT_MAX ==> r == v.int64
    ensures (v.int64 - r) % 0x1_0000_0000 == 0
  {
    ToCInt(v.int64)
  }

  /** sqlite3_value_text: the text view, or a null pointer for NULL. */
  function ValueText(v: RawValue): Option<string>
  {
    if v.storage == NullClass then None else Some(v.text)
  }

  /** What one call of sqlite3_step reports: a row is ready (SQLITE_ROW,
      with the values of its columns), the statement is done (SQLITE_DONE),
      or any other result code. */
  datatype StepResult = RowReady(columns: seq<RawValue>) | Done | StepError(code: int)

  /** A prepared statement (sqlite3_stmt). The engine's answers to
      successive steps are fixed when it is prepared; `steps` counts the
      steps taken so far. What SQLite answers after SQLITE_DONE is the
      engine's business, so nothing here says that it keeps answering
      SQLITE_DONE. */
  class Statement {
    const columnNames: seq<string>
    const answers: nat -> StepResult
    var steps: nat
    var finalized: bool

    /** Every row the engine reports has sqlite3_column_count columns. */
    ghost predicate Valid()
    {
      forall n: nat :: answers(n).RowReady? ==> |answers(n).columns| == |columnNames|
    }

    /** A freshly prepared statement, before its first step. */
    constructor (columnNames: seq<string>, answers: nat -> StepResult)
      requires forall n: nat :: answers(n).RowReady? ==> |answers(n).columns| == |columnNames|
      ensures Valid() && !finalized && steps == 0
      ensures this.columnNames == columnNames && this.answers == answers
    {
      this.columnNames := columnNames;
      this.answers := answers;
      steps := 0;
      finalized := false;
    }

    /** sqlite3_step on a live statement. */
    method Step() returns (r: StepResult)
      requires !finalized
      modifies this`steps
      ensures steps == old(steps) + 1
      ensures r == answers(old(steps))
    {
      r := answers(steps);
      steps := steps + 1;
    }

    /** sqlite3_finalize: the statement may not be used again. */
    method Finalize()
      requires !finalized
      modifies this`finalized
      ensures finalized
    {
      finalized := true;
    }
  }

  /** The answers of a statement that reports `rows` in order and then
      whatever the engine chooses (`afterwards`, indexed from the first step
      past the last row). */
  function RowsThen(rows: seq<seq<RawValue>>, afterwards: nat -> StepResult): nat -> StepResult
  {
    (n: nat) => if n < |rows| then RowReady(rows[n]) else afterwards(n - |rows|)
  }
}
