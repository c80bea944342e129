/** Decoding one fetched row (the column loop of cResult_fetch_row): which
    decoder each column goes through, how an exception from a decoder ends
    the row, and what a whole fetch yields for one answer of the engine. */
module Rows {
  import opened Sqlite
  import opened Ruby
  import opened Typecast

  /** The declared class names can be read for every column: either none
      are declared, or at least one per column (the C code indexes the
      array without checking its length). */
  predicate TypesCover(types: seq<string>, fieldCount: nat)
  {
    types == [] || fieldCount <= |types|
  }

  /** The decoding of column `i`: native when no class names are declared,
      otherwise by the name declared for that column. */
  function DecodeColumn(env: HostEnv, types: seq<string>, columns: seq<RawValue>, i: nat): (r: Outcome<HostValue>)
    requires i < |columns| && TypesCover(types, i + 1)
    ensures types == [] ==> r.Returned? && r.value == NativeTypecast(columns[i])
    ensures types != [] && Recognise(types[i]).None? ==> r == Returned(Nil)
    ensures types != [] && r.Raised? ==> types[i] in {"String", "Date", "DateTime", "Time"}
  {
    if types == [] then Returned(NativeTypecast(columns[i]))
    else RubyTypecast(env, columns[i], types[i])
  }

  /** The first `n` columns decoded left to right; the first exception
      raised ends the decoding. */
  function DecodePrefix(env: HostEnv, types: seq<string>, columns: seq<RawValue>, n: nat): (r: Outcome<seq<HostValue>>)
    requires n <= |columns| && TypesCover(types, n)
    ensures r.Returned? ==> |r.value| == n
    ensures r.Returned? ==> forall i :: 0 <= i < n ==> DecodeColumn(env, types, columns, i) == Returned(r.value[i])
    decreases n
  {
    if n == 0 then Returned([])
    else
      match DecodePrefix(env, types, columns, n - 1)
      case Raised(e) => Raised(e)
      case Returned(vs) =>
        match DecodeColumn(env, types, columns, n - 1)
        case Raised(e) => Raised(e)
        case Returned(x) => Returned(vs + [x])
  }

  /** Once a prefix has raised, every longer prefix raises the same
      exception. */
  lemma {:induction false} RaisePersists(env: HostEnv, types: seq<string>, columns: seq<RawValue>, i: nat, n: nat)
    requires i <= n <= |columns| && TypesCover(types, n)
    requires DecodePrefix(env, types, columns, i).Raised?
    ensures DecodePrefix(env, types, columns, n) == DecodePrefix(env, types, columns, i)
    decreases n - i
  {
    if i < n {
      RaisePersists(env, types, columns, i, n - 1);
    }
  }

  /** A row fails exactly when some column's decoding raises, and then with
      the exception of the first such column. */
  lemma {:induction false} RaisedAtFirstFailingColumn(env: HostEnv, types: seq<string>, columns: seq<RawValue>, n: nat)
    requires n <= |columns| && TypesCover(types, n)
    ensures DecodePrefix(env, types, columns, n).Raised? <==>
              exists i :: 0 <= i < n && DecodeColumn(env, types, columns, i).Raised?
    ensures DecodePrefix(env, types, columns, n).Raised? ==>
              exists i :: 0 <= i < n && DecodeColumn(env, types, columns, i) == Raised(DecodePrefix(env, types, columns, n).error) &&
                forall j :: 0 <= j < i ==> DecodeColumn(env, types, columns, j).Returned?
  {
    if n > 0 {
      RaisedAtFirstFailingColumn(env, types, columns, n - 1);
      var prefix := DecodePrefix(env, types, columns, n - 1);
      if prefix.Returned? {
        assert forall j :: 0 <= j < n - 1 ==> DecodeColumn(env, types, columns, j).Returned?;
      }
    }
  }

  /** With no class names declared every column is decoded natively, and
      native decoding never raises: the row always comes back. */
  lemma {:induction false} NativeRowAlwaysDecodes(env: HostEnv, columns: seq<RawValue>, n: nat)
    requires n <= |columns|
    ensures DecodePrefix(env, [], columns, n).Returned?
    ensures forall i :: 0 <= i < n ==> DecodePrefix(env, [], columns, n).value[i] == NativeTypecast(columns[i])
  {
    if n > 0 {
      NativeRowAlwaysDecodes(env, columns, n - 1);
    }
  }

  /** With class names declared, column `i` is decoded by the name at
      position `i`, whatever its storage class. */
  lemma NamedRowDecodesByPosition(env: HostEnv, types: seq<string>, columns: seq<RawValue>, n: nat)
    requires n <= |columns| && types != [] && n <= |types|
    ensures forall i :: 0 <= i < n ==> DecodeColumn(env, types, columns, i) == RubyTypecast(env, columns[i], types[i])
    ensures DecodePrefix(env, types, columns, n).Returned? ==>
              forall i :: 0 <= i < n ==>
                RubyTypecast(env, columns[i], types[i]) == Returned(DecodePrefix(env, types, columns, n).value[i])
  {
  }

  /** The column loop of cResult_fetch_row: decides once whether to decode
      natively, then decodes columns 0 .. fieldCount-1 in order, pushing
      each value; an exception from a decoder leaves the loop. */
  method DecodeColumns(env: HostEnv, types: seq<string>, columns: seq<RawValue>, fieldCount: nat)
    returns (r: Outcome<seq<HostValue>>)
    requires fieldCount <= |columns| && TypesCover(types, fieldCount)
    ensures r == DecodePrefix(env, types, columns, fieldCount)
    ensures r.Returned? ==> |r.value| == fieldCount
    ensures r.Raised? ==> exists i :: 0 <= i < fieldCount && DecodeColumn(env, types, columns, i) == Raised(r.error)
  {
    var native := |types| == 0;
    var arr: seq<HostValue> := [];
    var i := 0;
    while i < fieldCount
      invariant 0 <= i <= fieldCount
      invariant DecodePrefix(env, types, columns, i) == Returned(arr)
    {
      var value;
      if native {
        value := Returned(NativeTypecast(columns[i]));
      } else {
        value := RubyTypecast(env, columns[i], types[i]);
      }
      if value.Raised? {
        RaisePersists(env, types, columns, i + 1, fieldCount);
        RaisedAtFirstFailingColumn(env, types, columns, fieldCount);
        return Raised(value.error);
      }
      arr := arr + [value.value];
      i := i + 1;
    }
    RaisedAtFirstFailingColumn(env, types, columns, fieldCount);
    return Returned(arr);
  }

  /** What fetch_row yields for one answer of sqlite3_step. */
  datatype FetchOutcome = Fetched(values: seq<HostValue>) | NoRow | Failed(error: RubyError)

  /** A fetch: no row unless the step reported one, and then the decoded
      row, or the exception that ended its decoding. */
  function FetchSpec(env: HostEnv, types: seq<string>, fieldCount: nat, step: StepResult): (r: FetchOutcome)
    requires step.RowReady? ==> fieldCount <= |step.columns| && TypesCover(types, fieldCount)
    ensures r == NoRow <==> !step.RowReady?
    ensures r.Fetched? ==> |r.values| == fieldCount
    ensures r.Fetched? ==> forall i :: 0 <= i < fieldCount ==> DecodeColumn(env, types, step.columns, i) == Returned(r.values[i])
    ensures r.Failed? ==>
              exists i :: 0 <= i < fieldCount && DecodeColumn(env, types, step.columns, i) == Raised(r.error) &&
                forall j :: 0 <= j < i ==> DecodeColumn(env, types, step.columns, j).Returned?
    ensures types == [] && step.RowReady? ==> r.Fetched?
  {
    if !step.RowReady? then NoRow
    else
      RaisedAtFirstFailingColumn(env, types, step.columns, fieldCount);
      NativeRowAlwaysDecodes(env, step.columns, fieldCount);
      match DecodePrefix(env, types, step.columns, fieldCount)
      case Raised(e) => Failed(e)
      case Returned(vs) => Fetched(vs)
  }
}
