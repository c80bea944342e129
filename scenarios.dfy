/** A table (id INTEGER, name TEXT, created TEXT) holding the row
    (1, name, created) twice, `created` being a date-time text: fetched
    with no class names declared, `created` stays a String; fetched after
    declaring Fixnum, String and DateTime, it is what DateTime.parse makes
    of the text. */
module Scenarios {
  import opened Sqlite
  import opened Ruby
  import opened Rows
  import opened ResultSet

  function Zero(): Double { Double(0) }

  function TableRow(name: string, created: string): seq<RawValue>
  {
    [RawValue(IntegerClass, 1, Zero(), "1"),
     RawValue(TextClass, 0, Zero(), name),
     RawValue(TextClass, 0, Zero(), created)]
  }

  lemma NativeRow(env: HostEnv, name: string, created: string)
    requires '\0' !in name && '\0' !in created
    ensures FetchSpec(env, [], 3, RowReady(TableRow(name, created))) ==
              Fetched([Integer(1), String(name), String(created)])
  {
  }

  lemma NamedRow(env: HostEnv, name: string, created: string)
    requires '\0' !in name && '\0' !in created
    ensures FetchSpec(env, ["Fixnum", "String", "DateTime"], 3, RowReady(TableRow(name, created))) ==
              match env.dateTimeParse(created)
              case Returned(dt) => Fetched([Integer(1), String(name), dt])
              case Raised(e) => Failed(e)
  {
  }

  /** Executes the query, fetches once natively, declares the class names
      and fetches again. */
  method FetchBothWays(env: HostEnv, name: string, created: string, afterwards: nat -> StepResult)
    returns (native: FetchOutcome, named: FetchOutcome)
    requires '\0' !in name && '\0' !in created
    requires forall n: nat :: afterwards(n).RowReady? ==> |afterwards(n).columns| == 3
    ensures native == Fetched([Integer(1), String(name), String(created)])
    ensures named == match env.dateTimeParse(created)
                     case Returned(dt) => Fetched([Integer(1), String(name), dt])
                     case Raised(e) => Failed(e)
  {
    var row := TableRow(name, created);
    var answers := RowsThen([row, row], afterwards);
    var stmt := new Statement(["id", "name", "created"], answers);
    var conn := new Connection();
    var result := conn.ExecuteReader(Prepared(stmt));
    native := result.FetchRow(env);
    NativeRow(env, name, created);
    var declared := result.SetTypes(["Fixnum", "String", "DateTime"]);
    assert declared == ["Fixnum", "String", "DateTime"];
    named := result.FetchRow(env);
    NamedRow(env, name, created);
  }
}
