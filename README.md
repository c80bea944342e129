# RbSqlite3 result decoding, in Dafny

This project models the core of `do_sqlite3/ext/rbsqlite3.c`, the C
extension that gives Ruby a SQLite driver. The core is the
`RbSqlite3::Result` object and its two value decoders:

- `native_typecast` picks a Ruby value from the storage class SQLite
  reports for a column: NULL, INTEGER, TEXT or FLOAT. BLOB has no case and
  gives nil.
- `ruby_typecast` picks a Ruby value from the name of the Ruby class the
  caller declared for the column: `Fixnum`, `String`, `Float`, `Date`,
  `DateTime` or `Time`. Any other name gives nil.
- `Result#fetch_row` steps the prepared statement once. It returns nil
  unless a row is ready. Otherwise it decodes `field_count` columns in
  order: all natively when no class names are declared, otherwise column
  `i` by the `i`-th declared name.
- `Result#close` finalizes the statement if one is held and forgets it.
  `Result#set_types` replaces the declared class names.
- `Connection#execute_reader` and `Connection#execute_non_query` create
  the two shapes of Result, or record `@last_error` and return nil.

Modules, one concern each:

- `Wrappers`: `Option`.
- `Sqlite`: storage classes, a column value as the `sqlite3_value_*`
  accessors see it (`RawValue`), the C `int` cast (`ToCInt`), and the
  prepared statement (`Statement`), an object whose step count advances.
  The engine's answer to each step is fixed when the statement is prepared
  (`answers`). Nothing is said about what it answers after SQLITE_DONE.
- `Ruby`: Ruby values, raised exceptions (`Outcome`), `rb_str_new2`
  (`StrNew2`, cutting at the first NUL and raising on a null pointer), and
  `HostEnv`, which holds `Date.parse`, `DateTime.parse` and `to_time` as
  functions passed in.
- `Typecast`: the two decoders, plus `TypeName`, a closed enumeration of
  the recognised names that the by-name decoder is proved to dispatch on.
- `Rows`: decoding one row (`DecodePrefix`), the column loop
  (`DecodeColumns`) and the meaning of one fetch (`FetchSpec`).
- `ResultSet`: the `Result` and `Connection` classes.
- `Scenarios`: a table `(id, name, created)` fetched both ways.

Behaviour of the code worth noting:

- The by-name decoder accepts the class names `Fixnum` and `Time`.
  `Integer` and `Timestamp` give nil.
- Unknown names give nil. They do not raise.
- The number of declared names is never compared with the column count.
- Running out of rows does not finalize the statement. Only `close` does.
- `fetch_row` on a result without a statement (closed, or a non-query
  result) raises TypeError from `Data_Get_Struct`. The engine is never
  reached.

## Model

| member | source | states |
|---|---|---|
| `Sqlite.ToCInt` | do_sqlite3/ext/rbsqlite3.c:139 | the C `int` that `sqlite3_value_int` returns is in the 32-bit range, equals the engine's integer when that fits, and otherwise differs from it by a multiple of 2^32 |
| `Sqlite.ValueInt` | do_sqlite3/ext/rbsqlite3.c:158 | `sqlite3_value_int` gives a value in the C `int` range, equal to the engine's 64-bit integer when that fits and congruent to it modulo 2^32 otherwise |
| `Sqlite.Statement.Step` | do_sqlite3/ext/rbsqlite3.c:196 | one `sqlite3_step` consumes exactly one of the engine's answers, in order |
| `Sqlite.Statement.Finalize` | do_sqlite3/ext/rbsqlite3.c:115 | `sqlite3_finalize` leaves the statement unusable |
| `Ruby.CString` | do_sqlite3/ext/rbsqlite3.c:143 | the Ruby String made from a C string is the longest prefix without NUL; it is the whole text when the text has no NUL |
| `Ruby.StrNew2` | do_sqlite3/ext/rbsqlite3.c:161 | `rb_str_new2` raises ArgumentError exactly for a null pointer; otherwise it returns the text up to its first NUL, which is the whole text when the text has no NUL |
| `Typecast.TextOf` | do_sqlite3/ext/rbsqlite3.c:167 | the Ruby String of a column's text raises ArgumentError exactly for a NULL value; otherwise it is the text up to its first NUL, which is the whole text when the text has no NUL |
| `Typecast.NativeTypecast` | do_sqlite3/ext/rbsqlite3.c:131-152 | native decoding gives nil exactly for NULL and BLOB; an Integer exactly for INTEGER, namely the C `int` that `sqlite3_value_int` gives (in range, congruent to the engine's integer modulo 2^32); a String exactly for TEXT, namely the text cut at its first NUL as `rb_str_new2` cuts it; a Float exactly for FLOAT, holding the double of `sqlite3_value_double` |
| `Typecast.Recognise` | do_sqlite3/ext/rbsqlite3.c:157-172 | a name is recognised exactly when it spells one of the six TypeNames, and then as that TypeName |
| `Typecast.SpellingRoundTrip` | do_sqlite3/ext/rbsqlite3.c:157-172 | every TypeName is recognised from its own spelling and from no other string |
| `Typecast.RubyTypecast` | do_sqlite3/ext/rbsqlite3.c:155-178 | by-name decoding gives nil for an unrecognised name; `Fixnum` and `Float` always return a non-nil value; the four text-based names raise ArgumentError on a NULL value (the values for recognised names follow from `Typecast.RubyTypecastIsDispatch` and `Typecast.DecodeAs`) |
| `Typecast.DecodeAs` | do_sqlite3/ext/rbsqlite3.c:157-176 | per recognised name: `Fixnum` returns the C `int` of `sqlite3_value_int` (in range, congruent to the engine's integer modulo 2^32); `Float` returns the double of `sqlite3_value_double`; on a non-NULL value, `String` returns the text cut at its first NUL, and `Date` and `DateTime` return `Date.parse` and `DateTime.parse` of that cut text; the four text-based names raise ArgumentError on a NULL value |
| `Typecast.RubyTypecastIsDispatch` | do_sqlite3/ext/rbsqlite3.c:155-178 | the if-chain of string comparisons equals the closed dispatch on the recognised TypeName, with nil for unrecognised names, so every value `DecodeAs` states is what `ruby_typecast` returns for that name |
| `Typecast.TimeIsToTimeOfDateTime` | do_sqlite3/ext/rbsqlite3.c:172-176 | `Time` decoding is `to_time` applied to the `DateTime` decoding of the same value, an exception in either step propagating |
| `Typecast.OtherNamesGiveNil` | do_sqlite3/ext/rbsqlite3.c:155-178 | `Integer`, `Timestamp` and `fixnum` are not recognised and give nil |
| `Typecast.RubyTypecastIgnoresStorageClass` | do_sqlite3/ext/rbsqlite3.c:155-178 | by-name decoding depends only on the name and the accessor views of the value, never on its storage class |
| `Typecast.NativeAgreesWithNamed` | do_sqlite3/ext/rbsqlite3.c:138-148 | on INTEGER, TEXT and FLOAT values, native decoding agrees with by-name decoding with `Fixnum`, `String` and `Float` |
| `Rows.DecodeColumn` | do_sqlite3/ext/rbsqlite3.c:203-207 | with no declared names a column is decoded natively and never raises; with declared names an unrecognised name gives nil, and only the text-based names can raise |
| `Rows.DecodePrefix` | do_sqlite3/ext/rbsqlite3.c:202-210 | a decoded row of `n` columns has exactly `n` values, value `i` being the decoding of column `i` |
| `Rows.RaisePersists` | do_sqlite3/ext/rbsqlite3.c:202-210 | once a column's decoding raises, the rest of the row is not decoded and the exception is the row's outcome |
| `Rows.RaisedAtFirstFailingColumn` | do_sqlite3/ext/rbsqlite3.c:202-210 | a row fails if and only if some column's decoding raises, and then with the exception of the first such column |
| `Rows.NativeRowAlwaysDecodes` | do_sqlite3/ext/rbsqlite3.c:203-204 | with no declared names every column is decoded natively, by its own storage class, and the row never fails |
| `Rows.NamedRowDecodesByPosition` | do_sqlite3/ext/rbsqlite3.c:206-207 | with declared names, column `i` is decoded by `ruby_typecast` with the `i`-th name, whether or not the row decodes; for a row that decodes, value `i` is that decoding's value |
| `Rows.DecodeColumns` | do_sqlite3/ext/rbsqlite3.c:202-210 | the column loop, which chooses the path once, yields the row decoding of `fieldCount` columns or the first exception raised |
| `Rows.FetchSpec` | do_sqlite3/ext/rbsqlite3.c:196-212 | a fetch yields nothing exactly when the step reports no row; a fetched row has `field_count` values in column order; a failed fetch carries the exception of the first column whose decoding raises; a fetch with no declared names never fails |
| `ResultSet.Result.constructor` | do_sqlite3/ext/rbsqlite3.c:82 | `Result.new` has no instance variable set |
| `ResultSet.Result.FetchRow` | do_sqlite3/ext/rbsqlite3.c:180-213 | without a statement it raises TypeError and steps nothing; otherwise it steps exactly once and yields `FetchSpec` of the engine's answer; no instance variable changes |
| `ResultSet.Result.Close` | do_sqlite3/ext/rbsqlite3.c:109-122 | returns true exactly when a statement was held; that statement is finalized; afterwards no statement is held; no other instance variable changes |
| `ResultSet.Result.SetTypes` | do_sqlite3/ext/rbsqlite3.c:124-127 | replaces the declared names with its argument and returns it; no other instance variable changes |
| `ResultSet.Connection.ExecuteReader` | do_sqlite3/ext/rbsqlite3.c:63-100 | on a failed prepare, nil and `@last_error` set to the engine's message; otherwise a new reader result holding the statement, with `affected_rows` nil, `field_count` the column count, the column names in order, and no declared names |
| `ResultSet.Connection.ExecuteNonQuery` | do_sqlite3/ext/rbsqlite3.c:35-61 | on a failed exec, nil and `@last_error` set; otherwise a new non-query result with no statement, the change count and the last rowid cut to a C `int` |
| `ResultSet.CloseTwiceThenFetch` | do_sqlite3/ext/rbsqlite3.c:109-122 | on a reader result the first close returns true, a second close returns false, and a fetch after that raises TypeError |
| `Scenarios.NativeRow` | do_sqlite3/ext/rbsqlite3.c:202-204 | the row `(1, name, created)` decodes natively to `[1, name, created]`, `created` staying a String |
| `Scenarios.NamedRow` | do_sqlite3/ext/rbsqlite3.c:206-207 | with `Fixnum`, `String`, `DateTime` declared the same row decodes to `[1, name, DateTime.parse(created)]`, or fails with the parse's exception |
| `Scenarios.FetchBothWays` | do_sqlite3/ext/rbsqlite3.c:180-213 | a reader result fetched before and after `set_types` yields those two rows |

## Left out

- Connection lifecycle (`Connection#initialize`, `Connection#close`, `Connection#last_error`): direct calls of `sqlite3_open` and `sqlite3_close`, or a read of `@last_error`. No logic of its own.
- SQLite itself (`sqlite3_prepare_v2`, `sqlite3_exec`, `sqlite3_step`, `sqlite3_changes`, `sqlite3_last_insert_rowid`, and the conversions between storage classes that the value accessors apply): the engine's answers are parameters of the model.
- What `sqlite3_step` answers after SQLITE_DONE is left to the engine. The model does not promise that a fetch past the end keeps returning nil.
- `Date.parse`, `DateTime.parse` and `to_time` are foreign Ruby methods. They are passed in as `HostEnv`. The lookup of `Date` and `DateTime` with `const_get` at load time is not modelled.
- Init_rbsqlite3, `rb_define_*`, and the `Data_Wrap_Struct`/`rb_iv_set` plumbing are Ruby glue. The model represents instance variables as fields and nil as `None` or `null`.
- The `sqlite3_value_*` accessors are taken as given: a `RawValue` records what each returns, and the text accessor is assumed to give a null pointer exactly for NULL values (`Sqlite.ValueText`). SQLite's own conversions between storage classes are not modelled.
- Text is a sequence of characters. SQLite hands the extension UTF-8 bytes, which become Ruby byte strings, so a TEXT value holding invalid UTF-8 cannot be represented.
- `HostEnv` treats `Date.parse`, `DateTime.parse` and `to_time` as pure functions of their argument, fixed for the whole model. In Ruby, `Date.parse` fills missing fields from the current date and `to_time` depends on the process time zone, so the model describes one snapshot of that environment.
- Doubles are kept as their 64 bits. No floating-point reasoning is done.
- `set_types` is modelled for an array of classes, given by their names. Passing something other than an array of classes is not modelled: the C code would then read memory it must not.
- ResultSet.Result.SetTypes: aliasing is not captured. The C code stores the caller's array by reference, and the `field_types` reader returns that same object, so changing the array after `set_types` (appending a class, clearing it) changes the decoding path of the next `fetch_row`. In the model `fieldTypes` is a value that changes only through `SetTypes`.
- `ResultSet.Result.FetchRow` requires, when the step will report a row and names are declared, at least one name per column. The C code indexes the array without a bounds check, but it reads past the end only once the loop reaches the first column without a name. The model therefore excludes one call whose behaviour is defined: a row in which a column before that one raises. In that case the C code raises that column's exception without ever reading past the array. Fetches that report no row, and fetches without a statement, are modelled for any number of names.
- Running out of memory in SQLite or Ruby is not modelled.
- Concurrent use of a result or connection is not modelled. The extension is single-threaded.
