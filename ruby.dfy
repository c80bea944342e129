/** The Ruby side of the binding: the values a C extension hands back to
    Ruby, the exceptions it can raise, the conversion of a C string into a
    Ruby String, and the Date and DateTime classes the typecasts call. */
module Ruby {
  import opened Wrappers
  import opened Sqlite

  /** A Ruby value the typecasts can produce. `Object` stands for anything
      a foreign method returns (a Date, a DateTime, a Time, ...). */
  datatype HostValue =
    | Nil
    | Integer(i: int)
    | String(s: string)
    | Float(d: Double)
    | Object(className: string, id: nat)

  /** A raised Ruby exception: its class and message. */
  datatype RubyError = RubyError(className: string, message: string)

  /** A Ruby call either returns a value or raises. */
  datatype Outcome<+T> = Returned(value: T) | Raised(error: RubyError)
  {
    /** Pass a returned value on to the next call; an exception skips it. */
    function Then<U>(f: T -> Outcome<U>): Outcome<U>
    {
      match this
      case Returned(x) => f(x)
      case Raised(e) => Raised(e)
    }
  }

  /** The foreign methods the by-name typecast calls: `Date.parse`,
      `DateTime.parse` and `to_time` on what DateTime.parse returned. Each
      may return any value or raise. */
  datatype HostEnv = HostEnv(
    dateParse: string -> Outcome<HostValue>,
    dateTimeParse: string -> Outcome<HostValue>,
    toTime: HostValue -> Outcome<HostValue>)

  /** The string a C `char *` holds: everything before the first NUL. */
  function CString(s: string): (r: string)
    ensures r <= s
    ensures '\0' !in r
    ensures |r| < |s| ==> s[|r|] == '\0'
    ensures '\0' !in s ==> r == s
  {
    if s == [] || s[0] == '\0' then [] else [s[0]] + CString(s[1..])
  }

  /** What rb_str_new2 raises when given a null pointer. */
  const NullPointerGiven := RubyError("ArgumentError", "NULL pointer given")

  /** rb_str_new2: a Ruby String of the C string, or ArgumentError for a
      null pointer. */
  function StrNew2(p: Option<string>): (r: Outcome<string>)
    ensures p.None? <==> r.Raised?
    ensures r.Raised? ==> r.error == NullPointerGiven
    ensures p.Some? ==> r.Returned? && r.value <= p.value && '\0' !in r.value
    ensures p.Some? && |r.value| < |p.value| ==> p.value[|r.value|] == '\0'
    ensures p.Some? && '\0' !in p.value ==> r == Returned(p.value)
  {
    match p
    case None => Raised(NullPointerGiven)
    case Some(s) => Returned(CString(s))
  }
}
