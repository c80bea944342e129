/** The two value decoders of rbsqlite3.c: native_typecast, which goes by
    the storage class the engine reports, and ruby_typecast, which goes by
    the name of the Ruby class the caller declared for the column. */
module Typecast {
  import opened Wrappers
  import opened Sqlite
  import opened Ruby

  /** native_typecast: NULL gives nil, INTEGER an Integer of the C `int`
      view, TEXT a String, FLOAT a Float; the switch has no case for BLOB,
      which therefore gives nil as well. */
  function NativeTypecast(v: RawValue): (r: HostValue)
    ensures r == Nil <==> v.storage == NullClass || v.storage == BlobClass
    ensures r.Integer? <==> v.storage == IntegerClass
    ensures r.String? <==> v.storage == TextClass
    ensures r.Float? <==> v.storage == FloatClass
    ensures r.Integer? ==> INT_MIN <= r.i <= INT_MAX
    ensures v.storage == IntegerClass ==> (v.int64 - r.i) % 0x1_0000_0000 == 0
    ensures v.storage == TextClass ==> r == String(CString(v.text))
    ensures v.storage == FloatClass ==> r == Float(v.double)
  {
    match v.storage
    case NullClass => Nil
    case IntegerClass => Integer(ValueInt(v))
    // a TEXT value never has a null text pointer, so rb_str_new2 returns
    case TextClass => String(CString(v.text))
    case FloatClass => Float(v.double)
    case BlobClass => Nil
  }

  /** The names the decoders recognise for a Ruby class name, as a closed
      set. */
  datatype TypeName = FixnumType | StringType | FloatType | DateType | DateTimeType | TimeType

  function Spelling(t: TypeName): string
  {
    match t
    case FixnumType => "Fixnum"
    case StringType => "String"
    case FloatType => "Float"
    case DateType => "Date"
    case DateTimeType => "DateTime"
    case TimeType => "Time"
  }

  /** The TypeName a class name spells, if any (names are compared exactly,
      as strcmp does). */
  function Recognise(s: string): (r: Option<TypeName>)
    ensures r.Some? ==> Spelling(r.value) == s
    ensures r.None? ==> forall t: TypeName :: Spelling(t) != s
  {
    if s == "Fixnum" then Some(FixnumType)
    else if s == "String" then Some(StringType)
    else if s == "Float" then Some(FloatType)
    else if s == "Date" then Some(DateType)
    else if s == "DateTime" then Some(DateTimeType)
    else if s == "Time" then Some(TimeType)
    else None
  }

  /** The Ruby String of a value's text, or ArgumentError for NULL. */
  function TextOf(v: RawValue): (r: Outcome<string>)
    ensures r.Raised? <==> v.storage == NullClass
    ensures r.Raised? ==> r.error == NullPointerGiven
    ensures r.Returned? ==> r.value <= v.text && '\0' !in r.value
    ensures r.Returned? && |r.value| < |v.text| ==> v.text[|r.value|] == '\0'
    ensures v.storage != NullClass && '\0' !in v.text ==> r == Returned(v.text)
  {
    StrNew2(ValueText(v))
  }

  /** ruby_typecast: the if-chain of string comparisons on the declared
      class name. The storage class of the value plays no part; an
      unrecognised name gives nil. */
  function RubyTypecast(env: HostEnv, v: RawValue, typeName: string): (r: Outcome<HostValue>)
    ensures Recognise(typeName).None? ==> r == Returned(Nil)
    ensures typeName in {"Fixnum", "Float"} ==> r.Returned? && r.value != Nil
    ensures typeName in {"String", "Date", "DateTime", "Time"} && v.storage == NullClass ==>
              r == Raised(NullPointerGiven)
  {
    if typeName == "Fixnum" then
      Returned(Integer(ValueInt(v)))
    else if typeName == "String" then
      TextOf(v).Then(s => Returned(String(s)))
    else if typeName == "Float" then
      Returned(Float(v.double))
    else if typeName == "Date" then
      TextOf(v).Then(env.dateParse)
    else if typeName == "DateTime" then
      TextOf(v).Then(env.dateTimeParse)
    else if typeName == "Time" then
      // needs DateTime#to_time in the host
      TextOf(v).Then(env.dateTimeParse).Then(env.toTime)
    else
      Returned(Nil)
  }

  /** The decoding each TypeName stands for, stated per name: the three
      accessors for Fixnum, String and Float, a parse of the text for Date
      and DateTime, and for Time the DateTime decoding followed by to_time. */
  function DecodeAs(env: HostEnv, v: RawValue, t: TypeName): (r: Outcome<HostValue>)
    ensures t == FixnumType || t == FloatType ==> r.Returned? && r.value != Nil
    ensures t != FixnumType && t != FloatType && v.storage == NullClass ==> r == Raised(NullPointerGiven)
    ensures t == FixnumType ==>
              r.Returned? && r.value.Integer? && INT_MIN <= r.value.i <= INT_MAX &&
              (v.int64 - r.value.i) % 0x1_0000_0000 == 0
    ensures t == FloatType ==> r == Returned(Float(v.double))
    ensures t == StringType && v.storage != NullClass ==> r == Returned(String(CString(v.text)))
    ensures t == DateType && v.storage != NullClass ==> r == env.dateParse(CString(v.text))
    ensures t == DateTimeType && v.storage != NullClass ==> r == env.dateTimeParse(CString(v.text))
    decreases if t == TimeType then 1 else 0
  {
    match t
    case FixnumType => Returned(Integer(ValueInt(v)))
    case StringType => TextOf(v).Then(s => Returned(String(s)))
    case FloatType => Returned(Float(v.double))
    case DateType => TextOf(v).Then(env.dateParse)
    case DateTimeType => TextOf(v).Then(env.dateTimeParse)
    case TimeType => DecodeAs(env, v, DateTimeType).Then(env.toTime)
  }

  /** Every TypeName is recognised from its own spelling, and from no other
      string. */
  lemma SpellingRoundTrip(t: TypeName, s: string)
    ensures Recognise(Spelling(t)) == Some(t)
    ensures Recognise(s) == Some(t) <==> s == Spelling(t)
  {
  }

  /** The by-name decoding is the closed dispatch on the recognised
      TypeName, and nil for any name that is not recognised. */
  lemma RubyTypecastIsDispatch(env: HostEnv, v: RawValue, typeName: string)
    ensures RubyTypecast(env, v, typeName) ==
              match Recognise(typeName)
              case None => Returned(Nil)
              case Some(t) => DecodeAs(env, v, t)
  {
  }

  /** "Time" decodes to to_time applied to what "DateTime" decodes to. */
  lemma TimeIsToTimeOfDateTime(env: HostEnv, v: RawValue)
    ensures RubyTypecast(env, v, "Time") == RubyTypecast(env, v, "DateTime").Then(env.toTime)
  {
  }

  /** Names that differ from the recognised ones only in spelling, such as
      "Integer" or "Timestamp", give nil. */
  lemma OtherNamesGiveNil(env: HostEnv, v: RawValue)
    ensures RubyTypecast(env, v, "Integer") == Returned(Nil)
    ensures RubyTypecast(env, v, "Timestamp") == Returned(Nil)
    ensures RubyTypecast(env, v, "fixnum") == Returned(Nil)
  {
  }

  /** By-name decoding looks only at the accessor views of the value, never
      at its storage class. */
  lemma RubyTypecastIgnoresStorageClass(env: HostEnv, v: RawValue, w: RawValue, typeName: string)
    requires v.int64 == w.int64 && v.double == w.double && ValueText(v) == ValueText(w)
    ensures RubyTypecast(env, v, typeName) == RubyTypecast(env, w, typeName)
  {
  }

  /** On a value of the matching storage class, the native decoding and the
      by-name decoding with "Fixnum", "String" or "Float" agree. */
  lemma NativeAgreesWithNamed(env: HostEnv, v: RawValue)
    ensures v.storage == IntegerClass ==> RubyTypecast(env, v, "Fixnum") == Returned(NativeTypecast(v))
    ensures v.storage == TextClass ==> RubyTypecast(env, v, "String") == Returned(NativeTypecast(v))
    ensures v.storage == FloatClass ==> RubyTypecast(env, v, "Float") == Returned(NativeTypecast(v))
  {
  }
}
