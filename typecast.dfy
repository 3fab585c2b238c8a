/** The two attribute types and the `typecaster` that coerces values to them. */
module Typecast {
  import opened Results
  import opened RubyValues

  datatype AttrType = StringType | IntegerType

  /** The symbol that names a type. */
  function TypeSymbol(t: AttrType): string
  {
    match t
    case StringType => "string"
    case IntegerType => "integer"
  }

  /** The type symbols the engine knows: `:string` and `:integer`, and nothing else. */
  function ParseType(sym: string): (r: Option<AttrType>)
    ensures r.Some? <==> sym == "string" || sym == "integer"
    ensures r.Some? ==> TypeSymbol(r.value) == sym
  {
    if sym == "string" then Some(StringType)
    else if sym == "integer" then Some(IntegerType)
    else None
  }

  /** Coerce `v` to `t`: `to_s` for strings, `to_i` for integers. */
  function Cast(v: Val, t: AttrType): (r: Val)
    ensures r.VStr? <==> t == StringType
    ensures r.VInt? <==> t == IntegerType
  {
    match t
    case StringType => VStr(ToS(v))
    case IntegerType => VInt(ToI(v))
  }

  /**
   * `typecaster(val, type)`: the coercion for a known type symbol, and the
   * "i don't know this type" error for any other.
   */
  function Typecaster(v: Val, sym: string): Result<Val, Error>
  {
    match ParseType(sym)
    case None => Err(UnknownCastType(sym))
    case Some(t) => Ok(Cast(v, t))
  }

  /** Casting an already cast value to the same type leaves it unchanged. */
  lemma CastIdempotent(v: Val, t: AttrType)
    ensures Cast(Cast(v, t), t) == Cast(v, t)
  {
  }

  /** nil casts to the zero value of each type: "" and 0. */
  lemma CastNil()
    ensures Cast(VNil, StringType) == VStr("")
    ensures Cast(VNil, IntegerType) == VInt(0)
  {
  }

  /**
   * `typecaster` succeeds exactly for `:string` and `:integer`, and casting
   * its result again with the same type gives the same result.
   */
  lemma TypecasterIdempotent(v: Val, sym: string)
    ensures Typecaster(v, sym).Ok? <==> sym == "string" || sym == "integer"
    ensures Typecaster(v, sym).Ok? ==> Typecaster(Typecaster(v, sym).value, sym) == Typecaster(v, sym)
    ensures Typecaster(v, sym).Err? ==> Typecaster(v, sym).error == UnknownCastType(sym)
  {
    if ParseType(sym).Some? {
      CastIdempotent(v, ParseType(sym).value);
    }
  }

  /** `typecaster(nil, :string)` is "" and `typecaster(nil, :integer)` is 0. */
  lemma TypecasterNil()
    ensures Typecaster(VNil, "string") == Ok(VStr(""))
    ensures Typecaster(VNil, "integer") == Ok(VInt(0))
  {
    CastNil();
  }

  /** The string "4" cast to an integer is 4. */
  lemma CastFour(v: Val)
    requires v == Cast(VStr("4"), IntegerType)
    ensures v == VInt(4)
  {
    ParseFour();
  }

  /** An Integer cast to a string and back to an integer is unchanged. */
  lemma CastThroughString(i: int)
    ensures Cast(Cast(VInt(i), StringType), IntegerType) == VInt(i)
  {
    IntToStringRoundTrip(i);
  }
}
