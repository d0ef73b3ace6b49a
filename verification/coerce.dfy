/**
 The scalar coercer `setWithProperType` (binder.go:336-396): turns one form
 value into a field value of the field's kind. Go hands it the error list by
 value, so the error it adds never reaches the caller; here it returns the
 error beside the new value and the binder drops it.
 */
module Coerce {
  import opened Wrappers
  import opened Strconv
  import opened Shapes
  import opened BindErrors

  datatype Coerced = Coerced(value: Value, error: Option<FieldError>)

  const IntegerMessage := "Value could not be parsed as integer"
  const UnsignedMessage := "Value could not be parsed as unsigned integer"
  const BooleanMessage := "Value could not be parsed as boolean"

  /** Coerces `literal` for a field of kind `t` currently holding `current`;
      `key` is the form key that labels the error. */
  function SetWithProperType(t: Ty, literal: string, current: Value, key: string): (r: Coerced)
    // integers: "" reads as 0; an in-range base-10 literal is stored;
    // anything else keeps the field and yields one IntegerTypeError
    ensures t.IntTy? && literal == "" ==> r == Coerced(IntV(0), None)
    ensures t.IntTy? && literal != "" && IsSignedDecimal(literal) && InInt64(SignedValue(literal)) ==>
              r == Coerced(IntV(SignedValue(literal)), None)
    ensures t.IntTy? && literal != "" && !(IsSignedDecimal(literal) && InInt64(SignedValue(literal))) ==>
              r == Coerced(current, Some(FieldError([key], IntegerTypeError, IntegerMessage)))
    // unsigned integers: the same, with digits only
    ensures t.UintTy? && literal == "" ==> r == Coerced(UintV(0), None)
    ensures t.UintTy? && literal != "" && AllDigits(literal) && DigitsValue(literal) <= MaxUint64 ==>
              r == Coerced(UintV(DigitsValue(literal)), None)
    ensures t.UintTy? && literal != "" && !(AllDigits(literal) && DigitsValue(literal) <= MaxUint64) ==>
              r == Coerced(current, Some(FieldError([key], IntegerTypeError, UnsignedMessage)))
    // booleans: "on" and the true literals store true; false is never written
    ensures t.BoolTy? ==> r.value == (if literal == "on" || literal in TrueLiterals then BoolV(true) else current)
    ensures t.BoolTy? ==>
              (r.error.Some? <==> literal != "on" && literal != "" && literal !in TrueLiterals && literal !in FalseLiterals)
    ensures t.BoolTy? && r.error.Some? ==> r.error.value == FieldError([key], BooleanTypeError, BooleanMessage)
    // strings are always stored; other kinds are left alone
    ensures t.StringTy? ==> r == Coerced(StrV(literal), None)
    ensures !IsScalar(t) ==> r == Coerced(current, None)
    ensures TyConforms(current, t) ==> TyConforms(r.value, t)
  {
    match t
    case IntTy =>
      var lit := if literal == "" then "0" else literal;
      (match ParseInt(lit)
       case Parsed(n) => Coerced(IntV(n), None)
       case _ => Coerced(current, Some(FieldError([key], IntegerTypeError, IntegerMessage))))
    case UintTy =>
      var lit := if literal == "" then "0" else literal;
      (match ParseUint(lit)
       case Parsed(n) => Coerced(UintV(n), None)
       case _ => Coerced(current, Some(FieldError([key], IntegerTypeError, UnsignedMessage))))
    case BoolTy =>
      if literal == "on" then Coerced(BoolV(true), None)
      else
        var lit := if literal == "" then "false" else literal;
        (match ParseBool(lit)
         case None => Coerced(current, Some(FieldError([key], BooleanTypeError, BooleanMessage)))
         case Some(b) => if b then Coerced(BoolV(true), None) else Coerced(current, None))
    case StringTy => Coerced(StrV(literal), None)
    case _ => Coerced(current, None)
  }

  /** Coercing the same literal twice changes nothing the second time. */
  lemma CoerceIdempotent(t: Ty, literal: string, current: Value, key: string)
    ensures var once := SetWithProperType(t, literal, current, key).value;
            SetWithProperType(t, literal, once, key).value == once
  {
  }

  /** A scalar printed with `%v` and coerced back is stored unchanged, except
      that false is never written: the field keeps what it held. */
  lemma CoerceRender(t: Ty, v: Value, current: Value, key: string)
    requires IsScalar(t) && TyConforms(v, t)
    ensures SetWithProperType(t, Render(v), current, key)
            == (if v == BoolV(false) then Coerced(current, None) else Coerced(v, None))
  {
    match v
    case IntV(i) =>
      ParseFormatInt(i);
    case _ =>
  }
}
