/**
 Structured binding errors. The `Errors` type of the library is an ordered
 list of `Error{FieldNames, Classification, Message}`; `Add` appends. The file
 that declares it (errors.go) is not part of this model, so the
 classification strings are taken to be the constants' own names.
 */
module BindErrors {

  datatype FieldError = FieldError(fieldNames: seq<string>, classification: string, message: string)

  type Errors = seq<FieldError>

  const ContentTypeError := "ContentTypeError"
  const DeserializationError := "DeserializationError"
  const IntegerTypeError := "IntegerTypeError"
  const BooleanTypeError := "BooleanTypeError"
  const FloatTypeError := "FloatTypeError"
  const RequiredError := "RequiredError"
  const AlphaDashError := "AlphaDashError"
  const AlphaDashDotError := "AlphaDashDotError"
  const MinSizeError := "MinSizeError"
  const MaxSizeError := "MaxSizeError"
  const EmailError := "EmailError"
  const UrlError := "UrlError"

  const ErrorEmptyContentType := FieldError([], ContentTypeError, "Empty Content-Type")
  const ErrorUnsupportedContentType := FieldError([], ContentTypeError, "Unsupported Content-Type")
  const ErrorInputNotByReference := FieldError([], DeserializationError, "input binding model is not by reference")
  const ErrorInputIsNotStructure := FieldError([], DeserializationError, "binding model is required to be structure")

  /** Classifications the type coercer produces. */
  predicate IsCoercionClass(c: string) {
    c == IntegerTypeError || c == BooleanTypeError || c == FloatTypeError
  }

  /** No error in the list comes from type coercion. */
  predicate NoCoercionErrors(errs: Errors) {
    forall i :: 0 <= i < |errs| ==> !IsCoercionClass(errs[i].classification)
  }

  /** Joining two clean lists gives a clean list. */
  lemma CleanAppend(a: Errors, b: Errors)
    requires NoCoercionErrors(a) && NoCoercionErrors(b)
    ensures NoCoercionErrors(a + b)
  {
    forall i | 0 <= i < |a + b| ensures !IsCoercionClass((a + b)[i].classification) {
      if i >= |a| {
        assert (a + b)[i] == b[i - |a|];
      }
    }
  }
}
