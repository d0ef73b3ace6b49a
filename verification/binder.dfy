/**
 The entry points: `Form`, `MultipartForm` and `Json` (binder.go:55-174), which
 check the target, fill it and validate it, and `Bind` (binder.go:23-44), which
 picks one of them from the request method and Content-Type header.

 Request parsing is not modelled: `Form` takes the decoded key/value map and
 the error `ParseForm` reported, `MultipartForm` the parsed multipart form, and
 `Json` what the JSON decoder left in the struct together with how decoding
 ended.
 */
module Binder {
  import opened Wrappers
  import opened Text
  import opened Shapes
  import opened BindErrors
  import opened MapForm
  import opened Validation

  /** What the caller passes as the binding model, as `reflect` sees it. */
  datatype Target =
    | ByValue                               // not a pointer at all (a struct value, nil, ...)
    | NilPtr                                // a nil pointer of any type
    | ToStruct(fields: seq<Value>)          // a *T with T a struct
    | ToStructPtr(inner: Option<seq<Value>>) // a **T; the inner *T may be nil
    | ToOther                               // a *X with X neither a struct nor a pointer
    | ToOtherPtr(innerNil: bool)            // a pointer to a pointer whose pointee is not a struct

  /** The struct the target points to conforms to the declared fields. */
  predicate TargetConforms(t: Target, fs: seq<Field>) {
    match t
    case ToStruct(vs) => FieldsConform(vs, fs)
    case ToStructPtr(inner) => inner.Some? ==> FieldsConform(inner.value, fs)
    case _ => true
  }

  /** Outcome of the target checks (binder.go:58-72): the struct to fill, or
      the single error returned and the target as the checks left it. */
  datatype Resolution =
    | Rejected(error: FieldError, target: Target)
    | Resolved(fields: seq<Value>)

  /** A non-pointer is rejected; a nil inner pointer is allocated first; what
      it then points to must be a struct. */
  function Resolve(fs: seq<Field>, t: Target): (r: Resolution)
    requires TargetConforms(t, fs)
    ensures t.ByValue? <==> r == Rejected(ErrorInputNotByReference, t)
    ensures r.Resolved? <==> t.ToStruct? || t.ToStructPtr?
    ensures r.Rejected? && !t.ByValue? ==>
              r.error == ErrorInputIsNotStructure && r.target == (if t.ToOtherPtr? then ToOtherPtr(false) else t)
    ensures t.ToStruct? ==> r == Resolved(t.fields)
    ensures t.ToStructPtr? && t.inner.Some? ==> r == Resolved(t.inner.value)
    ensures t.ToStructPtr? && t.inner.None? ==> r == Resolved(ZeroFields(fs))
    ensures r.Resolved? ==> FieldsConform(r.fields, fs)
  {
    match t
    case ByValue => Rejected(ErrorInputNotByReference, t)
    case NilPtr => Rejected(ErrorInputIsNotStructure, t)
    case ToStruct(vs) => Resolved(vs)
    case ToStructPtr(inner) =>
      if inner.Some? then Resolved(inner.value)
      else
        ZeroFieldsConform(fs);
        Resolved(ZeroFields(fs))
    case ToOther => Rejected(ErrorInputIsNotStructure, t)
    case ToOtherPtr(_) => Rejected(ErrorInputIsNotStructure, ToOtherPtr(false))
  }

  /** Writes the filled struct back through the target. */
  function Store(t: Target, vs: seq<Value>): (r: Target)
    requires t.ToStruct? || t.ToStructPtr?
    ensures t.ToStruct? ==> r == ToStruct(vs)
    ensures t.ToStructPtr? ==> r == ToStructPtr(Some(vs))
  {
    if t.ToStruct? then ToStruct(vs) else ToStructPtr(Some(vs))
  }

  /** Whether the struct's `ValidateBinder` method has a value or a pointer receiver. */
  datatype Receiver = ValueReceiver | PointerReceiver

  /** The struct type's `ValidateBinder` method, if it declares one. */
  datatype HookDecl = HookDecl(run: Hook, receiver: Receiver)

  /** The hook `validate` finds on a struct passed by value, as `Form` and
      `MultipartForm` pass it: only a value-receiver method is in its method set. */
  function ValueHook(h: Option<HookDecl>): (r: Option<Hook>)
    ensures r.Some? <==> h.Some? && h.value.receiver == ValueReceiver
    ensures r.Some? ==> r.value == h.value.run
  {
    if h.Some? && h.value.receiver == ValueReceiver then Some(h.value.run) else None
  }

  /** The hook `validate` finds on a pointer to the struct, as `Json` passes
      it: methods of either receiver kind. */
  function PointerHook(h: Option<HookDecl>): (r: Option<Hook>)
    ensures r.Some? <==> h.Some?
    ensures r.Some? ==> r.value == h.value.run
  {
    if h.Some? then Some(h.value.run) else None
  }

  /** What an entry point returns, and the target as it leaves it. */
  datatype Outcome = Outcome(errors: Errors, target: Target)

  /** The error the request parser reported, if any, as a deserialization
      error (binder.go:79-81, 117-119). */
  function ParseErrors(parseError: Option<string>): (errs: Errors)
    ensures parseError.None? <==> errs == []
    ensures parseError.Some? ==> errs == [FieldError([], DeserializationError, parseError.value)]
  {
    if parseError.Some? then [FieldError([], DeserializationError, parseError.value)] else []
  }

  /** Everything one entry point needs to run without panicking. */
  predicate Runnable(fs: seq<Field>, t: Target, bag: Bag) {
    TargetConforms(t, fs) && Bindable(fs, true) && RulesWellFormed(fs) && WellFormedBag(bag)
  }

  /** `Form(formStruct, req)` (binder.go:55-88). */
  function Form(fs: seq<Field>, hook: Option<HookDecl>, t: Target, values: map<string, seq<string>>,
                parseError: Option<string>): (r: Outcome)
    requires Runnable(fs, t, Bag(values, map[]))
    ensures Resolve(fs, t).Rejected? ==> r == Outcome([Resolve(fs, t).error], Resolve(fs, t).target)
    ensures Resolve(fs, t).Resolved? ==>
              var bound := BindFields(fs, Resolve(fs, t).fields, Bag(values, map[]), true);
              && r.target == Store(t, bound)
              && r.errors == ParseErrors(parseError) + Validate(fs, bound, ValueHook(hook))
  {
    match Resolve(fs, t)
    case Rejected(e, t') => Outcome([e], t')
    case Resolved(vs) =>
      var bound := BindFields(fs, vs, Bag(values, map[]), true);
      Outcome(ParseErrors(parseError) + Validate(fs, bound, ValueHook(hook)), Store(t, bound))
  }

  /** The multipart form the binder reads: the parsed `form`, or, when
      `MultipartReader` failed, the empty form net/http installs before
      failing. */
  function MultipartSource(form: Bag, readerError: Option<string>): (bag: Bag)
    ensures readerError.None? ==> bag == form
    ensures readerError.Some? ==> bag.values == map[] && bag.files == map[]
  {
    if readerError.Some? then EmptyBag else form
  }

  /** `MultipartForm(formStruct, req)` (binder.go:94-135). `form` is the
      request's multipart form, values and files; `readerError` is the error
      `MultipartReader` reported for a request not parsed yet
      (binder.go:117-119). That error is reported, the struct is bound from an
      empty form (embedded struct pointers are reset to nil), and it is still
      validated. */
  function MultipartForm(fs: seq<Field>, hook: Option<HookDecl>, t: Target, form: Bag,
                         readerError: Option<string>): (r: Outcome)
    requires Runnable(fs, t, form)
    ensures Resolve(fs, t).Rejected? ==> r == Outcome([Resolve(fs, t).error], Resolve(fs, t).target)
    ensures Resolve(fs, t).Resolved? && readerError.None? ==>
              var bound := BindFields(fs, Resolve(fs, t).fields, form, true);
              && r.target == Store(t, bound)
              && r.errors == Validate(fs, bound, ValueHook(hook))
    ensures Resolve(fs, t).Resolved? && readerError.Some? ==>
              var bound := BindFields(fs, Resolve(fs, t).fields, EmptyBag, true);
              && r.target == Store(t, bound)
              && r.errors == [FieldError([], DeserializationError, readerError.value)] + Validate(fs, bound, ValueHook(hook))
  {
    match Resolve(fs, t)
    case Rejected(e, t') => Outcome([e], t')
    case Resolved(vs) =>
      var bound := BindFields(fs, vs, MultipartSource(form, readerError), true);
      Outcome(ParseErrors(readerError) + Validate(fs, bound, ValueHook(hook)), Store(t, bound))
  }

  /** How the JSON decoder ended: cleanly, on an empty body (`io.EOF`,
      which is not reported), or with an error message. */
  datatype DecodeEnd = Clean | Eof | Failed(message: string)

  /** The decoder's effect: the struct as decoding left it, and how it ended. */
  datatype Decoded = Decoded(fields: seq<Value>, end: DecodeEnd)

  /** What `Json` needs to run without panicking. It never calls `mapForm`,
      so nothing is asked of the fields' writability. A **T target is
      excluded: `validateStruct` would call NumField on a pointer type. */
  predicate JsonRunnable(fs: seq<Field>, t: Target, body: Option<Decoded>) {
    && TargetConforms(t, fs) && RulesWellFormed(fs) && !t.ToStructPtr?
    && (body.Some? ==> FieldsConform(body.value.fields, fs))
  }

  /** `Json(jsonStruct, req)` (binder.go:142-174); `body` is None when the
      request has no body. */
  function Json(fs: seq<Field>, hook: Option<HookDecl>, t: Target, body: Option<Decoded>): (r: Outcome)
    requires JsonRunnable(fs, t, body)
    ensures Resolve(fs, t).Rejected? ==> r == Outcome([Resolve(fs, t).error], Resolve(fs, t).target)
    ensures t.ToStruct? && body.None? ==>
              r == Outcome(Validate(fs, t.fields, PointerHook(hook)), t)
    ensures t.ToStruct? && body.Some? ==>
              && r.target == ToStruct(body.value.fields)
              && r.errors == DecodeErrors(body.value.end) + Validate(fs, body.value.fields, PointerHook(hook))
  {
    match Resolve(fs, t)
    case Rejected(e, t') => Outcome([e], t')
    case Resolved(vs) =>
      var decoded := if body.Some? then body.value.fields else vs;
      var decodeErrs := if body.Some? then DecodeErrors(body.value.end) else [];
      Outcome(decodeErrs + Validate(fs, decoded, PointerHook(hook)), ToStruct(decoded))
  }

  /** A decoding failure other than an empty body becomes one deserialization error. */
  function DecodeErrors(end: DecodeEnd): (errs: Errors)
    ensures end.Failed? <==> errs != []
    ensures end.Failed? ==> errs == [FieldError([], DeserializationError, end.message)]
  {
    if end.Failed? then [FieldError([], DeserializationError, end.message)] else []
  }

  /** The handler `Bind` chooses. */
  datatype Route = FormRoute | MultipartRoute | JsonRoute | EmptyContentType | UnsupportedContentType

  /** `Bind`'s choice from the method and the Content-Type header
      (binder.go:23-44): any request other than a POST or PUT without a header
      goes to Form; otherwise the first of "form-urlencoded",
      "multipart/form-data" and "json" found in the header wins, and with none
      of them the request is refused for an empty or an unsupported header. */
  function RouteOf(httpMethod: string, contentType: string): (r: Route)
    ensures httpMethod != "POST" && httpMethod != "PUT" && contentType == "" ==> r == FormRoute
    ensures r == FormRoute <==>
              (httpMethod != "POST" && httpMethod != "PUT" && contentType == "") || Contains(contentType, "form-urlencoded")
    ensures r == MultipartRoute <==>
              !Contains(contentType, "form-urlencoded") && Contains(contentType, "multipart/form-data")
    ensures r == JsonRoute <==>
              && !Contains(contentType, "form-urlencoded") && !Contains(contentType, "multipart/form-data")
              && Contains(contentType, "json")
    ensures r == EmptyContentType <==> (httpMethod == "POST" || httpMethod == "PUT") && contentType == ""
    ensures r == UnsupportedContentType <==>
              && contentType != ""
              && !Contains(contentType, "form-urlencoded") && !Contains(contentType, "multipart/form-data")
              && !Contains(contentType, "json")
  {
    if httpMethod == "POST" || httpMethod == "PUT" || contentType != "" then
      if Contains(contentType, "form-urlencoded") then FormRoute
      else if Contains(contentType, "multipart/form-data") then MultipartRoute
      else if Contains(contentType, "json") then JsonRoute
      else if contentType == "" then EmptyContentType
      else UnsupportedContentType
    else
      FormRoute
  }

  /** The parts of a request the entry points read. */
  datatype Request = Request(
    httpMethod: string,
    contentType: string,
    form: map<string, seq<string>>,   // `req.Form` after ParseForm
    parseError: Option<string>,       // what ParseForm returned
    multipart: Bag,                   // `req.MultipartForm`, values and files
    multipartError: Option<string>,   // what MultipartReader returned
    body: Option<Decoded>)            // the JSON decoder's effect, None without a body

  /** Bind runs on this request without panicking: the entry point it
      routes to can run. */
  predicate BindRunnable(fs: seq<Field>, t: Target, req: Request) {
    match RouteOf(req.httpMethod, req.contentType)
    case FormRoute => Runnable(fs, t, Bag(req.form, map[]))
    case MultipartRoute => Runnable(fs, t, req.multipart)
    case JsonRoute => JsonRunnable(fs, t, req.body)
    case _ => true
  }

  /** `Bind(obj, req)` (binder.go:23-44). A refused request changes nothing
      and carries exactly one content-type error. */
  function Bind(fs: seq<Field>, hook: Option<HookDecl>, t: Target, req: Request): (r: Outcome)
    requires BindRunnable(fs, t, req)
    ensures RouteOf(req.httpMethod, req.contentType) == EmptyContentType ==> r == Outcome([ErrorEmptyContentType], t)
    ensures RouteOf(req.httpMethod, req.contentType) == UnsupportedContentType ==>
              r == Outcome([ErrorUnsupportedContentType], t)
    ensures RouteOf(req.httpMethod, req.contentType) == FormRoute ==>
              r == Form(fs, hook, t, req.form, req.parseError)
    ensures RouteOf(req.httpMethod, req.contentType) == MultipartRoute ==>
              r == MultipartForm(fs, hook, t, req.multipart, req.multipartError)
    ensures RouteOf(req.httpMethod, req.contentType) == JsonRoute ==>
              r == Json(fs, hook, t, req.body)
  {
    match RouteOf(req.httpMethod, req.contentType)
    case FormRoute => Form(fs, hook, t, req.form, req.parseError)
    case MultipartRoute => MultipartForm(fs, hook, t, req.multipart, req.multipartError)
    case JsonRoute => Json(fs, hook, t, req.body)
    case EmptyContentType => Outcome([ErrorEmptyContentType], t)
    case UnsupportedContentType => Outcome([ErrorUnsupportedContentType], t)
  }

  /** The hook never introduces a type-coercion error. */
  ghost predicate HookKeepsClean(h: Option<HookDecl>) {
    h.Some? ==> forall vs, errs :: NoCoercionErrors(errs) ==> NoCoercionErrors(h.value.run(vs, errs))
  }

  /** Form never reports a type-coercion error: mapForm's are lost, and the
      other errors are the parse error, rule violations and what the hook adds. */
  lemma FormHasNoCoercionErrors(fs: seq<Field>, hook: Option<HookDecl>, t: Target,
                                values: map<string, seq<string>>, parseError: Option<string>)
    requires Runnable(fs, t, Bag(values, map[])) && HookKeepsClean(hook)
    ensures NoCoercionErrors(Form(fs, hook, t, values, parseError).errors)
  {
    if Resolve(fs, t).Resolved? {
      var bound := BindFields(fs, Resolve(fs, t).fields, Bag(values, map[]), true);
      ValidateKeepsClean(fs, bound, hook);
      CleanAppend(ParseErrors(parseError), Validate(fs, bound, ValueHook(hook)));
    }
  }

  /** Validating with a hook that keeps lists clean gives a clean list. */
  lemma ValidateKeepsClean(fs: seq<Field>, vs: seq<Value>, hook: Option<HookDecl>)
    requires FieldsConform(vs, fs) && RulesWellFormed(fs) && HookKeepsClean(hook)
    ensures NoCoercionErrors(Validate(fs, vs, ValueHook(hook)))
  {
    ViolationsAreRuleErrors(fs, vs);
  }

  /** MultipartForm fails the same way: the multipart values and files only
      feed the binder, whose coercion errors are lost. */
  lemma MultipartHasNoCoercionErrors(fs: seq<Field>, hook: Option<HookDecl>, t: Target, form: Bag,
                                     readerError: Option<string>)
    requires Runnable(fs, t, form) && HookKeepsClean(hook)
    ensures NoCoercionErrors(MultipartForm(fs, hook, t, form, readerError).errors)
  {
    if Resolve(fs, t).Resolved? {
      var bound := BindFields(fs, Resolve(fs, t).fields, MultipartSource(form, readerError), true);
      ValidateKeepsClean(fs, bound, hook);
      CleanAppend(ParseErrors(readerError), Validate(fs, bound, ValueHook(hook)));
    }
  }

  /** A multipart form without files binds like a url-encoded form that
      parsed cleanly. */
  lemma MultipartWithoutFilesIsForm(fs: seq<Field>, hook: Option<HookDecl>, t: Target,
                                    values: map<string, seq<string>>)
    requires Runnable(fs, t, Bag(values, map[]))
    ensures MultipartForm(fs, hook, t, Bag(values, map[]), None) == Form(fs, hook, t, values, None)
  {
  }

  /** When `MultipartReader` fails, MultipartForm behaves as Form on a request
      with no values whose parsing failed with the same message: whatever the
      multipart form held is ignored. */
  lemma MultipartReaderFailure(fs: seq<Field>, hook: Option<HookDecl>, t: Target, form: Bag, message: string)
    requires Runnable(fs, t, form)
    ensures Runnable(fs, t, Bag(map[], map[]))
    ensures MultipartForm(fs, hook, t, form, Some(message)) == Form(fs, hook, t, map[], Some(message))
  {
    assert Bag(map[], map[]) == EmptyBag;
  }

  /** A nil inner pointer is allocated and, with nothing in the request and
      no hook, left pointing at a zero struct, whose violations are reported. */
  lemma {:induction false} FormAllocatesNilPointer(fs: seq<Field>)
    requires Bindable(fs, true) && RulesWellFormed(fs)
    ensures Form(fs, None, ToStructPtr(None), map[], None) ==
              Outcome(Violations(fs, ZeroFields(fs)), ToStructPtr(Some(ZeroFields(fs))))
  {
    ZeroFieldsConform(fs);
    ZeroEmbeddedNil(fs);
    EmptyBagBindsNothing(fs, ZeroFields(fs), true);
    assert Bag(map[], map[]) == EmptyBag;
  }

  /** With no form values and no parse error, Form leaves a struct as it was
      (embedded pointers nil) and only validates it. */
  lemma {:induction false} EmptyFormOnlyValidates(fs: seq<Field>, hook: Option<HookDecl>, vs: seq<Value>)
    requires Runnable(fs, ToStruct(vs), EmptyBag) && EmbeddedNil(fs, vs)
    ensures Form(fs, hook, ToStruct(vs), map[], None) == Outcome(Validate(fs, vs, ValueHook(hook)), ToStruct(vs))
  {
    EmptyBagBindsNothing(fs, vs, true);
    assert Bag(map[], map[]) == EmptyBag;
  }

  /** A pointer-receiver hook is run by Json but not by Form. */
  lemma PointerHookOnlyForJson(fs: seq<Field>, h: Hook, vs: seq<Value>)
    requires Runnable(fs, ToStruct(vs), EmptyBag) && EmbeddedNil(fs, vs)
    ensures Form(fs, Some(HookDecl(h, PointerReceiver)), ToStruct(vs), map[], None).errors == Violations(fs, vs)
    ensures Json(fs, Some(HookDecl(h, PointerReceiver)), ToStruct(vs), None).errors == h(vs, Violations(fs, vs))
  {
    EmptyFormOnlyValidates(fs, Some(HookDecl(h, PointerReceiver)), vs);
  }
}
