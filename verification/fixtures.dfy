/**
 The library's test fixtures (common_test.go:17-70) as field descriptors, and
 what binding and validating them gives.
 */
module Fixtures {
  import opened Wrappers
  import opened Text
  import opened Strconv
  import opened Shapes
  import opened BindErrors
  import opened Coerce
  import opened MapForm
  import opened Validation
  import opened Binder

  function Tagged(name: string, form: string, binding: string, ty: Ty): Field {
    Field(name, form, binding, true, false, Leaf(ty))
  }

  /** `Post`: a required title and an optional content. */
  const PostFields := [
    Tagged("Title", "title", "Required", StringTy),
    Tagged("Content", "content", "", StringTy)]

  /** `Person`: a required name and an optional e-mail. */
  const PersonFields := [
    Tagged("Name", "name", "Required", StringTy),
    Tagged("Email", "email", "", StringTy)]

  /** `BlogPost`: an embedded Post, a required id, an ignored field, repeated
      ratings, a nested and a pointer Person, single and multiple files, and
      an unexported field. */
  const BlogPostFields := [
    EmbeddedPost, IdField, IgnoredField, RatingsField, AuthorField,
    CoauthorField, HeaderImageField, PicturesField, UnexportedField]

  const EmbeddedPost := Field("Post", "", "", true, true, Record(PostFields))
  const IdField := Tagged("Id", "id", "Required", IntTy)
  const IgnoredField := Tagged("Ignored", "-", "", StringTy)
  const RatingsField := Tagged("Ratings", "rating", "", SliceOf(IntTy))
  const AuthorField := Field("Author", "", "", true, false, Record(PersonFields))
  const CoauthorField := Field("Coauthor", "", "", true, false, RecordPtr(PersonFields))
  const HeaderImageField := Tagged("HeaderImage", "headerImage", "", FileTy)
  const PicturesField := Tagged("Pictures", "picture", "", SliceOf(FileTy))
  const UnexportedField := Field("unexported", "unexported", "", false, false, Leaf(StringTy))

  /** `EmbedPerson`: an embedded *Person. */
  const EmbedPersonFields := [Field("Person", "", "", true, true, RecordPtr(PersonFields))]

  /** `SadForm`: one rule of each kind per field. */
  const SadFormFields := [
    Tagged("AlphaDash", "AlphaDash", "AlphaDash", StringTy),
    Tagged("AlphaDashDot", "AlphaDashDot", "AlphaDashDot", StringTy),
    Tagged("MinSize", "MinSize", "MinSize(5)", StringTy),
    Tagged("MinSizeSlice", "MinSizeSlice", "MinSize(5)", SliceOf(StringTy)),
    Tagged("MaxSize", "MaxSize", "MaxSize(1)", StringTy),
    Tagged("MaxSizeSlice", "MaxSizeSlice", "MaxSize(1)", SliceOf(StringTy)),
    Tagged("Email", "Email", "Email", StringTy),
    Tagged("Url", "Url", "Url", StringTy),
    Tagged("UrlEmpty", "UrlEmpty", "Url", StringTy)]

  const LengthErrorTitle := FieldError(["Title"], "LengthError", "Life is too short")

  /** `Post.ValidateBinder` (common_test.go:61-70): a title shorter than 10
      bytes appends a LengthError. The hook reads the Title field; a value
      that is not a Post is passed through. */
  function PostHook(vs: seq<Value>, errs: Errors): (r: Errors) {
    if |vs| > 0 && vs[0].StrV? && ByteLen(vs[0].s) < 10 then errs + [LengthErrorTitle] else errs
  }

  /** BlogPost's hook is Post's, promoted from the embedded field. */
  function BlogPostHook(vs: seq<Value>, errs: Errors): (r: Errors) {
    if |vs| > 0 && vs[0].RecordV? then PostHook(vs[0].fields, errs) else errs
  }

  const PostHookDecl := HookDecl(PostHook, ValueReceiver)
  const BlogPostHookDecl := HookDecl(BlogPostHook, ValueReceiver)

  /** The hook keeps the list and appends exactly one LengthError after it iff
      the title is shorter than 10 bytes; for an ASCII title, 10 characters. */
  lemma PostHookAppendsLengthError(title: string, content: string, errs: Errors)
    ensures var r := PostHook([StrV(title), StrV(content)], errs);
            && r[..|errs|] == errs
            && (ByteLen(title) < 10 <==> |r| == |errs| + 1)
            && (ByteLen(title) < 10 ==> r[|errs|] == LengthErrorTitle)
            && (ByteLen(title) >= 10 ==> r == errs)
            && (IsAscii(title) ==> (|title| < 10 <==> |r| == |errs| + 1))
  {
    if IsAscii(title) {
      AsciiByteLen(title);
    }
  }

  /** The fixtures' hooks never add a type-coercion error. */
  lemma FixtureHooksKeepClean()
    ensures HookKeepsClean(Some(PostHookDecl))
    ensures HookKeepsClean(Some(BlogPostHookDecl))
  {
    forall vs: seq<Value>, errs: Errors | NoCoercionErrors(errs) ensures NoCoercionErrors(PostHook(vs, errs)) {
      if |vs| > 0 && vs[0].StrV? && ByteLen(vs[0].s) < 10 {
        LengthErrorIsClean(errs);
      }
    }
    forall vs: seq<Value>, errs: Errors | NoCoercionErrors(errs) ensures NoCoercionErrors(BlogPostHook(vs, errs)) {
      if |vs| > 0 && vs[0].RecordV? {
        var ps := vs[0].fields;
        if |ps| > 0 && ps[0].StrV? && ByteLen(ps[0].s) < 10 {
          LengthErrorIsClean(errs);
        }
      }
    }
  }

  lemma LengthErrorIsClean(errs: Errors)
    requires NoCoercionErrors(errs)
    ensures NoCoercionErrors(errs + [LengthErrorTitle])
  {
    var r := errs + [LengthErrorTitle];
    forall i | 0 <= i < |r| ensures !IsCoercionClass(r[i].classification) {
      if i < |errs| {
        assert r[i] == errs[i];
      }
    }
  }

  const RequiredTitle := FieldError(["Title"], RequiredError, "Required")

  /** The report of a two-field struct is the first field's, then the second's. */
  lemma PairViolations(fs: seq<Field>, vs: seq<Value>)
    requires |fs| == 2 && |vs| == 2
    requires Conforms(vs[0], fs[0].shape) && Conforms(vs[1], fs[1].shape)
    requires FieldRulesWellFormed(fs[0]) && FieldRulesWellFormed(fs[1])
    ensures FieldsConform(vs, fs) && RulesWellFormed(fs)
    ensures Violations(fs, vs) == FieldViolations(fs[0], vs[0]) + FieldViolations(fs[1], vs[1])
  {
    assert FieldsConform(vs, fs) by {
      forall i | 0 <= i < 2 ensures Conforms(vs[i], fs[i].shape) {
        assert i == 0 || i == 1;
      }
    }
    assert RulesWellFormed(fs) by {
      forall i | 0 <= i < 2 ensures FieldRulesWellFormed(fs[i]) {
        assert i == 0 || i == 1;
      }
    }
    ViolationsCons(fs, vs);
    ViolationsCons(fs[1..], vs[1..]);
    assert fs[1..][0] == fs[1] && vs[1..][0] == vs[1];
    assert fs[1..][1..] == [];
  }

  /** A Post's only rule is Title's Required; the same holds for a Person's Name. */
  lemma PostViolations(title: string, content: string)
    ensures RulesWellFormed(PostFields) && FieldsConform([StrV(title), StrV(content)], PostFields)
    ensures Violations(PostFields, [StrV(title), StrV(content)]) == (if title == "" then [RequiredTitle] else [])
  {
    RequiredLeaf(PostFields[0], StrV(title));
    UncheckedLeaf(PostFields[1], StrV(content));
    PairViolations(PostFields, [StrV(title), StrV(content)]);
  }

  const RequiredName := FieldError(["Name"], RequiredError, "Required")

  lemma PersonViolations(name: string, email: string)
    ensures RulesWellFormed(PersonFields) && FieldsConform([StrV(name), StrV(email)], PersonFields)
    ensures Violations(PersonFields, [StrV(name), StrV(email)]) == (if name == "" then [RequiredName] else [])
  {
    RequiredLeaf(PersonFields[0], StrV(name));
    UncheckedLeaf(PersonFields[1], StrV(email));
    PairViolations(PersonFields, [StrV(name), StrV(email)]);
  }

  /** The errors `validate` reports for a Post: Required when the title is
      empty, then the hook's LengthError when it is shorter than 10 bytes. */
  function PostErrors(title: string): Errors {
    (if title == "" then [RequiredTitle] else []) + (if ByteLen(title) < 10 then [LengthErrorTitle] else [])
  }

  /** `validate` on a Post with the Post hook (binder.go:399-423). */
  lemma PostValidation(title: string, content: string)
    ensures RulesWellFormed(PostFields) && FieldsConform([StrV(title), StrV(content)], PostFields)
    ensures Validate(PostFields, [StrV(title), StrV(content)], Some(PostHook)) == PostErrors(title)
  {
    PostViolations(title, content);
  }

  /** Validating an empty Post gives the Required error, then the hook's
      LengthError. */
  lemma EmptyPostErrors()
    ensures RulesWellFormed(PostFields) && FieldsConform([StrV(""), StrV("")], PostFields)
    ensures Validate(PostFields, [StrV(""), StrV("")], Some(PostHook)) == [RequiredTitle, LengthErrorTitle]
  {
    PostValidation("", "");
  }

  /** Form on a request without keys leaves a Post as it is and reports
      what validating it reports. */
  lemma PostFormWithoutKeys(title: string, content: string)
    ensures Runnable(PostFields, ToStruct([StrV(title), StrV(content)]), EmptyBag)
    ensures Form(PostFields, Some(PostHookDecl), ToStruct([StrV(title), StrV(content)]), map[], None)
              == Outcome(PostErrors(title), ToStruct([StrV(title), StrV(content)]))
  {
    PostRunnable(title, content);
    EmptyFormOnlyValidates(PostFields, Some(PostHookDecl), [StrV(title), StrV(content)]);
    PostValidation(title, content);
  }

  /** Any Post can be bound, and it has no embedded pointer. */
  lemma PostRunnable(title: string, content: string)
    ensures Runnable(PostFields, ToStruct([StrV(title), StrV(content)]), EmptyBag)
    ensures EmbeddedNil(PostFields, [StrV(title), StrV(content)])
  {
    var vs := [StrV(title), StrV(content)];
    PostValidation(title, content);
    forall i | 0 <= i < 2
      ensures FieldBindable(PostFields[i], true)
      ensures !PostFields[i].shape.RecordPtr? && !PostFields[i].shape.Record?
    {
      assert i == 0 || i == 1;
    }
  }

  /** Form on an empty request into a fresh Post reports Required and then
      LengthError, and leaves the Post empty. */
  lemma EmptyPostForm()
    ensures Runnable(PostFields, ToStruct([StrV(""), StrV("")]), EmptyBag)
    ensures Form(PostFields, Some(PostHookDecl), ToStruct([StrV(""), StrV("")]), map[], None)
              == Outcome([RequiredTitle, LengthErrorTitle], ToStruct([StrV(""), StrV("")]))
  {
    PostFormWithoutKeys("", "");
  }

  const RequiredId := FieldError(["Id"], RequiredError, "Required")

  /** Every BlogPost field can be checked. */
  lemma BlogPostWellFormed()
    ensures RulesWellFormed(PostFields) && RulesWellFormed(PersonFields)
    ensures RulesWellFormed(BlogPostFields)
  {
    BlogPostWellFormedHead();
    BlogPostWellFormedTail();
    NineWellFormed(BlogPostFields);
  }

  lemma BlogPostWellFormedHead()
    ensures RulesWellFormed(PostFields) && RulesWellFormed(PersonFields)
    ensures FieldRulesWellFormed(EmbeddedPost) && FieldRulesWellFormed(IdField)
    ensures FieldRulesWellFormed(IgnoredField) && FieldRulesWellFormed(RatingsField)
  {
    SmallStructsWellFormed();
    PlainRulesWellFormed(EmbeddedPost);
    PlainRulesWellFormed(IdField);
    PlainRulesWellFormed(RatingsField);
  }

  lemma BlogPostWellFormedTail()
    ensures FieldRulesWellFormed(AuthorField) && FieldRulesWellFormed(CoauthorField)
    ensures FieldRulesWellFormed(HeaderImageField) && FieldRulesWellFormed(PicturesField)
    ensures FieldRulesWellFormed(UnexportedField)
  {
    SmallStructsWellFormed();
    PlainRulesWellFormed(AuthorField);
    PlainRulesWellFormed(CoauthorField);
    PlainRulesWellFormed(HeaderImageField);
    PlainRulesWellFormed(PicturesField);
  }

  /** A nine-field struct whose every field can be checked. */
  lemma NineWellFormed(fs: seq<Field>)
    requires |fs| == 9
    requires FieldRulesWellFormed(fs[0]) && FieldRulesWellFormed(fs[1]) && FieldRulesWellFormed(fs[2])
    requires FieldRulesWellFormed(fs[3]) && FieldRulesWellFormed(fs[4]) && FieldRulesWellFormed(fs[5])
    requires FieldRulesWellFormed(fs[6]) && FieldRulesWellFormed(fs[7]) && FieldRulesWellFormed(fs[8])
    ensures RulesWellFormed(fs)
  {
    forall i | 0 <= i < |fs| ensures FieldRulesWellFormed(fs[i]) {
      assert i == 0 || i == 1 || i == 2 || i == 3 || i == 4 || i == 5 || i == 6 || i == 7 || i == 8;
    }
  }

  lemma SmallStructsWellFormed()
    ensures RulesWellFormed(PostFields) && RulesWellFormed(PersonFields)
  {
    PostViolations("", "");
    PersonViolations("", "");
  }

  /** The Required error a Person or Post value owes for an empty first field. */
  function RequiredIfEmpty(fields: seq<Value>, e: FieldError): Errors
    requires |fields| > 0
  {
    if fields[0] == StrV("") then [e] else []
  }

  /** What the built-in pass reports for any BlogPost: Title's Required from
      the embedded Post, Id's Required, Author's Name Required and, only when
      Coauthor is set, Coauthor's; Ignored, the ratings, the files and the
      unexported field report nothing. */
  lemma BlogPostViolations(vs: seq<Value>)
    requires FieldsConform(vs, BlogPostFields)
    ensures RulesWellFormed(BlogPostFields)
    ensures vs[0].RecordV? && |vs[0].fields| == 2 && vs[4].RecordV? && |vs[4].fields| == 2
    ensures vs[5].RecordPtrV? && (vs[5].record.Some? ==> |vs[5].record.value| == 2)
    ensures Violations(BlogPostFields, vs) ==
              RequiredIfEmpty(vs[0].fields, RequiredTitle)
              + ((if vs[1] == IntV(0) then [RequiredId] else [])
              + (RequiredIfEmpty(vs[4].fields, RequiredName)
              + (if vs[5].record.Some? then RequiredIfEmpty(vs[5].record.value, RequiredName) else [])))
  {
    FrontReports(vs);
    BackReports(vs);
    NineViolations(BlogPostFields, vs,
      RequiredIfEmpty(vs[0].fields, RequiredTitle),
      if vs[1] == IntV(0) then [RequiredId] else [],
      RequiredIfEmpty(vs[4].fields, RequiredName),
      if vs[5].record.Some? then RequiredIfEmpty(vs[5].record.value, RequiredName) else []);
  }

  /** The reports of the embedded Post, Id, Ignored and Ratings. */
  lemma FrontReports(vs: seq<Value>)
    requires FieldsConform(vs, BlogPostFields)
    ensures RulesWellFormed(BlogPostFields)
    ensures vs[0].RecordV? && |vs[0].fields| == 2
    ensures FieldViolations(BlogPostFields[0], vs[0]) == RequiredIfEmpty(vs[0].fields, RequiredTitle)
    ensures FieldViolations(BlogPostFields[1], vs[1]) == if vs[1] == IntV(0) then [RequiredId] else []
    ensures FieldViolations(BlogPostFields[2], vs[2]) == []
    ensures FieldViolations(BlogPostFields[3], vs[3]) == []
  {
    BlogPostWellFormed();
    assert Conforms(vs[0], EmbeddedPost.shape);
    EmbeddedPostReport(vs[0]);
    MiddleReports(vs);
  }

  lemma MiddleReports(vs: seq<Value>)
    requires FieldsConform(vs, BlogPostFields)
    ensures RulesWellFormed(BlogPostFields)
    ensures FieldViolations(BlogPostFields[1], vs[1]) == if vs[1] == IntV(0) then [RequiredId] else []
    ensures FieldViolations(BlogPostFields[2], vs[2]) == []
    ensures FieldViolations(BlogPostFields[3], vs[3]) == []
  {
    BlogPostWellFormed();
    assert Conforms(vs[1], IdField.shape) && Conforms(vs[3], RatingsField.shape);
    RequiredLeaf(IdField, vs[1]);
    UncheckedLeaf(RatingsField, vs[3]);
  }

  /** The reports of Author, Coauthor, the files and the unexported field. */
  lemma BackReports(vs: seq<Value>)
    requires FieldsConform(vs, BlogPostFields)
    ensures RulesWellFormed(BlogPostFields)
    ensures vs[4].RecordV? && |vs[4].fields| == 2
    ensures vs[5].RecordPtrV? && (vs[5].record.Some? ==> |vs[5].record.value| == 2)
    ensures FieldViolations(BlogPostFields[4], vs[4]) == RequiredIfEmpty(vs[4].fields, RequiredName)
    ensures FieldViolations(BlogPostFields[5], vs[5]) ==
              if vs[5].record.Some? then RequiredIfEmpty(vs[5].record.value, RequiredName) else []
    ensures FieldViolations(BlogPostFields[6], vs[6]) == []
    ensures FieldViolations(BlogPostFields[7], vs[7]) == []
    ensures FieldViolations(BlogPostFields[8], vs[8]) == []
  {
    BlogPostWellFormed();
    assert Conforms(vs[4], AuthorField.shape) && Conforms(vs[5], CoauthorField.shape);
    assert Conforms(vs[6], HeaderImageField.shape) && Conforms(vs[7], PicturesField.shape);
    AuthorReport(vs[4]);
    CoauthorReport(vs[5]);
    UncheckedLeaf(HeaderImageField, vs[6]);
    UncheckedLeaf(PicturesField, vs[7]);
  }

  /** A nine-field struct in which only fields 0, 1, 4 and 5 report. */
  lemma NineViolations(fs: seq<Field>, vs: seq<Value>, e0: Errors, e1: Errors, e4: Errors, e5: Errors)
    requires FieldsConform(vs, fs) && RulesWellFormed(fs) && |fs| == 9
    requires FieldViolations(fs[0], vs[0]) == e0 && FieldViolations(fs[1], vs[1]) == e1
    requires FieldViolations(fs[2], vs[2]) == [] && FieldViolations(fs[3], vs[3]) == []
    requires FieldViolations(fs[4], vs[4]) == e4 && FieldViolations(fs[5], vs[5]) == e5
    requires FieldViolations(fs[6], vs[6]) == [] && FieldViolations(fs[7], vs[7]) == []
    requires FieldViolations(fs[8], vs[8]) == []
    ensures Violations(fs, vs) == e0 + (e1 + (e4 + e5))
  {
    var reports := [e0, e1, [], [], e4, e5, [], [], []];
    forall k | 0 <= k < |fs| ensures FieldViolations(fs[k], vs[k]) == reports[k] {
      assert k == 0 || k == 1 || k == 2 || k == 3 || k == 4 || k == 5 || k == 6 || k == 7 || k == 8;
    }
    ViolationsFlatten(fs, vs, reports);
    FlattenNine(e0, e1, e4, e5);
  }

  lemma FlattenNine(e0: Errors, e1: Errors, e4: Errors, e5: Errors)
    ensures Flatten([e0, e1, [], [], e4, e5, [], [], []]) == e0 + (e1 + (e4 + e5))
  {
    var r := [e0, e1, [], [], e4, e5, [], [], []];
    FlattenStep(r, 8);
    assert r[9..] == [];
    assert Flatten(r[8..]) == [];
    FlattenStep(r, 7);
    FlattenStep(r, 6);
    assert Flatten(r[6..]) == [];
    FlattenStep(r, 5);
    assert Flatten(r[5..]) == e5;
    FlattenStep(r, 4);
    FlattenStep(r, 3);
    FlattenStep(r, 2);
    assert Flatten(r[2..]) == e4 + e5;
    FlattenStep(r, 1);
    FlattenStep(r, 0);
    assert r[0..] == r;
  }

  lemma FlattenStep<T>(xss: seq<seq<T>>, k: nat)
    requires k < |xss|
    ensures Flatten(xss[k..]) == xss[k] + Flatten(xss[k + 1..])
  {
    assert xss[k..][1..] == xss[k + 1..];
  }

  /** A Post or Person value: two strings. */
  lemma PairOfStrings(fields: seq<Value>, fs: seq<Field>)
    requires FieldsConform(fields, fs) && (fs == PostFields || fs == PersonFields)
    ensures fields == [StrV(fields[0].s), StrV(fields[1].s)]
  {
    assert Conforms(fields[0], fs[0].shape) && Conforms(fields[1], fs[1].shape);
  }

  /** The report of each BlogPost field on its own. */
  lemma EmbeddedPostReport(v: Value)
    requires Conforms(v, EmbeddedPost.shape)
    ensures FieldRulesWellFormed(EmbeddedPost) && v.RecordV? && |v.fields| == 2
    ensures FieldViolations(EmbeddedPost, v) == RequiredIfEmpty(v.fields, RequiredTitle)
  {
    SmallStructsWellFormed();
    UncheckedRecord(EmbeddedPost, v);
    PairOfStrings(v.fields, PostFields);
    PostViolations(v.fields[0].s, v.fields[1].s);
  }

  lemma AuthorReport(v: Value)
    requires Conforms(v, AuthorField.shape)
    ensures FieldRulesWellFormed(AuthorField) && v.RecordV? && |v.fields| == 2
    ensures FieldViolations(AuthorField, v) == RequiredIfEmpty(v.fields, RequiredName)
  {
    SmallStructsWellFormed();
    UncheckedRecord(AuthorField, v);
    PairOfStrings(v.fields, PersonFields);
    PersonViolations(v.fields[0].s, v.fields[1].s);
  }

  lemma CoauthorReport(v: Value)
    requires Conforms(v, CoauthorField.shape)
    ensures FieldRulesWellFormed(CoauthorField) && v.RecordPtrV? && (v.record.Some? ==> |v.record.value| == 2)
    ensures FieldViolations(CoauthorField, v) ==
              if v.record.Some? then RequiredIfEmpty(v.record.value, RequiredName) else []
  {
    SmallStructsWellFormed();
    UncheckedPointer(CoauthorField, v);
    if v.record.Some? {
      PairOfStrings(v.record.value, PersonFields);
      PersonViolations(v.record.value[0].s, v.record.value[1].s);
    }
  }
}
