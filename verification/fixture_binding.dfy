/**
 Binding the fixtures of common_test.go:17-70 from a request: where each form
 key lands in a BlogPost, the repeated ratings, the embedded *Person of
 EmbedPerson, and the report for an empty BlogPost.
 */
module FixtureBinding {
  import opened Wrappers
  import opened Text
  import opened Strconv
  import opened Shapes
  import opened BindErrors
  import opened Coerce
  import opened MapForm
  import opened Validation
  import opened Binder
  import opened Fixtures

  /** A string field with its own form key takes the key's first value. */
  lemma StringLeafBinding(f: Field, v: Value, bag: Bag)
    requires f.shape == Leaf(StringTy) && !f.embedded && f.form != "" && f.exported
    requires Conforms(v, f.shape) && WellFormedBag(bag)
    ensures FieldBindable(f, true)
    ensures BindField(f, v, bag, true) == if f.form in bag.values then StrV(bag.values[f.form][0]) else v
  {
  }

  /** A Person (or Post) struct bound from a request: each string field takes
      its key's first value and keeps its value when the key is absent. */
  lemma PairBinding(fs: seq<Field>, ps: seq<Value>, bag: Bag)
    requires fs == PersonFields || fs == PostFields
    requires FieldsConform(ps, fs) && WellFormedBag(bag)
    ensures Bindable(fs, true)
    ensures BindFields(fs, ps, bag, true) ==
              [ if fs[0].form in bag.values then StrV(bag.values[fs[0].form][0]) else ps[0],
                if fs[1].form in bag.values then StrV(bag.values[fs[1].form][0]) else ps[1] ]
  {
    assert Conforms(ps[0], fs[0].shape) && Conforms(ps[1], fs[1].shape);
    StringLeafBinding(fs[0], ps[0], bag);
    StringLeafBinding(fs[1], ps[1], bag);
    assert Bindable(fs, true) by {
      forall i | 0 <= i < |fs| ensures FieldBindable(fs[i], true) {
        assert i == 0 || i == 1;
      }
    }
  }

  /** Every BlogPost field can be bound: the only embedded struct is a value,
      and Coauthor is a pointer that is not embedded. */
  lemma BlogPostBindable()
    ensures Bindable(BlogPostFields, true)
  {
    BlogPostBindableHead();
    BlogPostBindableTail();
    NineBindable(BlogPostFields);
  }

  lemma BlogPostBindableHead()
    ensures FieldBindable(EmbeddedPost, true) && FieldBindable(IdField, true)
    ensures FieldBindable(IgnoredField, true) && FieldBindable(RatingsField, true)
  {
    PairBinding(PostFields, [StrV(""), StrV("")], EmptyBag);
  }

  lemma BlogPostBindableTail()
    ensures FieldBindable(AuthorField, true) && FieldBindable(CoauthorField, true)
    ensures FieldBindable(HeaderImageField, true) && FieldBindable(PicturesField, true)
    ensures FieldBindable(UnexportedField, true)
  {
    PairBinding(PersonFields, [StrV(""), StrV("")], EmptyBag);
  }

  /** A nine-field struct whose every field can be bound. */
  lemma NineBindable(fs: seq<Field>)
    requires |fs| == 9
    requires FieldBindable(fs[0], true) && FieldBindable(fs[1], true) && FieldBindable(fs[2], true)
    requires FieldBindable(fs[3], true) && FieldBindable(fs[4], true) && FieldBindable(fs[5], true)
    requires FieldBindable(fs[6], true) && FieldBindable(fs[7], true) && FieldBindable(fs[8], true)
    ensures Bindable(fs, true)
  {
    forall i | 0 <= i < |fs| ensures FieldBindable(fs[i], true) {
      assert i == 0 || i == 1 || i == 2 || i == 3 || i == 4 || i == 5 || i == 6 || i == 7 || i == 8;
    }
  }

  /** Any BlogPost can be bound and validated from any well-formed request. */
  lemma BlogPostRunnable(vs: seq<Value>, bag: Bag)
    requires FieldsConform(vs, BlogPostFields) && WellFormedBag(bag)
    ensures Runnable(BlogPostFields, ToStruct(vs), bag)
  {
    BlogPostBindable();
    BlogPostWellFormed();
  }

  /** Keys "name" and "email" fill Author, a struct value without a form tag;
      Coauthor, a pointer that is not embedded, is never written. */
  lemma AuthorNotCoauthor(vs: seq<Value>, bag: Bag)
    requires FieldsConform(vs, BlogPostFields) && WellFormedBag(bag)
    ensures Bindable(BlogPostFields, true)
    ensures vs[4].RecordV? && |vs[4].fields| == 2
    ensures BindFields(BlogPostFields, vs, bag, true)[4] == RecordV([
              if "name" in bag.values then StrV(bag.values["name"][0]) else vs[4].fields[0],
              if "email" in bag.values then StrV(bag.values["email"][0]) else vs[4].fields[1]])
    ensures BindFields(BlogPostFields, vs, bag, true)[5] == vs[5]
  {
    BlogPostBindable();
    assert Conforms(vs[4], AuthorField.shape) && Conforms(vs[5], CoauthorField.shape);
    PairBinding(PersonFields, vs[4].fields, bag);
  }

  /** The unexported field never binds, even when its key is sent; Ignored,
      tagged `form:"-"`, is looked up under the key "-" like any other. */
  lemma HiddenFieldsBinding(vs: seq<Value>, bag: Bag)
    requires FieldsConform(vs, BlogPostFields) && WellFormedBag(bag)
    ensures Bindable(BlogPostFields, true)
    ensures BindFields(BlogPostFields, vs, bag, true)[8] == vs[8]
    ensures BindFields(BlogPostFields, vs, bag, true)[2] ==
              if "-" in bag.values then StrV(bag.values["-"][0]) else vs[2]
  {
    BlogPostBindable();
    assert Conforms(vs[2], IgnoredField.shape);
    StringLeafBinding(IgnoredField, vs[2], bag);
  }

  const RatingLiterals := ["1", "2", "x"]

  /** rating=1, rating=2, rating=x fill Ratings with [1, 2, 0]: the element
      that does not parse stays at zero. */
  lemma RatingsBinding(vs: seq<Value>, bag: Bag)
    requires FieldsConform(vs, BlogPostFields) && WellFormedBag(bag)
    requires "rating" in bag.values && bag.values["rating"] == RatingLiterals
    ensures Bindable(BlogPostFields, true)
    ensures BindFields(BlogPostFields, vs, bag, true)[3] == SliceV(Some([IntV(1), IntV(2), IntV(0)]))
  {
    BlogPostBindable();
    assert Conforms(vs[3], RatingsField.shape);
    var r := BindTagged(RatingsField, vs[3], bag, true);
    ParseDigit('1');
    ParseDigit('2');
    assert !IsSignedDecimal("x") by {
      assert Magnitude("x") == "x" && !IsDigit("x"[0]);
    }
    assert r.elems.value == [IntV(1), IntV(2), IntV(0)];
  }

  /** Form on such a request still reports no type-coercion error: the one
      for "x" is lost inside mapForm. */
  lemma RatingsFormIsClean(vs: seq<Value>, values: map<string, seq<string>>)
    requires FieldsConform(vs, BlogPostFields) && WellFormedBag(Bag(values, map[]))
    requires "rating" in values && values["rating"] == RatingLiterals
    ensures Runnable(BlogPostFields, ToStruct(vs), Bag(values, map[]))
    ensures Form(BlogPostFields, Some(BlogPostHookDecl), ToStruct(vs), values, None).target.fields[3]
              == SliceV(Some([IntV(1), IntV(2), IntV(0)]))
    ensures NoCoercionErrors(Form(BlogPostFields, Some(BlogPostHookDecl), ToStruct(vs), values, None).errors)
  {
    BlogPostRunnable(vs, Bag(values, map[]));
    RatingsBinding(vs, Bag(values, map[]));
    FixtureHooksKeepClean();
    FormHasNoCoercionErrors(BlogPostFields, Some(BlogPostHookDecl), ToStruct(vs), values, None);
  }

  /** EmbedPerson can be bound and validated from any well-formed request. */
  lemma EmbedPersonRunnable(vs: seq<Value>, bag: Bag)
    requires FieldsConform(vs, EmbedPersonFields) && WellFormedBag(bag)
    ensures Runnable(EmbedPersonFields, ToStruct(vs), bag)
  {
    var f := EmbedPersonFields[0];
    PairBinding(PersonFields, [StrV(""), StrV("")], EmptyBag);
    SmallStructsWellFormed();
    PlainRulesWellFormed(f);
    assert FieldBindable(f, true);
  }

  /** The *Person EmbedPerson ends up with when the request has no "name":
      nil unless "email" has a non-empty first value, which it then holds. */
  function EmbeddedPersonFrom(values: map<string, seq<string>>): Value
    requires "email" in values ==> |values["email"]| > 0
  {
    if "email" in values && values["email"][0] != "" then RecordPtrV(Some([StrV(""), StrV(values["email"][0])]))
    else RecordPtrV(None)
  }

  /** Binding EmbedPerson without a "name" key: the pointer is rebuilt from a
      zero Person whatever it held, and is nil again unless an e-mail was set. */
  lemma EmbedPersonBinding(vs: seq<Value>, bag: Bag)
    requires FieldsConform(vs, EmbedPersonFields) && WellFormedBag(bag) && "name" !in bag.values
    ensures Bindable(EmbedPersonFields, true)
    ensures BindFields(EmbedPersonFields, vs, bag, true) == [EmbeddedPersonFrom(bag.values)]
  {
    EmbedPersonRunnable(vs, bag);
    ZeroPair(PersonFields);
    PairBinding(PersonFields, [StrV(""), StrV("")], bag);
    assert BindFields(EmbedPersonFields, vs, bag, true)[0] == BindEmbedded(PersonFields, bag);
  }

  /** What validating the bound EmbedPerson reports: nothing for a nil
      pointer, Name's Required error for a Person holding only an e-mail. */
  lemma EmbedPersonReport(values: map<string, seq<string>>)
    requires "email" in values ==> |values["email"]| > 0
    ensures RulesWellFormed(EmbedPersonFields) && FieldsConform([EmbeddedPersonFrom(values)], EmbedPersonFields)
    ensures Violations(EmbedPersonFields, [EmbeddedPersonFrom(values)]) ==
              if EmbeddedPersonFrom(values).record.Some? then [RequiredName] else []
  {
    var p := EmbeddedPersonFrom(values);
    var f := EmbedPersonFields[0];
    SmallStructsWellFormed();
    PlainRulesWellFormed(f);
    if p.record.Some? {
      PersonViolations("", values["email"][0]);
    }
    assert Conforms(p, f.shape);
    UncheckedPointer(f, p);
    SingleViolations(EmbedPersonFields, [p]);
  }

  /** The report of a one-field struct is that field's report. */
  lemma SingleViolations(fs: seq<Field>, vs: seq<Value>)
    requires |fs| == 1 && |vs| == 1 && Conforms(vs[0], fs[0].shape) && FieldRulesWellFormed(fs[0])
    ensures FieldsConform(vs, fs) && RulesWellFormed(fs)
    ensures Violations(fs, vs) == FieldViolations(fs[0], vs[0])
  {
    ViolationsCons(fs, vs);
    assert fs[1..] == [];
  }

  /** Form on EmbedPerson without a "name" key: with no "email" either the
      pointer stays nil and nothing is reported; with a non-empty e-mail it
      points to a Person holding just that address, and Name is required. */
  lemma EmbedPersonForm(vs: seq<Value>, values: map<string, seq<string>>)
    requires FieldsConform(vs, EmbedPersonFields) && WellFormedBag(Bag(values, map[])) && "name" !in values
    ensures Runnable(EmbedPersonFields, ToStruct(vs), Bag(values, map[]))
    ensures Form(EmbedPersonFields, None, ToStruct(vs), values, None) ==
              if "email" in values && values["email"][0] != "" then
                Outcome([RequiredName], ToStruct([RecordPtrV(Some([StrV(""), StrV(values["email"][0])]))]))
              else
                Outcome([], ToStruct([RecordPtrV(None)]))
  {
    EmbedPersonRunnable(vs, Bag(values, map[]));
    EmbedPersonBinding(vs, Bag(values, map[]));
    EmbedPersonReport(values);
  }

  /** The zero value of a two-string struct. */
  lemma ZeroPair(fs: seq<Field>)
    requires fs == PersonFields || fs == PostFields
    ensures ZeroFields(fs) == [StrV(""), StrV("")]
  {
    assert fs[1..][1..] == [];
  }

  /** The parts of a zero BlogPost the rules look at. */
  lemma ZeroBlogPost()
    ensures FieldsConform(ZeroFields(BlogPostFields), BlogPostFields)
    ensures ZeroFields(BlogPostFields)[0] == RecordV([StrV(""), StrV("")])
    ensures ZeroFields(BlogPostFields)[1] == IntV(0)
    ensures ZeroFields(BlogPostFields)[4] == RecordV([StrV(""), StrV("")])
    ensures ZeroFields(BlogPostFields)[5] == RecordPtrV(None)
  {
    ZeroFieldsConform(BlogPostFields);
    ZeroPair(PostFields);
    ZeroPair(PersonFields);
  }

  /** Validating a BlogPost with its promoted hook: the built-in report, then
      the LengthError when the embedded Post's title is under 10 bytes. */
  lemma BlogPostValidation(vs: seq<Value>)
    requires FieldsConform(vs, BlogPostFields)
    ensures RulesWellFormed(BlogPostFields)
    ensures vs[0].RecordV? && |vs[0].fields| == 2 && vs[0].fields[0].StrV?
    ensures Validate(BlogPostFields, vs, Some(BlogPostHook)) ==
              Violations(BlogPostFields, vs) + (if ByteLen(vs[0].fields[0].s) < 10 then [LengthErrorTitle] else [])
  {
    BlogPostWellFormed();
    assert Conforms(vs[0], EmbeddedPost.shape);
    PairOfStrings(vs[0].fields, PostFields);
  }

  /** A BlogPost whose title, id and author name are blank and whose
      Coauthor is nil reports Title, Id and Author's Name as required, then
      the hook's LengthError; Ignored, the ratings, the files and the
      unexported field report nothing, whatever they hold. */
  lemma BlankBlogPostErrors(vs: seq<Value>)
    requires FieldsConform(vs, BlogPostFields)
    requires vs[0] == RecordV([StrV(""), StrV("")]) && vs[1] == IntV(0)
    requires vs[4] == RecordV([StrV(""), StrV("")]) && vs[5] == RecordPtrV(None)
    ensures RulesWellFormed(BlogPostFields)
    ensures Validate(BlogPostFields, vs, Some(BlogPostHook)) == [RequiredTitle, RequiredId, RequiredName, LengthErrorTitle]
  {
    BlankBlogPostViolations(vs);
    BlogPostValidation(vs);
    assert ByteLen(vs[0].fields[0].s) == 0;
  }

  lemma BlankBlogPostViolations(vs: seq<Value>)
    requires FieldsConform(vs, BlogPostFields)
    requires vs[0] == RecordV([StrV(""), StrV("")]) && vs[1] == IntV(0)
    requires vs[4] == RecordV([StrV(""), StrV("")]) && vs[5] == RecordPtrV(None)
    ensures RulesWellFormed(BlogPostFields)
    ensures Violations(BlogPostFields, vs) == [RequiredTitle, RequiredId, RequiredName]
  {
    BlogPostViolations(vs);
    assert RequiredIfEmpty(vs[0].fields, RequiredTitle) == [RequiredTitle];
    assert RequiredIfEmpty(vs[4].fields, RequiredName) == [RequiredName];
  }

  /** An empty BlogPost reports those four errors. */
  lemma EmptyBlogPostErrors()
    ensures RulesWellFormed(BlogPostFields) && FieldsConform(ZeroFields(BlogPostFields), BlogPostFields)
    ensures Validate(BlogPostFields, ZeroFields(BlogPostFields), Some(BlogPostHook)) ==
              [RequiredTitle, RequiredId, RequiredName, LengthErrorTitle]
  {
    ZeroBlogPost();
    BlankBlogPostErrors(ZeroFields(BlogPostFields));
  }

  /** Form on an empty request into an empty BlogPost leaves it empty and
      reports the same four errors. */
  lemma EmptyBlogPostForm()
    ensures Runnable(BlogPostFields, ToStruct(ZeroFields(BlogPostFields)), EmptyBag)
    ensures Form(BlogPostFields, Some(BlogPostHookDecl), ToStruct(ZeroFields(BlogPostFields)), map[], None) ==
              Outcome([RequiredTitle, RequiredId, RequiredName, LengthErrorTitle], ToStruct(ZeroFields(BlogPostFields)))
  {
    var z := ZeroFields(BlogPostFields);
    ZeroBlogPost();
    BlogPostRunnable(z, EmptyBag);
    ZeroEmbeddedNil(BlogPostFields);
    EmptyFormOnlyValidates(BlogPostFields, Some(BlogPostHookDecl), z);
    EmptyBlogPostErrors();
  }
}
