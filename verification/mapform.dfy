/**
 The binder `mapForm` (binder.go:275-330): walks a struct's fields in
 declaration order and fills them from the decoded form values and, for
 multipart requests, the uploaded files. It returns nothing in Go; every
 coercion error it produces is lost, so here it returns only the new values.

 `writable` tracks Go's read-only flag: a field can be set only if it is
 exported and its struct was not reached through an unexported, non-embedded
 struct field.
 */
module MapForm {
  import opened Wrappers
  import opened Shapes
  import opened Coerce

  /** The decoded request: key -> values (`req.Form` or the multipart values)
      and key -> uploaded files (empty for url-encoded forms). */
  datatype Bag = Bag(values: map<string, seq<string>>, files: map<string, seq<FileHeader>>)

  const EmptyBag := Bag(map[], map[])

  /** Every present key has at least one value, as Go's parsers guarantee;
      mapForm reads the first value unguarded. */
  predicate WellFormedBag(bag: Bag) {
    && (forall k :: k in bag.values ==> |bag.values[k]| > 0)
    && (forall k :: k in bag.files ==> |bag.files[k]| > 0)
  }

  /** mapForm does not panic on these fields: only structs are embedded through
      a pointer, and such a pointer is settable when it is reached. */
  predicate Bindable(fs: seq<Field>, writable: bool)
    decreases fs, 0
  {
    forall i :: 0 <= i < |fs| ==> FieldBindable(fs[i], writable)
  }

  predicate FieldBindable(f: Field, writable: bool)
    decreases f, 1
  {
    match f.shape
    case Leaf(_) => !f.embedded
    case Record(inner) => Bindable(inner, writable && (f.exported || f.embedded))
    case RecordPtr(inner) => f.embedded ==> writable && f.exported && Bindable(inner, true)
  }

  /** The form key of `f` can be written: a non-empty `form` tag on a settable field. */
  predicate Settable(f: Field, writable: bool) {
    f.form != "" && writable && f.exported
  }

  /** Every form value coerced into a fresh zero element (binder.go:300-306). */
  function CoerceAll(e: Ty, literals: seq<string>, key: string): (elems: seq<Value>)
    ensures |elems| == |literals|
    ensures forall i :: 0 <= i < |literals| ==>
              elems[i] == SetWithProperType(e, literals[i], ZeroOf(e), key).value
  {
    seq(|literals|, i requires 0 <= i < |literals| => SetWithProperType(e, literals[i], ZeroOf(e), key).value)
  }

  function FileValues(files: seq<FileHeader>): (elems: seq<Value>)
    ensures |elems| == |files|
    ensures forall i :: 0 <= i < |files| ==> elems[i] == FileV(Some(files[i]))
  {
    seq(|files|, i requires 0 <= i < |files| => FileV(Some(files[i])))
  }

  /** A field addressed by its `form` key (binder.go:292-327): leaves and
      pointers that are not embedded. */
  function BindTagged(f: Field, v: Value, bag: Bag, writable: bool): (r: Value)
    requires !f.shape.Record? && Conforms(v, f.shape) && WellFormedBag(bag)
    ensures Conforms(r, f.shape)
    // an empty tag, an unexported field or an absent key leaves the field alone
    ensures !Settable(f, writable) ==> r == v
    ensures f.form !in bag.values && f.form !in bag.files ==> r == v
    // a non-embedded struct pointer is never written
    ensures f.shape.RecordPtr? ==> r == v
    // a slice becomes a fresh slice with one element per value, each coerced from zero
    ensures Settable(f, writable) && f.form in bag.values && f.shape.Leaf? && f.shape.ty.SliceOf? ==>
              var e := f.shape.ty.elem;
              var lits := bag.values[f.form];
              r.SliceV? && r.elems.Some? && |r.elems.value| == |lits| &&
              forall i :: 0 <= i < |lits| ==> r.elems.value[i] == SetWithProperType(e, lits[i], ZeroOf(e), f.form).value
    // any other leaf coerces the first value only
    ensures Settable(f, writable) && f.form in bag.values && f.shape.Leaf? && !f.shape.ty.SliceOf? ==>
              r == SetWithProperType(f.shape.ty, bag.values[f.form][0], v, f.form).value
    // files are consulted only when the key has no string values
    ensures Settable(f, writable) && f.form !in bag.values && f.form in bag.files ==>
              r == (if f.shape == Leaf(SliceOf(FileTy)) then SliceV(Some(FileValues(bag.files[f.form])))
                    else if f.shape == Leaf(FileTy) then FileV(Some(bag.files[f.form][0]))
                    else v)
  {
    var key := f.form;
    if !Settable(f, writable) then v
    else if key in bag.values then
      var lits := bag.values[key];
      match f.shape
      case Leaf(SliceOf(e)) =>
        ZeroConforms(Leaf(e));
        SliceV(Some(CoerceAll(e, lits, key)))
      case Leaf(t) => SetWithProperType(t, lits[0], v, key).value
      case _ => v
    else if key in bag.files then
      var files := bag.files[key];
      match f.shape
      case Leaf(SliceOf(FileTy)) => SliceV(Some(FileValues(files)))
      case Leaf(FileTy) => FileV(Some(files[0]))
      case _ => v
    else v
  }

  /** One field of a struct being bound (binder.go:281-328). */
  function BindField(f: Field, v: Value, bag: Bag, writable: bool): (r: Value)
    requires Conforms(v, f.shape) && WellFormedBag(bag) && FieldBindable(f, writable)
    ensures Conforms(r, f.shape)
    decreases f, 1
  {
    match f.shape
    case RecordPtr(inner) =>
      if f.embedded then BindEmbedded(inner, bag)
      else BindTagged(f, v, bag, writable)
    case Record(inner) =>
      RecordV(BindFields(inner, v.fields, bag, writable && (f.exported || f.embedded)))
    case Leaf(_) =>
      BindTagged(f, v, bag, writable)
  }

  /** An embedded struct pointer (binder.go:284-289): always replaced by a
      fresh zero struct, bound, and set back to nil if the struct is still zero. */
  function BindEmbedded(inner: seq<Field>, bag: Bag): (r: Value)
    requires WellFormedBag(bag) && Bindable(inner, true)
    ensures Conforms(r, RecordPtr(inner))
    decreases inner, 2
  {
    var zero := ZeroFields(inner);
    ZeroFieldsConform(inner);
    var bound := BindFields(inner, zero, bag, true);
    if bound == zero then RecordPtrV(None) else RecordPtrV(Some(bound))
  }

  /** The embedded pointer keeps the struct bound from zero exactly when that
      struct differs from the zero struct, and is nil otherwise. */
  lemma EmbeddedCollapses(inner: seq<Field>, bag: Bag)
    requires WellFormedBag(bag) && Bindable(inner, true)
    ensures FieldsConform(ZeroFields(inner), inner)
    ensures BindEmbedded(inner, bag).record.Some? ==>
      && BindEmbedded(inner, bag).record.value == BindFields(inner, ZeroFields(inner), bag, true)
      && BindEmbedded(inner, bag).record.value != ZeroFields(inner)
    ensures BindEmbedded(inner, bag).record.None? <==> BindFields(inner, ZeroFields(inner), bag, true) == ZeroFields(inner)
  {
    ZeroFieldsConform(inner);
  }

  /** `mapForm`: the fields are bound one by one, in declaration order, each
      from its own value only. */
  function BindFields(fs: seq<Field>, vs: seq<Value>, bag: Bag, writable: bool): (r: seq<Value>)
    requires FieldsConform(vs, fs) && WellFormedBag(bag) && Bindable(fs, writable)
    ensures FieldsConform(r, fs)
    ensures forall i :: 0 <= i < |fs| ==> r[i] == BindField(fs[i], vs[i], bag, writable)
    decreases fs, 0
  {
    if fs == [] then []
    else
      var rest := BindFields(fs[1..], vs[1..], bag, writable);
      var r := [BindField(fs[0], vs[0], bag, writable)] + rest;
      assert forall i :: 1 <= i < |fs| ==> r[i] == rest[i - 1] && fs[i] == fs[1..][i - 1] && vs[i] == vs[1..][i - 1];
      r
  }

  /** Files are looked at only for keys with no string values: whatever the
      file map holds, a key with string values binds the same. */
  lemma StringValuesTakePrecedence(f: Field, v: Value, bag: Bag, files: map<string, seq<FileHeader>>, writable: bool)
    requires !f.shape.Record? && Conforms(v, f.shape) && WellFormedBag(bag) && WellFormedBag(bag.(files := files))
    requires f.form in bag.values
    ensures BindTagged(f, v, bag, writable) == BindTagged(f, v, bag.(files := files), writable)
  {
  }

  /** Binding the same request twice gives what binding it once gives. */
  lemma {:induction false} BindFieldsIdempotent(fs: seq<Field>, vs: seq<Value>, bag: Bag, writable: bool)
    requires FieldsConform(vs, fs) && WellFormedBag(bag) && Bindable(fs, writable)
    ensures BindFields(fs, BindFields(fs, vs, bag, writable), bag, writable) == BindFields(fs, vs, bag, writable)
    decreases fs, 0
  {
    var once := BindFields(fs, vs, bag, writable);
    var twice := BindFields(fs, once, bag, writable);
    forall i | 0 <= i < |fs| ensures twice[i] == once[i] {
      BindFieldIdempotent(fs[i], vs[i], bag, writable);
    }
  }

  lemma {:induction false} BindFieldIdempotent(f: Field, v: Value, bag: Bag, writable: bool)
    requires Conforms(v, f.shape) && WellFormedBag(bag) && FieldBindable(f, writable)
    ensures BindField(f, BindField(f, v, bag, writable), bag, writable) == BindField(f, v, bag, writable)
    decreases f, 1
  {
    match f.shape
    case Record(inner) =>
      BindFieldsIdempotent(inner, v.fields, bag, writable && (f.exported || f.embedded));
    case RecordPtr(_) =>
    case Leaf(t) =>
      if Settable(f, writable) && f.form in bag.values && !t.SliceOf? {
        CoerceIdempotent(t, bag.values[f.form][0], v, f.form);
      }
  }

  /** Every embedded pointer reachable through struct fields is nil. */
  predicate EmbeddedNil(fs: seq<Field>, vs: seq<Value>)
    decreases fs
  {
    |vs| == |fs| &&
    forall i :: 0 <= i < |fs| ==>
      && (fs[i].shape.RecordPtr? && fs[i].embedded ==> vs[i] == RecordPtrV(None))
      && (fs[i].shape.Record? ==> vs[i].RecordV? && EmbeddedNil(fs[i].shape.fields, vs[i].fields))
  }

  /** A zero struct has no embedded pointer set. */
  lemma {:induction false} ZeroEmbeddedNil(fs: seq<Field>)
    ensures EmbeddedNil(fs, ZeroFields(fs))
    decreases fs
  {
    forall i | 0 <= i < |fs| && fs[i].shape.Record?
      ensures EmbeddedNil(fs[i].shape.fields, ZeroFields(fs)[i].fields)
    {
      ZeroEmbeddedNil(fs[i].shape.fields);
    }
  }

  /** With no form values and no files nothing is written: a struct whose
      embedded pointers are nil comes back unchanged. */
  lemma {:induction false} EmptyBagBindsNothing(fs: seq<Field>, vs: seq<Value>, writable: bool)
    requires FieldsConform(vs, fs) && Bindable(fs, writable) && EmbeddedNil(fs, vs)
    ensures BindFields(fs, vs, EmptyBag, writable) == vs
    decreases fs, 0
  {
    var r := BindFields(fs, vs, EmptyBag, writable);
    forall i | 0 <= i < |fs| ensures r[i] == vs[i] {
      var f := fs[i];
      match f.shape
      case Record(inner) =>
        EmptyBagBindsNothing(inner, vs[i].fields, writable && (f.exported || f.embedded));
      case RecordPtr(inner) =>
        if f.embedded {
          EmbeddedStaysNil(inner);
        }
      case Leaf(_) =>
    }
  }

  /** An embedded pointer bound from an empty request is nil. */
  lemma {:induction false} EmbeddedStaysNil(inner: seq<Field>)
    requires Bindable(inner, true)
    ensures BindEmbedded(inner, EmptyBag) == RecordPtrV(None)
    decreases inner, 1
  {
    ZeroFieldsConform(inner);
    ZeroEmbeddedNil(inner);
    EmptyBagBindsNothing(inner, ZeroFields(inner), true);
  }

  /** An embedded pointer's previous contents never matter: it is rebuilt from
      a zero struct on every bind. */
  lemma EmbeddedDiscardsPrevious(f: Field, v1: Value, v2: Value, bag: Bag, writable: bool)
    requires f.shape.RecordPtr? && f.embedded
    requires Conforms(v1, f.shape) && Conforms(v2, f.shape) && WellFormedBag(bag) && FieldBindable(f, writable)
    ensures BindField(f, v1, bag, writable) == BindField(f, v2, bag, writable)
  {
  }
}
