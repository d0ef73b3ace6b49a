/**
 The explicit field-descriptor tree that stands in for Go reflection over a
 target struct, and the values such a struct can hold.

 A struct type is a sequence of `Field`s in declaration order. Each field
 records its Go name, its `form` and `binding` tags, whether it is exported
 (for an embedded field: whether its type name is), whether it is embedded
 (anonymous), and its shape: a leaf of some kind, a nested struct, or a
 pointer to a struct.
 */
module Shapes {
  import opened Wrappers
  import Strconv

  /** A multipart file part (`*multipart.FileHeader`); its content is opaque here. */
  datatype FileHeader = FileHeader(filename: string, size: int)

  /** The kinds of leaf field the binder tells apart. */
  datatype Ty =
    | IntTy             // int, int64
    | UintTy            // uint, uint64
    | BoolTy
    | StringTy          // the predeclared string only
    | FileTy            // *multipart.FileHeader
    | SliceOf(elem: Ty)
    | OtherTy           // any other kind: never coerced from a string

  datatype Shape =
    | Leaf(ty: Ty)
    | Record(fields: seq<Field>)     // a struct held by value
    | RecordPtr(fields: seq<Field>)  // a pointer to a struct

  datatype Field = Field(
    name: string,
    form: string,
    binding: string,
    exported: bool,
    embedded: bool,
    shape: Shape)

  datatype Value =
    | IntV(i: int)
    | UintV(u: nat)
    | BoolV(b: bool)
    | StrV(s: string)
    | FileV(file: Option<FileHeader>)      // None is a nil pointer
    | SliceV(elems: Option<seq<Value>>)    // None is a nil slice
    | OtherV(datum: int)                   // opaque; OtherV(0) is its zero value
    | RecordV(fields: seq<Value>)
    | RecordPtrV(record: Option<seq<Value>>)

  /** `reflect.Zero` of a leaf kind. */
  function ZeroOf(t: Ty): Value {
    match t
    case IntTy => IntV(0)
    case UintTy => UintV(0)
    case BoolTy => BoolV(false)
    case StringTy => StrV("")
    case FileTy => FileV(None)
    case SliceOf(_) => SliceV(None)
    case OtherTy => OtherV(0)
  }

  /** `reflect.Zero` of a field shape: a struct's zero value has every field
      at its zero value; a pointer's is nil. */
  function Zero(s: Shape): Value
    decreases s, 1
  {
    match s
    case Leaf(t) => ZeroOf(t)
    case Record(fs) => RecordV(ZeroFields(fs))
    case RecordPtr(_) => RecordPtrV(None)
  }

  function ZeroFields(fs: seq<Field>): (vs: seq<Value>)
    ensures |vs| == |fs|
    ensures forall i :: 0 <= i < |fs| ==> vs[i] == Zero(fs[i].shape)
    decreases fs, 0
  {
    if fs == [] then [] else [Zero(fs[0].shape)] + ZeroFields(fs[1..])
  }

  /** `v` is a value the Go type of kind `t` can hold; integers are 64-bit. */
  predicate TyConforms(v: Value, t: Ty)
    decreases t
  {
    match t
    case IntTy => v.IntV? && Strconv.InInt64(v.i)
    case UintTy => v.UintV? && v.u <= Strconv.MaxUint64
    case BoolTy => v.BoolV?
    case StringTy => v.StrV?
    case FileTy => v.FileV?
    case SliceOf(e) => v.SliceV? && (v.elems.Some? ==> forall x :: x in v.elems.value ==> TyConforms(x, e))
    case OtherTy => v.OtherV?
  }

  predicate Conforms(v: Value, s: Shape)
    decreases s, 1
  {
    match s
    case Leaf(t) => TyConforms(v, t)
    case Record(fs) => v.RecordV? && FieldsConform(v.fields, fs)
    case RecordPtr(fs) => v.RecordPtrV? && (v.record.Some? ==> FieldsConform(v.record.value, fs))
  }

  /** `vs` holds one conforming value per field of `fs`. */
  predicate FieldsConform(vs: seq<Value>, fs: seq<Field>)
    decreases fs, 0
  {
    |vs| == |fs| && forall i :: 0 <= i < |fs| ==> Conforms(vs[i], fs[i].shape)
  }

  /** Dropping the first field keeps the rest conforming. */
  lemma FieldsConformTail(vs: seq<Value>, fs: seq<Field>)
    requires FieldsConform(vs, fs) && fs != []
    ensures FieldsConform(vs[1..], fs[1..])
  {
    forall i | 0 <= i < |fs| - 1 ensures Conforms(vs[1..][i], fs[1..][i].shape) {
      assert vs[1..][i] == vs[i + 1] && fs[1..][i] == fs[i + 1];
    }
  }

  /** Every zero value is a value of its type. */
  lemma {:induction false} ZeroConforms(s: Shape)
    ensures Conforms(Zero(s), s)
    decreases s, 1
  {
    match s
    case Leaf(t) =>
    case Record(fs) => ZeroFieldsConform(fs);
    case RecordPtr(_) =>
  }

  lemma {:induction false} ZeroFieldsConform(fs: seq<Field>)
    ensures FieldsConform(ZeroFields(fs), fs)
    decreases fs, 0
  {
    if fs != [] {
      ZeroConforms(fs[0].shape);
      ZeroFieldsConform(fs[1..]);
      var z := ZeroFields(fs);
      assert z[1..] == ZeroFields(fs[1..]);
      forall i | 0 <= i < |fs| ensures Conforms(z[i], fs[i].shape) {
        if i > 0 {
          assert z[i] == z[1..][i - 1] && fs[i] == fs[1..][i - 1];
        }
      }
    }
  }

  predicate IsScalar(t: Ty) {
    t.IntTy? || t.UintTy? || t.BoolTy? || t.StringTy?
  }

  predicate IsScalarValue(v: Value) {
    v.IntV? || v.UintV? || v.BoolV? || v.StrV?
  }

  /** `fmt.Sprintf("%v", v)` for the scalar kinds. */
  function Render(v: Value): string
    requires IsScalarValue(v)
  {
    match v
    case IntV(i) => Strconv.FormatInt(i)
    case UintV(u) => Strconv.FormatNat(u)
    case BoolV(b) => if b then "true" else "false"
    case StrV(s) => s
  }
}
