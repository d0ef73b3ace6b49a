# go-binding form binder and validator, in Dafny

This project models the request-binding engine of `go-binding`, a Go package.
The engine fills a Go struct from an HTTP request and then validates it.
The model covers:

- **Routing** (`Bind`): the request method and Content-Type header select one
  of three deserialisers, or produce a single content-type error.
- **Target checks** (`Form`, `MultipartForm`, `Json`): the binding model must be
  a pointer, a nil inner pointer is allocated, and the result must be a struct.
- **Scalar coercion** (`setWithProperType`): one form string becomes an
  `int64`, `uint64`, `bool` or `string`, with Go's `strconv` base-10 rules.
- **Form mapping** (`mapForm`): a struct's fields are walked in declaration
  order against a key → values map and a key → files map. Nested structs are
  recursed into. Embedded struct pointers are reallocated, bound, and reset to
  nil when still zero.
- **Rule validation** (`validateStruct`): each field's `binding` tag is split on
  `;`. The rules `Required`, `AlphaDash`, `AlphaDashDot`, `MinSize(N)`,
  `MaxSize(N)`, `Email` and `Url` are applied, and nested structs are
  recursed into.
- **Composition** (`validate`): the built-in pass runs, then the struct's own
  `ValidateBinder` hook, whose result replaces the list.
- **Test fixtures:** `Post`, `Person`, `BlogPost`, `EmbedPerson` and `SadForm`,
  and the `Post.ValidateBinder` hook, written as concrete descriptors. The
  lemmas about them state what binding and validating those structs yields.

Go reflection is replaced by an explicit descriptor tree (`Shapes.Field`,
`Shapes.Shape`, `Shapes.Value`). A struct is a sequence of fields. Each field
carries:

- its Go name;
- its `form` and `binding` tags;
- whether it is exported;
- whether it is embedded;
- a shape: a leaf kind, a struct held by value, or a pointer to a struct.

Errors are sequences of `BindErrors.FieldError`, and adding an error appends
to the sequence.

Modules, in dependency order:

| module | file | what |
|---|---|---|
| `Wrappers` | wrappers.dfy | `Option` |
| `Text` | text.dfy | `strings.HasPrefix`/`Contains`/`Split`, UTF-8 byte length |
| `Strconv` | strconv.dfy | `ParseInt`, `ParseUint`, `Atoi`, `ParseBool` (base 10, 64-bit) |
| `Patterns` | patterns.dfy | the four validation regular expressions, as exact predicates |
| `BindErrors` | errors.dfy | `FieldError`, classifications, the four predefined errors |
| `Shapes` | shapes.dfy | descriptors, values, zero values, `%v` of scalars |
| `Coerce` | coerce.dfy | `setWithProperType` |
| `MapForm` | mapform.dfy | `mapForm` |
| `Validation` | validation.dfy | `validateStruct`, `validate` |
| `Binder` | binder.dfy | `Form`, `MultipartForm`, `Json`, `Bind` |
| `Fixtures` | fixtures.dfy | `Post`, `Person`, `BlogPost`, `EmbedPerson`, `SadForm`, the hook; validation facts |
| `SadForm` | sadform.dfy | facts about the `SadForm` fixture |
| `FixtureBinding` | fixture_binding.dfy | binding facts about the fixtures |

Behaviour the model keeps exactly as the code has it:

- **Coercion errors are dropped.** `mapForm` and `setWithProperType` receive
  the error list by value and return nothing. The coercer returns its error
  beside the value, and the binder discards it. No `Form` or `MultipartForm`
  result contains an `IntegerTypeError` or `BooleanTypeError`, unless the
  struct's `ValidateBinder` hook adds one.
- **`form:"-"` is handled inconsistently.** The validator skips such a field.
  The binder instead looks up the literal key `"-"`.
- **Error order: nested before own.** The errors of a nested struct (or of a
  non-nil struct pointer) come before the enclosing field's own rule errors.
  This follows the code (binder.go:205-212).
- **At most one error per rule entry.** Each `break` only leaves the `switch`.
- **The two dash classes.** `[^\d\w-_]` and `[^\d\w-_\.]` are the ASCII classes
  `[0-9A-Za-z_-]` and `[0-9A-Za-z_.-]`.
- **Unanchored patterns.** The `Email` and `Url` patterns search anywhere in the
  string. An unanchored match reduces to "some position starts a match". Only
  the leading part of each pattern can decide that, so that part is modelled
  exactly.
- **The hook's receiver matters.** `Form` and `MultipartForm` type-assert a
  struct *value* against `Validator`, so only a value-receiver `ValidateBinder`
  runs. `Json` asserts the pointer, so a hook of either receiver kind runs.

## Model

| member | source | states |
|---|---|---|
| Text.JoinSplit | binder.go:212 | splitting a binding tag on `;` loses nothing: no part contains the separator, and joining the parts gives the tag back |
| Text.SplitJoin | binder.go:212 | splitting a join of separator-free parts gives those parts back, so the list of rule entries is exactly what the tag spells |
| Text.ByteLen | common_test.go:62 | Go's `len` of a string counts UTF-8 bytes: at least one and at most four per character |
| Text.AsciiByteLen | common_test.go:62 | for ASCII text the byte length equals the character count |
| Strconv.ParseUint | binder.go:352 | a literal is accepted iff it is non-empty, all digits and at most 2^64-1, with its decimal value; it is a range error, clamped to the maximum, iff the digits before the first non-digit already exceed 2^64-1; it is a syntax error iff it is empty or meets a non-digit before that happens |
| Strconv.DigitRunAppend | binder.go:352 | text after a non-digit changes neither where the leading digits end nor their value |
| Strconv.ParseInt | binder.go:342 | a literal is accepted iff it is an optionally signed digit string whose value fits in 64 bits; out-of-range values clamp to the nearer bound; a syntax error only for literals that are not signed decimals, and exactly when parsing the magnitude as unsigned is one |
| Strconv.Atoi | binder.go:234 | the result always fits in 64 bits and is the clamped value of a signed decimal. Otherwise it is 0 whenever `ParseInt` reports a syntax error; when the digits before the first non-digit overflow, it is the bound on the side of the sign. So `5x` reads as 0, and `99999999999999999999x` reads as the largest int64 |
| Strconv.ParseBool | binder.go:367 | true exactly for `1 t T TRUE true True`, false exactly for `0 f F FALSE false False`, an error for anything else |
| Strconv.FormatNat | binder.go:342 | a natural number prints as a non-empty digit string whose decimal value is that number |
| Strconv.ParseFormatInt | binder.go:342 | every 64-bit integer printed in decimal parses back to itself |
| Strconv.ParseFormatUint | binder.go:352 | every unsigned 64-bit integer printed in decimal parses back to itself |
| Strconv.ParseDigit | binder.go:234 | a one-digit argument such as the `5` of `MinSize(5)` reads as its digit value |
| Patterns.AlphaDashDotWeaker | binder.go:177-178 | whatever the AlphaDashDot pattern flags, the AlphaDash pattern flags too: the dot class only adds `.` |
| Patterns.FormattedIntIsAlphaDash | binder.go:224 | an integer rendered by `%v` never trips the AlphaDash rule |
| Patterns.UrlExamples | binder.go:180 | `http://a.b` and a text containing `https://a.b/c` match the URL pattern; the empty string does not |
| Patterns.NotAUrl | binder.go:180 | `not a url` has no URL match |
| Patterns.EmptyIsNotEmail | binder.go:179 | the empty string has no e-mail match |
| Shapes.ZeroConforms | binder.go:202 | the zero value of every shape is a value of that shape |
| Shapes.ZeroFieldsConform | binder.go:202 | the zero struct conforms to its field list |
| Coerce.SetWithProperType | binder.go:336-396 | per kind: int and uint read `""` as 0, store an in-range base-10 literal, and otherwise keep the field and yield one IntegerTypeError labelled with the form key; bool stores true for `on` and the true literals and never writes false, with a BooleanTypeError only for non-literals; strings are always stored; other kinds are untouched; the result keeps the field's kind |
| Coerce.CoerceIdempotent | binder.go:336-396 | coercing the same literal a second time leaves the stored value unchanged |
| Coerce.CoerceRender | binder.go:336-394 | a scalar printed with `%v` and coerced back is stored unchanged, except `false`, which leaves the field as it was |
| MapForm.BindTagged | binder.go:292-327 | an empty tag, an unwritable field or an absent key leaves the field alone; a slice becomes a fresh slice with one element per value, each coerced from zero; any other leaf coerces the first value; files are used only when the key has no string values: all of them for `[]*FileHeader`, the first for `*FileHeader`, none otherwise; a non-embedded struct pointer is never written |
| MapForm.BindField | binder.go:281-328 | binding one field keeps the value of the field's shape |
| MapForm.BindEmbedded | binder.go:284-289 | the rebuilt embedded pointer is nil or points to a struct of the embedded type |
| MapForm.BindFields | binder.go:280-329 | field i of the result is field i bound from its own previous value alone, and the struct keeps its shape |
| MapForm.StringValuesTakePrecedence | binder.go:297-316 | for a key with string values, the file map has no influence on the result |
| MapForm.BindFieldsIdempotent | binder.go:275-330 | binding the same form into a struct twice gives the same struct as binding it once |
| MapForm.BindFieldIdempotent | binder.go:281-328 | binding one field twice from the same form equals binding it once |
| MapForm.ZeroEmbeddedNil | binder.go:284-289 | in a zero struct every embedded struct pointer is nil |
| MapForm.EmptyBagBindsNothing | binder.go:275-330 | with no keys and no files, a struct whose embedded pointers are nil comes out unchanged |
| MapForm.EmbeddedCollapses | binder.go:284-289 | the embedded pointer points to the struct bound from zero iff that struct differs from the zero struct, and is nil otherwise |
| MapForm.EmbeddedStaysNil | binder.go:284-289 | with no keys, an embedded struct pointer is reset to nil |
| MapForm.EmbeddedDiscardsPrevious | binder.go:285 | the previous contents of an embedded struct pointer do not influence the result |
| Validation.SizeArgumentText | binder.go:234 | the argument text is the characters between the prefix and the closing character. When that character is not ASCII, the leading bytes of its UTF-8 encoding follow, one stand-in each, since Go slices bytes |
| Validation.SizeArgumentAscii | binder.go:234 | with an ASCII closing character, the argument is `Atoi` of the text between the parentheses |
| Validation.SizeArgumentStrayBytes | binder.go:234 | with a closing character that is not ASCII, the argument reads as 0, or as the bound on the sign's side when its digits overflow first |
| Validation.CheckRule | binder.go:217-268 | an error from a rule names only the Go field and carries a rule classification; an entry outside the catalogue never fires |
| Validation.RequiredRule | binder.go:218-222 | `Required` fires iff the value equals its zero value (nil for slices and pointers), with a RequiredError named after the field |
| Validation.DashRules | binder.go:223-232 | `AlphaDash` (`AlphaDashDot`) fires iff the `%v` text has a character outside `[0-9A-Za-z_-]` (`[0-9A-Za-z_.-]`) |
| Validation.AddressRules | binder.go:255-267 | `Email` fires iff the text has no e-mail match, even when empty; `Url` fires iff the text is non-empty and has no URL match, with a UrlError |
| Validation.SizeRules | binder.go:233-254 | `MinSize(N)` fires iff the rune count of a string or the length of a slice is below N; `MaxSize(N)` iff it is above N; other kinds never fire; each carries its own classification |
| Validation.RuleErrorsLabelled | binder.go:212-269 | a tag yields one error per violated entry and so never more errors than entries, each labelled with the field name and a rule classification |
| Validation.RuleErrorsSingle | binder.go:212-268 | a single entry yields exactly its rule's error, or nothing |
| Validation.ViolationsFlatten | binder.go:193-270 | a struct's report is the concatenation, in declaration order, of its fields' reports |
| Validation.AddRuleErrors | binder.go:212-269 | the rule loop keeps the accumulated errors as a prefix and appends the field's rule errors |
| Validation.ValidateStruct | binder.go:184-272 | the accumulating walk appends to the errors it is given exactly the struct's report, defined field by field |
| Validation.ValidateField | binder.go:196-269 | each loop step appends exactly that field's report: nothing for a skipped field, else nested errors then rule errors |
| Validation.ValidateNested | binder.go:204-209 | the recursive call appends the nested struct's report, and nothing for a nil pointer or a leaf |
| Validation.Validate | binder.go:399-421 | without a hook, the result is the built-in report; with one, it is what the hook returns when given the struct and that report |
| Validation.ViolationsAreRuleErrors | binder.go:184-272 | every built-in error names exactly one field and carries a rule classification, never a coercion one |
| Validation.FieldViolationsAreRuleErrors | binder.go:196-269 | the same for the report of a single field |
| Validation.SingleRuleField | binder.go:212-268 | a visited leaf with a one-rule tag reports exactly that rule's error, or nothing |
| Validation.RequiredLeaf | binder.go:218-222 | a visited `Required` leaf reports one RequiredError exactly when it holds its zero value |
| Validation.UncheckedLeaf | binder.go:212-215 | a leaf with no rules reports nothing |
| Validation.UncheckedRecord | binder.go:205-209 | an untagged nested struct reports exactly the nested struct's errors |
| Validation.UncheckedPointer | binder.go:205-209 | an untagged struct pointer reports the pointee's errors when it is not nil, and nothing when it is |
| Validation.ValidateElements | binder.go:408-415 | the element loop computes the report for a slice of structs; without a hook it is the concatenation of the elements' reports. `Form`, `MultipartForm` and `Json` never reach this branch, since each rejects a non-struct target first |
| Binder.Resolve | binder.go:58-72 | a non-pointer is rejected with ErrorInputNotByReference and nothing else is touched; a nil inner pointer is allocated as a zero struct; a target that then is not a struct is rejected with ErrorInputIsNotStructure; otherwise the struct to fill is returned |
| Binder.ValueHook | binder.go:83 | the hook runs after `Form` or `MultipartForm` iff the struct declares one with a value receiver |
| Binder.PointerHook | binder.go:169 | the hook runs after `Json` whenever the struct declares one, whatever the receiver |
| Binder.ParseErrors | binder.go:78-81 | a parse failure contributes exactly one DeserializationError with its message; success contributes none |
| Binder.Form | binder.go:55-88 | a rejected target yields exactly its one error and nothing is bound; otherwise the struct is bound from the form and the errors are the parse errors followed by the validation result |
| Binder.MultipartForm | binder.go:94-135 | a rejected target yields exactly its one error; otherwise, if `MultipartReader` failed, the struct is bound from an empty form (no value is read; embedded struct pointers are reset to nil), and the errors are one DeserializationError with its message followed by the validation result; else the struct is bound from the multipart values and files and the errors are the validation result |
| Binder.MultipartSource | binder.go:114-129 | the binder reads the parsed multipart form, or no values and no files at all when `MultipartReader` failed |
| Binder.Json | binder.go:142-174 | a rejected target yields exactly its one error; with no body the struct is validated as it is; otherwise the decoded struct is stored and the errors are the decode error (none for a clean end or end of input) followed by the validation result |
| Binder.DecodeErrors | binder.go:163-166 | a decoding failure contributes one DeserializationError; a clean end or end of input contributes nothing |
| Binder.RouteOf | binder.go:24-43 | a method other than POST/PUT with no Content-Type goes to Form; otherwise the first of `form-urlencoded`, `multipart/form-data`, `json` found in the header wins; if none is found, an empty header is an empty-content-type error and any other header an unsupported one |
| Binder.Bind | binder.go:23-44 | the outcome is the routed deserialiser's outcome, or exactly the one content-type error with the target untouched |
| Binder.FormHasNoCoercionErrors | binder.go:78-87 | if the hook adds none, a `Form` result never holds an IntegerTypeError or BooleanTypeError |
| Binder.ValidateKeepsClean | binder.go:399-423 | validation never adds coercion errors when the hook does not |
| Binder.MultipartHasNoCoercionErrors | binder.go:114-134 | the same for `MultipartForm`, whether or not `MultipartReader` failed |
| Binder.MultipartWithoutFilesIsForm | binder.go:94-135 | a multipart form without files binds and validates exactly as the same fields sent as a plain form |
| Binder.MultipartReaderFailure | binder.go:114-134 | when `MultipartReader` fails, `MultipartForm` gives what `Form` gives for a request with no values whose parsing failed with the same message, whatever the multipart form held |
| Binder.FormAllocatesNilPointer | binder.go:63-67 | through a nil inner pointer, an empty form allocates a zero struct and reports the zero struct's violations |
| Binder.EmptyFormOnlyValidates | binder.go:78-87 | an empty form leaves a struct whose embedded pointers are nil unchanged, and only validates it |
| Binder.PointerHookOnlyForJson | binder.go:83 | a pointer-receiver hook is ignored by `Form` but runs after `Json` |
| Fixtures.PostHookAppendsLengthError | common_test.go:61-70 | the hook keeps the list as a prefix and appends one LengthError on Title iff Title is shorter than 10 bytes; for ASCII titles, shorter than 10 characters |
| Fixtures.FixtureHooksKeepClean | common_test.go:61-70 | the Post hook, also promoted to BlogPost, never adds a coercion error |
| Fixtures.PostViolations | common_test.go:18-21 | a Post is flagged only for an empty Title, with one RequiredError |
| Fixtures.PersonViolations | common_test.go:24-27 | a Person is flagged only for an empty Name, with one RequiredError |
| Fixtures.PostValidation | common_test.go:61-70 | validating a Post yields the Required error on Title if it is empty, then the LengthError if it is shorter than 10 bytes |
| Fixtures.EmptyPostErrors | common_test.go:61-70 | an empty Post yields RequiredError(Title) then LengthError(Title) |
| Fixtures.PostFormWithoutKeys | binder.go:78-87 | a form without keys leaves a Post unchanged and returns just its validation errors |
| Fixtures.EmptyPostForm | binder.go:55-88 | an empty form into an empty Post returns RequiredError(Title), LengthError(Title) |
| Fixtures.BlogPostWellFormed | common_test.go:32-42 | every binding tag of BlogPost, Post and Person holds only supported rules |
| Fixtures.BlogPostViolations | common_test.go:32-42 | a BlogPost reports, in order: the embedded Post's Title, Id when 0, Author's Name, and Coauthor's Name only when Coauthor is not nil; Ignored, Ratings, the files and `unexported` report nothing |
| SadForm.AtMostOneError | binder.go:212-268 | a leaf with a single rule reports at most one error, and, when visited, one exactly when the rule fails |
| SadForm.SadFormAtMostOnePerField | common_test.go:48-58 | each SadForm field reports at most one error, whatever it holds |
| SadForm.UrlLeafAcceptsEmpty | binder.go:260-263 | a string field whose only rule is `Url` reports nothing when empty |
| SadForm.EmailLeafRejectsEmpty | binder.go:255-258 | a string field whose only rule is `Email` reports one EmailError when empty |
| SadForm.EmptyUrlPasses | common_test.go:57 | an empty UrlEmpty passes its Url rule |
| SadForm.EmptyEmailFails | common_test.go:55 | an empty Email fails its Email rule with one EmailError |
| SadForm.MinSizeFiveCheck | binder.go:233-238 | the `MinSize(5)` check on a nil slice reports one MinSizeError labelled with the field name |
| SadForm.MinSizeFiveRejectsNil | binder.go:233-243 | a nil slice field whose only rule is `MinSize(5)` reports exactly one MinSizeError |
| SadForm.NilSliceTooShort | common_test.go:52 | an absent (nil) MinSizeSlice violates MinSize(5) with one MinSizeError |
| FixtureBinding.StringLeafBinding | binder.go:292-308 | an exported, tagged string field takes the first value of its key, or keeps its value when the key is absent |
| FixtureBinding.PairBinding | common_test.go:18-27 | a Post or Person takes the first value of each present key and keeps the other field |
| FixtureBinding.BlogPostBindable | common_test.go:32-42 | binding a BlogPost never needs to write a read-only field |
| FixtureBinding.AuthorNotCoauthor | common_test.go:37-38 | keys `name` and `email` bind into Author, and Coauthor is never touched |
| FixtureBinding.HiddenFieldsBinding | common_test.go:35-41 | the key `unexported` never binds, and Ignored (`form:"-"`) is bound from the literal key `-` |
| FixtureBinding.RatingsBinding | common_test.go:36 | `rating=1&rating=2&rating=x` binds Ratings to `[1, 2, 0]` |
| FixtureBinding.RatingsFormIsClean | common_test.go:36 | the same through `Form`, and its result holds no IntegerTypeError |
| FixtureBinding.EmbedPersonBinding | common_test.go:44-46 | without a `name` key, the embedded Person stays nil unless `email` has a non-empty first value |
| FixtureBinding.EmbedPersonReport | common_test.go:44-46 | a nil embedded Person reports nothing; a non-nil one without a name reports RequiredError(Name) |
| FixtureBinding.EmbedPersonForm | common_test.go:44-46 | `Form` without `name`: a non-empty `email` yields a Person with only that email and RequiredError(Name); otherwise a nil Person and no errors |
| FixtureBinding.BlogPostValidation | common_test.go:61-70 | BlogPost's promoted hook appends the Post LengthError after the built-in report iff Title is shorter than 10 bytes |
| FixtureBinding.BlankBlogPostViolations | common_test.go:32-42 | a BlogPost with empty Post and Author, Id 0 and nil Coauthor reports RequiredError for Title, Id and Name, in that order |
| FixtureBinding.BlankBlogPostErrors | common_test.go:32-42 | with the hook, that BlogPost yields Required Title, Required Id, Required Name, then LengthError(Title) |
| FixtureBinding.EmptyBlogPostErrors | common_test.go:32-42 | the zero BlogPost yields exactly those four errors |
| FixtureBinding.EmptyBlogPostForm | common_test.go:32-42 | an empty form into a zero BlogPost leaves it unchanged and returns exactly those four errors |

## Left out

- HTTP plumbing is not modelled: `ParseForm`, `MultipartReader`/`ReadForm`, `MaxMemory`, closing the body (binder.go:78-81, 113-127, 161-167, 442). The decoded maps, the parse error and the decoded JSON body are inputs.
- A failure of `ReadForm` leaves the request's multipart form nil, and `mapForm` then dereferences it and panics (binder.go:121-129). That path is not modelled: `MultipartForm` takes the parsed form, or the error `MultipartReader` reported.
- JSON decoding by `encoding/json` is a foreign library. `Json` takes the decoded struct and how decoding ended (clean, end of input, or an error message) as input.
- Floating-point fields are not coerced (binder.go:373-392). A float field is an `OtherTy` leaf that binding leaves unchanged.
- Narrow integer kinds (`int8` … `int32`, `uint8` … `uint32`) are not modelled. `SetInt`/`SetUint` would silently truncate them after a 64-bit parse. Integers are 64-bit.
- The pattern rules `AlphaDash`, `AlphaDashDot`, `Email` and `Url` are modelled only on scalar leaf fields, a precondition of `Validation.CheckRule`. `%v` of slices, structs and pointers is not modelled.
- Panics are preconditions rather than modelled paths:
  - an empty value list under a key a field reads (binder.go:308);
  - an empty file list under a key with no string values, read by a `*FileHeader` field (binder.go:326);
  - `MapForm.WellFormedBag` forbids empty lists under every key, including keys no field reads. This is stronger than the two panics need, but `net/http` never produces an empty list;
  - a size rule shorter than `MinSize(N)` such as `MinSize(` (binder.go:234);
  - setting a read-only embedded pointer (binder.go:285);
  - `Json` into a `**T` target, whose pointer `validateStruct` cannot walk.
- Embedded fields of non-struct type are not modelled.
- The request argument the hook receives is not modelled: a hook is a function of the struct and the error list.
- A hook is taken not to modify the struct. In Go, `Json` hands the hook the pointer (binder.go:169), so a pointer-receiver `ValidateBinder` could write the target, and any hook could write through a struct-pointer field. Writes a hook makes to the target are not modelled, so `Binder.Json`'s stored struct is the decoded body.
- `StringTy` is the predeclared `string`. A named string type (`type Slug string`) is coerced like one by its kind (binder.go:336-396). But `MinSize`/`MaxSize` type-assert `fieldValue.(string)` (binder.go:235, 246), which fails for it, so the size rules never fire on such a field. The model has no leaf for a named string type.
- The file `errors.go` is not part of this model. Classification strings are taken to be the constant names, and `Errors.Add` is taken to append.
- A non-nil `*multipart.FileHeader` would be walked by `validateStruct`. It has no `binding` tags, so it reports nothing, and the model skips it.
- `json` struct tags are not modelled.
- MapForm.BindField: its contract states only that the bound value keeps the field's shape. What it binds is stated by `MapForm.BindTagged`, `MapForm.BindFields` and the lemmas about embedded pointers.
- MapForm.BindEmbedded: its contract states only the result's shape, because stating the collapse rule needs the zero struct's conformance first. The collapse rule is stated by `MapForm.EmbeddedCollapses`, and its consequences by `MapForm.EmbeddedStaysNil` and `MapForm.EmbeddedDiscardsPrevious`.
