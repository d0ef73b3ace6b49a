/**
 The rule validator: `validateStruct` (binder.go:184-272), which walks a
 struct and checks each field's `binding` rules, and `validate`
 (binder.go:399-423), which runs it and then the struct's own
 `ValidateBinder` hook, if it has one.
 */
module Validation {
  import opened Wrappers
  import opened Text
  import opened Strconv
  import opened Patterns
  import opened Shapes
  import opened BindErrors

  predicate IsSizeRule(rule: string) {
    HasPrefix(rule, "MinSize(") || HasPrefix(rule, "MaxSize(")
  }

  /** Rules that test the `%v` text of the value against a pattern. */
  predicate IsPatternRule(rule: string) {
    rule == "AlphaDash" || rule == "AlphaDashDot" || rule == "Email" || rule == "Url"
  }

  /** The rule can be checked on this field: a size rule has room for its
      argument (a bare "MinSize(" panics in Go), and a pattern rule sits on a
      scalar field, the only kinds whose `%v` text is modelled. */
  predicate RuleSupported(rule: string, f: Field) {
    && (IsSizeRule(rule) ==> |rule| >= 9)
    && (IsPatternRule(rule) ==> f.shape.Leaf? && IsScalar(f.shape.ty))
  }

  /** Stands for one byte of a UTF-8 sequence cut short: a byte that is
      neither a digit nor a sign. */
  const StrayByte: char := '\U{FFFD}'

  /** The text of `rule[8 : len(rule)-1]`. Go slices bytes: the prefix
      "MinSize(" or "MaxSize(" is 8 ASCII bytes, and only the final byte is
      dropped, so a closing character that is not ASCII leaves the leading
      bytes of its UTF-8 encoding behind, one `StrayByte` each. */
  function SizeArgumentText(rule: string): (arg: string)
    requires |rule| >= 9
    ensures |arg| == |rule| - 10 + Utf8Width(rule[|rule| - 1])
    ensures arg[..|rule| - 9] == rule[8..|rule| - 1]
    ensures forall i :: |rule| - 9 <= i < |arg| ==> arg[i] == StrayByte
  {
    rule[8..|rule| - 1] + seq(Utf8Width(rule[|rule| - 1]) - 1, _ => StrayByte)
  }

  /** The argument of a size rule, read by Atoi with its error dropped. */
  function SizeArgument(rule: string): int
    requires |rule| >= 9
  {
    Atoi(SizeArgumentText(rule))
  }

  /** With an ASCII closing character, as in every well-formed size rule,
      the argument is the text between the parentheses. */
  lemma SizeArgumentAscii(rule: string)
    requires |rule| >= 9 && rule[|rule| - 1] as int < 0x80
    ensures SizeArgument(rule) == Atoi(rule[8..|rule| - 1])
  {
    assert SizeArgumentText(rule) == rule[8..|rule| - 1];
  }

  /** With a closing character that is not ASCII, the stray bytes make the
      argument a syntax error, so it reads as 0, unless its digits overflow
      before them, when it reads as the bound on that side. */
  lemma SizeArgumentStrayBytes(rule: string)
    requires |rule| >= 9 && rule[|rule| - 1] as int >= 0x80
    ensures var p := rule[8..|rule| - 1];
      SizeArgument(rule) ==
        if LeadingValue(Magnitude(p)) <= MaxUint64 then 0
        else if p[0] == '-' then MinInt64 else MaxInt64
  {
    var p := rule[8..|rule| - 1];
    var arg := SizeArgumentText(rule);
    var tail := arg[|p|..];
    assert arg == p + tail;
    assert tail != [] && tail[0] == StrayByte;
    MagnitudeAppend(p, tail);
    DigitRunAppend(Magnitude(p), tail);
  }

  /** Rune count of a string, length of a slice (nil has length 0); other
      kinds have no size. */
  function Size(v: Value): Option<nat> {
    match v
    case StrV(s) => Some(|s|)
    case SliceV(elems) => Some(if elems.Some? then |elems.value| else 0)
    case _ => None
  }

  /** Classifications the rule catalogue produces. */
  predicate IsRuleClass(c: string) {
    c in {RequiredError, AlphaDashError, AlphaDashDotError, MinSizeError, MaxSizeError, EmailError, UrlError}
  }

  /** One rule of the catalogue applied to one field's value (one arm of the
      switch at binder.go:217-268): at most one error, labelled with the Go
      field name; unknown rules, the empty one included, never fail. The
      meaning of each rule is stated by the lemmas below. */
  function CheckRule(rule: string, f: Field, v: Value): (r: Option<FieldError>)
    requires Conforms(v, f.shape) && RuleSupported(rule, f)
    ensures r.Some? ==> r.value.fieldNames == [f.name] && IsRuleClass(r.value.classification)
    ensures !(IsSizeRule(rule) || IsPatternRule(rule) || rule == "Required") ==> r.None?
  {
    var names := [f.name];
    if rule == "Required" then
      if v == Zero(f.shape) then Some(FieldError(names, RequiredError, "Required")) else None
    else if rule == "AlphaDash" then
      if AlphaDashMatches(Render(v)) then Some(FieldError(names, AlphaDashError, "AlphaDash")) else None
    else if rule == "AlphaDashDot" then
      if AlphaDashDotMatches(Render(v)) then Some(FieldError(names, AlphaDashDotError, "AlphaDashDot")) else None
    else if HasPrefix(rule, "MinSize(") then
      var min := SizeArgument(rule);
      if v.StrV? && |v.s| < min then Some(FieldError(names, MinSizeError, "MinSize"))
      else if v.SliceV? && Size(v).value < min then Some(FieldError(names, MinSizeError, "MinSize"))
      else None
    else if HasPrefix(rule, "MaxSize(") then
      var max := SizeArgument(rule);
      if v.StrV? && |v.s| > max then Some(FieldError(names, MaxSizeError, "MaxSize"))
      else if v.SliceV? && Size(v).value > max then Some(FieldError(names, MaxSizeError, "MaxSize"))
      else None
    else if rule == "Email" then
      if !EmailMatches(Render(v)) then Some(FieldError(names, EmailError, "Email")) else None
    else if rule == "Url" then
      var s := Render(v);
      if |s| == 0 then None
      else if !UrlMatches(s) then Some(FieldError(names, UrlError, "Url"))
      else None
    else None
  }

  /** "Required" fails exactly on the zero value of the field's type. */
  lemma RequiredRule(f: Field, v: Value)
    requires Conforms(v, f.shape) && RuleSupported("Required", f)
    ensures CheckRule("Required", f, v).Some? <==> v == Zero(f.shape)
    ensures CheckRule("Required", f, v).Some? ==>
              CheckRule("Required", f, v).value == FieldError([f.name], RequiredError, "Required")
  {
  }

  /** AlphaDash and AlphaDashDot fail when the printed value has a character
      outside their class. */
  lemma DashRules(f: Field, v: Value)
    requires Conforms(v, f.shape) && f.shape.Leaf? && IsScalar(f.shape.ty)
    ensures CheckRule("AlphaDash", f, v).Some? <==>
              exists i :: 0 <= i < |Render(v)| && !IsAlphaDashChar(Render(v)[i])
    ensures CheckRule("AlphaDashDot", f, v).Some? <==>
              exists i :: 0 <= i < |Render(v)| && !IsAlphaDashDotChar(Render(v)[i])
  {
    assert !HasPrefix("AlphaDash", "MinSize(") && !HasPrefix("AlphaDash", "MaxSize(") by {
      assert "AlphaDash"[0] == 'A';
    }
    assert !HasPrefix("AlphaDashDot", "MinSize(") && !HasPrefix("AlphaDashDot", "MaxSize(") by {
      assert "AlphaDashDot"[0] == 'A';
    }
  }

  /** Email fails when the printed value is not an address, and Url when it
      is a non-empty text that holds no URL. */
  lemma AddressRules(f: Field, v: Value)
    requires Conforms(v, f.shape) && f.shape.Leaf? && IsScalar(f.shape.ty)
    ensures CheckRule("Email", f, v).Some? <==> !EmailMatches(Render(v))
    ensures CheckRule("Url", f, v).Some? <==> Render(v) != "" && !UrlMatches(Render(v))
    ensures CheckRule("Url", f, v).Some? ==> CheckRule("Url", f, v).value.classification == UrlError
  {
    assert !HasPrefix("Email", "MinSize(") && !HasPrefix("Email", "MaxSize(") by {
      assert "Email"[0] == 'E';
    }
    assert !HasPrefix("Url", "MinSize(") && !HasPrefix("Url", "MaxSize(") by {
      assert "Url"[0] == 'U';
    }
  }

  /** `MinSize(n)` fails when a string has fewer than n characters or a slice
      fewer than n elements; `MaxSize(n)` when it has more. Other kinds pass. */
  lemma SizeRules(rule: string, f: Field, v: Value)
    requires Conforms(v, f.shape) && RuleSupported(rule, f)
    ensures HasPrefix(rule, "MinSize(") ==>
              (CheckRule(rule, f, v).Some? <==> Size(v).Some? && Size(v).value < SizeArgument(rule))
    ensures HasPrefix(rule, "MinSize(") && CheckRule(rule, f, v).Some? ==>
              CheckRule(rule, f, v).value.classification == MinSizeError
    ensures HasPrefix(rule, "MaxSize(") ==>
              (CheckRule(rule, f, v).Some? <==> Size(v).Some? && Size(v).value > SizeArgument(rule))
    ensures HasPrefix(rule, "MaxSize(") && CheckRule(rule, f, v).Some? ==>
              CheckRule(rule, f, v).value.classification == MaxSizeError
  {
    if HasPrefix(rule, "MinSize(") || HasPrefix(rule, "MaxSize(") {
      assert rule[0] == 'M';
    }
  }

  /** Number of rules in `rules` that `v` violates. */
  function CountViolated(rules: seq<string>, f: Field, v: Value): nat
    requires Conforms(v, f.shape)
    requires forall k :: 0 <= k < |rules| ==> RuleSupported(rules[k], f)
  {
    if rules == [] then 0
    else (if CheckRule(rules[0], f, v).Some? then 1 else 0) + CountViolated(rules[1..], f, v)
  }

  /** The rule loop of one field (binder.go:212-269), in tag order: one error
      per violated rule and none for the others, all labelled with the field name. */
  function RuleErrors(rules: seq<string>, f: Field, v: Value): Errors
    requires Conforms(v, f.shape)
    requires forall k :: 0 <= k < |rules| ==> RuleSupported(rules[k], f)
  {
    if rules == [] then []
    else
      var rest := RuleErrors(rules[1..], f, v);
      match CheckRule(rules[0], f, v)
      case Some(e) => [e] + rest
      case None => rest
  }

  /** The rule loop adds exactly one error per violated rule, so never more
      errors than rules, each labelled with the field name and a rule class. */
  lemma {:induction false} RuleErrorsLabelled(rules: seq<string>, f: Field, v: Value)
    requires Conforms(v, f.shape)
    requires forall k :: 0 <= k < |rules| ==> RuleSupported(rules[k], f)
    ensures |RuleErrors(rules, f, v)| == CountViolated(rules, f, v) <= |rules|
    ensures forall k :: 0 <= k < |RuleErrors(rules, f, v)| ==>
              RuleErrors(rules, f, v)[k].fieldNames == [f.name] && IsRuleClass(RuleErrors(rules, f, v)[k].classification)
    decreases |rules|
  {
    if rules != [] {
      RuleErrorsLabelled(rules[1..], f, v);
    }
  }

  /** A single rule reports what that rule reports. */
  lemma RuleErrorsSingle(rule: string, f: Field, v: Value)
    requires Conforms(v, f.shape) && RuleSupported(rule, f)
    ensures RuleErrors([rule], f, v) == if CheckRule(rule, f, v).Some? then [CheckRule(rule, f, v).value] else []
  {
    assert [rule][1..] == [];
  }

  /** `validateStruct` skips fields tagged `form:"-"` and unexported fields. */
  predicate Visited(f: Field) {
    f.form != "-" && f.exported
  }

  /** The rules of the field, split on ';' as binder.go:212 does. */
  function Rules(f: Field): seq<string> {
    Split(f.binding, ';')
  }

  /** Every rule the walk meets can be checked. */
  predicate RulesWellFormed(fs: seq<Field>)
    decreases fs, 0
  {
    forall i :: 0 <= i < |fs| ==> FieldRulesWellFormed(fs[i])
  }

  predicate FieldRulesWellFormed(f: Field)
    decreases f, 1
  {
    Visited(f) ==>
      && (forall k :: 0 <= k < |Rules(f)| ==> RuleSupported(Rules(f)[k], f))
      && (!f.shape.Leaf? ==> RulesWellFormed(f.shape.fields))
  }

  /** Reference definition of what the built-in pass reports for one field:
      a nested struct's errors (a pointer's only when it is not nil), then the
      field's own rule errors. */
  function FieldViolations(f: Field, v: Value): Errors
    requires Conforms(v, f.shape) && FieldRulesWellFormed(f)
    decreases f, 1
  {
    if !Visited(f) then [] else NestedViolations(f, v) + RuleErrors(Rules(f), f, v)
  }

  /** The nested struct's part of a field's report: a struct's errors, a
      pointer's only when it is not nil, nothing for other kinds. */
  function NestedViolations(f: Field, v: Value): Errors
    requires Conforms(v, f.shape) && (!f.shape.Leaf? ==> RulesWellFormed(f.shape.fields))
    decreases f, 0
  {
    match f.shape
    case Record(inner) => Violations(inner, v.fields)
    case RecordPtr(inner) => if v.record.Some? then Violations(inner, v.record.value) else []
    case Leaf(_) => []
  }

  /** Reference definition of the built-in pass: the fields' reports in
      declaration order. */
  function Violations(fs: seq<Field>, vs: seq<Value>): Errors
    requires FieldsConform(vs, fs) && RulesWellFormed(fs)
    decreases fs, 0
  {
    if fs == [] then [] else FieldViolations(fs[0], vs[0]) + Violations(fs[1..], vs[1..])
  }

  /** The lists of `xss` one after another. */
  function Flatten<T>(xss: seq<seq<T>>): seq<T> {
    if xss == [] then [] else xss[0] + Flatten(xss[1..])
  }

  /** The built-in pass is the concatenation of the fields' own reports: no
      report depends on another field, and none is dropped or reordered. */
  lemma {:induction false} ViolationsFlatten(fs: seq<Field>, vs: seq<Value>, reports: seq<Errors>)
    requires FieldsConform(vs, fs) && RulesWellFormed(fs) && |reports| == |fs|
    requires forall k :: 0 <= k < |fs| ==> FieldViolations(fs[k], vs[k]) == reports[k]
    ensures Violations(fs, vs) == Flatten(reports)
    decreases |fs|
  {
    if fs != [] {
      ViolationsCons(fs, vs);
      forall k | 0 <= k < |fs| - 1 ensures FieldViolations(fs[1..][k], vs[1..][k]) == reports[1..][k] {
        assert fs[1..][k] == fs[k + 1] && vs[1..][k] == vs[k + 1];
      }
      ViolationsFlatten(fs[1..], vs[1..], reports[1..]);
    }
  }

  /** Appends the errors of `rules` one at a time, as `errors.Add` does. */
  function AddRuleErrors(errs: Errors, rules: seq<string>, f: Field, v: Value): (r: Errors)
    requires Conforms(v, f.shape)
    requires forall k :: 0 <= k < |rules| ==> RuleSupported(rules[k], f)
    ensures r == errs + RuleErrors(rules, f, v)
    decreases rules
  {
    if rules == [] then errs
    else
      var next := match CheckRule(rules[0], f, v) case Some(e) => errs + [e] case None => errs;
      assert errs + RuleErrors(rules, f, v) == next + RuleErrors(rules[1..], f, v);
      AddRuleErrors(next, rules[1..], f, v)
  }

  /** `validateStruct(errors, obj)`: threads the error list through the walk
      and returns it; the errors found are appended after those passed in. */
  function ValidateStruct(errs: Errors, fs: seq<Field>, vs: seq<Value>): (r: Errors)
    requires FieldsConform(vs, fs) && RulesWellFormed(fs)
    ensures r == errs + Violations(fs, vs)
    decreases fs, 0
  {
    if fs == [] then errs
    else
      ViolationsCons(fs, vs);
      ValidateStruct(ValidateField(errs, fs[0], vs[0]), fs[1..], vs[1..])
  }

  /** The first field and the rest of a non-empty struct meet the walk's
      preconditions, and the report splits between them. */
  lemma ViolationsCons(fs: seq<Field>, vs: seq<Value>)
    requires FieldsConform(vs, fs) && RulesWellFormed(fs) && fs != []
    ensures Conforms(vs[0], fs[0].shape) && FieldRulesWellFormed(fs[0])
    ensures FieldsConform(vs[1..], fs[1..]) && RulesWellFormed(fs[1..])
    ensures Violations(fs, vs) == FieldViolations(fs[0], vs[0]) + Violations(fs[1..], vs[1..])
  {
    FieldsConformTail(vs, fs);
    assert RulesWellFormed(fs[1..]) by {
      forall i | 0 <= i < |fs| - 1 ensures FieldRulesWellFormed(fs[1..][i]) {
        assert fs[1..][i] == fs[i + 1];
      }
    }
  }

  /** One iteration of the field loop (binder.go:194-269): skipped fields add
      nothing; a struct, or a pointer to one that is not nil, is validated
      first; then the field's rules. */
  function ValidateField(errs: Errors, f: Field, v: Value): (r: Errors)
    requires Conforms(v, f.shape) && FieldRulesWellFormed(f)
    ensures r == errs + FieldViolations(f, v)
    decreases f, 1
  {
    if !Visited(f) then errs
    else AddRuleErrors(ValidateNested(errs, f, v), Rules(f), f, v)
  }

  /** The nested struct's part of one iteration: a struct field, or a pointer
      to one that is not nil, is walked with the list so far. */
  function ValidateNested(errs: Errors, f: Field, v: Value): (r: Errors)
    requires Conforms(v, f.shape) && (!f.shape.Leaf? ==> RulesWellFormed(f.shape.fields))
    ensures r == errs + NestedViolations(f, v)
    decreases f, 0
  {
    match f.shape
    case Record(inner) => ValidateStruct(errs, inner, v.fields)
    case RecordPtr(inner) => if v.record.Some? then ValidateStruct(errs, inner, v.record.value) else errs
    case Leaf(_) => errs
  }

  /** A struct's `ValidateBinder(req, errors)` method; the request is not
      modelled, and the hook is taken not to write the struct. */
  type Hook = (seq<Value>, Errors) -> Errors

  /** `validate(obj, req)` for a struct: the built-in pass, then the hook once,
      whose result replaces the list. */
  function Validate(fs: seq<Field>, vs: seq<Value>, hook: Option<Hook>): (r: Errors)
    requires FieldsConform(vs, fs) && RulesWellFormed(fs)
    ensures hook.None? ==> r == Violations(fs, vs)
    ensures hook.Some? ==> r == hook.value(vs, Violations(fs, vs))
  {
    var errs := ValidateStruct([], fs, vs);
    assert errs == Violations(fs, vs);
    if hook.Some? then hook.value(vs, errs) else errs
  }

  /** Every error carries exactly one field name and a rule classification. */
  predicate RuleLabelled(errs: Errors) {
    forall k :: 0 <= k < |errs| ==> |errs[k].fieldNames| == 1 && IsRuleClass(errs[k].classification)
  }

  /** The built-in pass reports only rule violations, each labelled with one
      bare field name: type-coercion errors never come out of it. */
  lemma {:induction false} ViolationsAreRuleErrors(fs: seq<Field>, vs: seq<Value>)
    requires FieldsConform(vs, fs) && RulesWellFormed(fs)
    ensures RuleLabelled(Violations(fs, vs))
    ensures NoCoercionErrors(Violations(fs, vs))
    decreases fs, 0
  {
    if fs != [] {
      ViolationsCons(fs, vs);
      FieldViolationsAreRuleErrors(fs[0], vs[0]);
      ViolationsAreRuleErrors(fs[1..], vs[1..]);
    }
  }

  lemma {:induction false} FieldViolationsAreRuleErrors(f: Field, v: Value)
    requires Conforms(v, f.shape) && FieldRulesWellFormed(f)
    ensures RuleLabelled(FieldViolations(f, v))
    ensures NoCoercionErrors(FieldViolations(f, v))
    decreases f, 1
  {
    if Visited(f) {
      RuleErrorsLabelled(Rules(f), f, v);
      match f.shape
      case Record(inner) =>
        ViolationsAreRuleErrors(inner, v.fields);
      case RecordPtr(inner) =>
        if v.record.Some? {
          ViolationsAreRuleErrors(inner, v.record.value);
        }
      case Leaf(_) =>
    }
  }

  /** A visited leaf field with a single rule reports what that rule reports. */
  lemma SingleRuleField(f: Field, v: Value)
    requires f.shape.Leaf? && Visited(f) && ';' !in f.binding
    requires Conforms(v, f.shape) && RuleSupported(f.binding, f)
    ensures FieldRulesWellFormed(f)
    ensures FieldViolations(f, v) == (if CheckRule(f.binding, f, v).Some? then [CheckRule(f.binding, f, v).value] else [])
  {
    assert Rules(f) == [f.binding];
    RuleErrorsSingle(f.binding, f, v);
  }

  /** A rule that is neither a size rule nor a pattern rule needs nothing. */
  lemma PlainRuleSupported(rule: string, f: Field)
    requires rule == "" || rule == "Required"
    ensures RuleSupported(rule, f)
  {
    if rule == "Required" {
      assert rule[0] == 'R';
    }
  }

  /** A leaf field whose only rule is Required reports it exactly at zero. */
  lemma RequiredLeaf(f: Field, v: Value)
    requires f.shape.Leaf? && Visited(f) && f.binding == "Required" && Conforms(v, f.shape)
    ensures FieldRulesWellFormed(f)
    ensures FieldViolations(f, v) == (if v == Zero(f.shape) then [FieldError([f.name], RequiredError, "Required")] else [])
  {
    PlainRuleSupported("Required", f);
    SingleRuleField(f, v);
    RequiredRule(f, v);
  }

  /** A visited field without rules and without nested fields reports nothing. */
  lemma UncheckedLeaf(f: Field, v: Value)
    requires f.shape.Leaf? && f.binding == "" && Conforms(v, f.shape)
    ensures FieldRulesWellFormed(f)
    ensures FieldViolations(f, v) == []
  {
    if Visited(f) {
      PlainRuleSupported("", f);
      SingleRuleField(f, v);
    }
  }

  /** A field without rules, or with Required alone, can be checked when its
      nested fields can. */
  lemma PlainRulesWellFormed(f: Field)
    requires f.binding == "" || f.binding == "Required"
    requires !f.shape.Leaf? ==> RulesWellFormed(f.shape.fields)
    ensures FieldRulesWellFormed(f)
  {
    PlainRuleSupported(f.binding, f);
    assert Rules(f) == [f.binding];
  }

  /** A struct field without rules of its own reports its fields' errors. */
  lemma UncheckedRecord(f: Field, v: Value)
    requires f.shape.Record? && Visited(f) && f.binding == ""
    requires Conforms(v, f.shape) && RulesWellFormed(f.shape.fields)
    ensures FieldRulesWellFormed(f)
    ensures FieldViolations(f, v) == Violations(f.shape.fields, v.fields)
  {
    PlainRuleSupported("", f);
    assert Rules(f) == [""];
    RuleErrorsSingle("", f, v);
  }

  /** A struct pointer without rules reports nothing when nil and its
      struct's errors otherwise. */
  lemma UncheckedPointer(f: Field, v: Value)
    requires f.shape.RecordPtr? && Visited(f) && f.binding == ""
    requires Conforms(v, f.shape) && RulesWellFormed(f.shape.fields)
    ensures FieldRulesWellFormed(f)
    ensures FieldViolations(f, v) == (if v.record.Some? then Violations(f.shape.fields, v.record.value) else [])
  {
    PlainRuleSupported("", f);
    assert Rules(f) == [""];
    RuleErrorsSingle("", f, v);
  }

  /** Reference definition of `validate` on a slice of structs: for each
      element in turn, its built-in errors are appended and then its hook, if
      any, replaces the list. */
  function ValidateSlice(fs: seq<Field>, elems: seq<seq<Value>>, hook: Option<Hook>): Errors
    requires RulesWellFormed(fs)
    requires forall i :: 0 <= i < |elems| ==> FieldsConform(elems[i], fs)
    decreases |elems|
  {
    if elems == [] then []
    else
      var e := elems[|elems| - 1];
      var withBuiltIn := ValidateSlice(fs, elems[..|elems| - 1], hook) + Violations(fs, e);
      if hook.Some? then hook.value(e, withBuiltIn) else withBuiltIn
  }

  /** Every element's built-in errors, element by element. */
  function AllViolations(fs: seq<Field>, elems: seq<seq<Value>>): Errors
    requires RulesWellFormed(fs)
    requires forall i :: 0 <= i < |elems| ==> FieldsConform(elems[i], fs)
  {
    if elems == [] then [] else Violations(fs, elems[0]) + AllViolations(fs, elems[1..])
  }

  lemma {:induction false} AllViolationsSnoc(fs: seq<Field>, elems: seq<seq<Value>>, e: seq<Value>)
    requires RulesWellFormed(fs) && FieldsConform(e, fs)
    requires forall i :: 0 <= i < |elems| ==> FieldsConform(elems[i], fs)
    ensures AllViolations(fs, elems + [e]) == AllViolations(fs, elems) + Violations(fs, e)
    decreases |elems|
  {
    if elems != [] {
      assert (elems + [e])[1..] == elems[1..] + [e];
      AllViolationsSnoc(fs, elems[1..], e);
    }
  }

  /** `validate(obj, req)` when `obj` is a slice or array of structs
      (binder.go:408-415). None of `Form`, `MultipartForm` and `Json` reaches
      this branch: each rejects a target that is not a struct beforehand
      (binder.go:70, 109, 157). */
  method ValidateElements(fs: seq<Field>, elems: seq<seq<Value>>, hook: Option<Hook>) returns (errs: Errors)
    requires RulesWellFormed(fs)
    requires forall i :: 0 <= i < |elems| ==> FieldsConform(elems[i], fs)
    ensures errs == ValidateSlice(fs, elems, hook)
    ensures hook.None? ==> errs == AllViolations(fs, elems)
  {
    errs := [];
    var i := 0;
    while i < |elems|
      invariant 0 <= i <= |elems|
      invariant errs == ValidateSlice(fs, elems[..i], hook)
      invariant hook.None? ==> errs == AllViolations(fs, elems[..i])
    {
      assert elems[..i + 1][..i] == elems[..i];
      errs := ValidateStruct(errs, fs, elems[i]);
      if hook.Some? {
        errs := hook.value(elems[i], errs);
      } else {
        AllViolationsSnoc(fs, elems[..i], elems[i]);
        assert elems[..i] + [elems[i]] == elems[..i + 1];
      }
      i := i + 1;
    }
    assert elems[..i] == elems;
  }
}
