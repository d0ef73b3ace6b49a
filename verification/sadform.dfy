/**
 The `SadForm` fixture (common_test.go:48-58): nine string or string-slice
 fields, each carrying exactly one rule. What validating each field reports.
 */
module SadForm {
  import opened Wrappers
  import opened Shapes
  import opened BindErrors
  import opened Patterns
  import opened Validation
  import opened Fixtures
  import Strconv

  /** A leaf field whose tag names a single rule reports at most one error,
      exactly when that rule fails. */
  lemma AtMostOneError(f: Field, v: Value)
    requires f.shape.Leaf? && ';' !in f.binding && RuleSupported(f.binding, f) && Conforms(v, f.shape)
    ensures FieldRulesWellFormed(f)
    ensures |FieldViolations(f, v)| <= 1
    ensures Visited(f) ==> (FieldViolations(f, v) != [] <==> CheckRule(f.binding, f, v).Some?)
  {
    if Visited(f) {
      SingleRuleField(f, v);
    } else {
      assert Rules(f) == [f.binding];
    }
  }

  /** Every SadForm field can be checked and reports at most one error. */
  lemma SadFormAtMostOnePerField(vs: seq<Value>)
    requires FieldsConform(vs, SadFormFields)
    ensures RulesWellFormed(SadFormFields)
    ensures forall k :: 0 <= k < |SadFormFields| ==> |FieldViolations(SadFormFields[k], vs[k])| <= 1
  {
    forall k | 0 <= k < |SadFormFields|
      ensures FieldRulesWellFormed(SadFormFields[k]) && |FieldViolations(SadFormFields[k], vs[k])| <= 1
    {
      SadFieldHasOneRule(k);
      AtMostOneError(SadFormFields[k], vs[k]);
    }
  }

  /** Each SadForm field is a visited leaf whose tag is one supported rule. */
  lemma SadFieldHasOneRule(k: nat)
    requires k < |SadFormFields|
    ensures SadFormFields[k].shape.Leaf? && Visited(SadFormFields[k])
    ensures ';' !in SadFormFields[k].binding && RuleSupported(SadFormFields[k].binding, SadFormFields[k])
  {
    assert k == 0 || k == 1 || k == 2 || k == 3 || k == 4 || k == 5 || k == 6 || k == 7 || k == 8;
  }

  /** A visited string field whose only rule is Url passes when empty. */
  lemma UrlLeafAcceptsEmpty(f: Field)
    requires f.shape == Leaf(StringTy) && Visited(f) && f.binding == "Url"
    ensures FieldRulesWellFormed(f)
    ensures FieldViolations(f, StrV("")) == []
  {
    SingleRuleField(f, StrV(""));
    AddressRules(f, StrV(""));
  }

  /** A visited string field whose only rule is Email fails when empty. */
  lemma EmailLeafRejectsEmpty(f: Field)
    requires f.shape == Leaf(StringTy) && Visited(f) && f.binding == "Email"
    ensures FieldRulesWellFormed(f)
    ensures FieldViolations(f, StrV("")) == [FieldError([f.name], EmailError, "Email")]
  {
    EmptyIsNotEmail();
    assert CheckRule(f.binding, f, StrV("")) == Some(FieldError([f.name], EmailError, "Email")) by {
      assert f.binding[0] == 'E';
    }
    SingleRuleField(f, StrV(""));
  }

  /** An empty UrlEmpty passes: the Url rule exempts the empty string. */
  lemma EmptyUrlPasses()
    ensures FieldRulesWellFormed(SadFormFields[8])
    ensures FieldViolations(SadFormFields[8], StrV("")) == []
  {
    assert SadFormFields[8] == Tagged("UrlEmpty", "UrlEmpty", "Url", StringTy);
    UrlLeafAcceptsEmpty(SadFormFields[8]);
  }

  /** An empty Email fails: the Email rule has no such exemption. */
  lemma EmptyEmailFails()
    ensures FieldRulesWellFormed(SadFormFields[6])
    ensures FieldViolations(SadFormFields[6], StrV("")) == [FieldError(["Email"], EmailError, "Email")]
  {
    assert SadFormFields[6] == Tagged("Email", "Email", "Email", StringTy);
    EmailLeafRejectsEmpty(SadFormFields[6]);
  }

  /** A nil slice has length 0, so it violates MinSize(5), whatever the slice
      holds and however the field is named. */
  lemma MinSizeFiveRejectsNil(f: Field)
    requires f.shape.Leaf? && f.shape.ty.SliceOf? && Visited(f) && f.binding == "MinSize(5)"
    ensures FieldRulesWellFormed(f)
    ensures FieldViolations(f, SliceV(None)) == [FieldError([f.name], MinSizeError, "MinSize")]
  {
    MinSizeFiveCheck(f);
    SingleRuleField(f, SliceV(None));
  }

  /** The MinSize(5) check on a nil slice reports one MinSize error. */
  lemma MinSizeFiveCheck(f: Field)
    requires f.shape.Leaf? && f.shape.ty.SliceOf? && f.binding == "MinSize(5)"
    ensures RuleSupported(f.binding, f)
    ensures CheckRule(f.binding, f, SliceV(None)) == Some(FieldError([f.name], MinSizeError, "MinSize"))
  {
    MinSizeFiveArgument();
    assert f.binding[..8] == "MinSize(" && f.binding[0] == 'M';
  }

  /** The argument of MinSize(5) reads as 5. */
  lemma MinSizeFiveArgument()
    ensures SizeArgument("MinSize(5)") == 5
  {
    var rule := "MinSize(5)";
    assert rule[8..|rule| - 1] == "5" && rule[|rule| - 1] == ')';
    SizeArgumentAscii(rule);
    Strconv.ParseDigit('5');
  }

  /** An absent MinSizeSlice (a nil slice, length 0) violates MinSize(5). */
  lemma NilSliceTooShort()
    ensures FieldRulesWellFormed(SadFormFields[3])
    ensures FieldViolations(SadFormFields[3], SliceV(None)) == [FieldError(["MinSizeSlice"], MinSizeError, "MinSize")]
  {
    assert SadFormFields[3] == Tagged("MinSizeSlice", "MinSizeSlice", "MinSize(5)", SliceOf(StringTy));
    MinSizeFiveRejectsNil(SadFormFields[3]);
  }
}
