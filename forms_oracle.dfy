/** The shapes of forms_test.go (`testForm`, `testField`, `testEmbedded`) as
    already-decoded value trees, and what `validate` concludes about them.

    These lemmas are about the walk over a value that decoding has already
    produced; they say nothing about whether JSON decoding produces it.
    Decoding is the abstract `decodeJSON` of the `Decoders` record, and for
    an embedded pointer to an unexported struct type such as `*testEmbedded`
    the encoding/json package refuses to allocate it and returns a decode
    error, so `ValidateJSON` ends before `validate` on those inputs.

    `testForm` embeds `*testEmbedded`, whose type name is not exported.
    Whether reflection lets `validateField` interface such a field depends on
    the reflect package, which is not part of this model, so every shape
    here takes that answer as the parameter `embeddedExported`. */
module FormsOracle {
  import opened Common
  import opened Forms

  /** A decoded `testForm`: `embedded == None` when `*testEmbedded` is nil. */
  datatype TestForm = TestForm(foo: int, bar: int, embedded: Option<TestEmbedded>)

  /** A decoded `testEmbedded`: `qux == None` when `Qux` is nil. */
  datatype TestEmbedded = TestEmbedded(baz: int, qux: Option<TestForm>)

  const FooError := Error("f.Foo < 1")
  const BarError := Error("testField < 1")
  const BazError := Error("f.Baz < 1")

  function Check(ok: bool, e: Error): (r: Outcome)
    ensures r.Ok? <==> ok
    ensures r.Fail? ==> r.err == e
  {
    if ok then Ok else Fail(e)
  }

  /** `reflect.ValueOf(&form)` for a decoded `testForm`. A nil pointer gets
      no verdict: its `Validate` would dereference nil, and nil pointers are
      skipped before any verdict is read. */
  function FormPtr(f: TestForm, embeddedExported: bool): (v: FormValue)
    ensures v.form == Some(Check(f.foo >= 1, FooError))
    decreases f
  {
    var own := Some(Check(f.foo >= 1, FooError));
    var embedded := match f.embedded
      case None => Ptr(None, None)
      case Some(e) => EmbeddedPtr(e, embeddedExported);
    Ptr(Some(Struct([Field("Foo", false, true, Leaf(None)),
                     Field("Bar", false, true, Leaf(Some(Check(f.bar >= 1, BarError)))),
                     Field("testEmbedded", true, embeddedExported, embedded)], own)), own)
  }

  /** The non-nil `*testEmbedded` field of a decoded `testForm`. */
  function EmbeddedPtr(e: TestEmbedded, embeddedExported: bool): (v: FormValue)
    ensures v.form == Some(Check(e.baz >= 1, BazError))
    decreases e
  {
    var qux := match e.qux
      case None => Ptr(None, None)
      case Some(g) => FormPtr(g, embeddedExported);
    var own := Some(Check(e.baz >= 1, BazError));
    Ptr(Some(Struct([Field("Baz", false, true, Leaf(None)),
                     Field("Qux", false, true, qux)], own)), own)
  }

  /** The test's expectation: foo, bar and (when the embedded field is
      checked) baz are all at least 1, at the top level and, when present,
      inside `qux`. */
  predicate AllAtLeastOne(f: TestForm, embeddedExported: bool)
    decreases f
  {
    && f.foo >= 1
    && f.bar >= 1
    && (f.embedded.Some? ==> EmbeddedAtLeastOne(f.embedded.value, embeddedExported))
  }

  predicate EmbeddedAtLeastOne(e: TestEmbedded, embeddedExported: bool)
    decreases e
  {
    && (embeddedExported ==> e.baz >= 1)
    && (e.qux.Some? ==> AllAtLeastOne(e.qux.value, embeddedExported))
  }

  /** The first failing check in field order: `Bar`, then the embedded
      struct, and `Foo` last. */
  function FirstError(f: TestForm, embeddedExported: bool): (r: Outcome)
    decreases f
  {
    if f.bar < 1 then Fail(BarError)
    else if f.embedded.Some? && EmbeddedError(f.embedded.value, embeddedExported).Fail?
    then EmbeddedError(f.embedded.value, embeddedExported)
    else if f.foo < 1 then Fail(FooError)
    else Ok
  }

  /** Inside the embedded struct: `Qux` first, then (when the field is
      checked) its own `Baz` check. */
  function EmbeddedError(e: TestEmbedded, embeddedExported: bool): (r: Outcome)
    decreases e
  {
    if e.qux.Some? && FirstError(e.qux.value, embeddedExported).Fail? then FirstError(e.qux.value, embeddedExported)
    else if embeddedExported && e.baz < 1 then Fail(BazError)
    else Ok
  }

  lemma {:induction false} FirstErrorPassesIffAllAtLeastOne(f: TestForm, embeddedExported: bool)
    ensures FirstError(f, embeddedExported).Ok? <==> AllAtLeastOne(f, embeddedExported)
    decreases f
  {
    if f.embedded.Some? {
      EmbeddedErrorPassesIffAtLeastOne(f.embedded.value, embeddedExported);
    }
  }

  lemma {:induction false} EmbeddedErrorPassesIffAtLeastOne(e: TestEmbedded, embeddedExported: bool)
    ensures EmbeddedError(e, embeddedExported).Ok? <==> EmbeddedAtLeastOne(e, embeddedExported)
    decreases e
  {
    if e.qux.Some? {
      FirstErrorPassesIffAllAtLeastOne(e.qux.value, embeddedExported);
    }
  }

  /** Validating a decoded `testForm` returns exactly the first failing
      check in field order. */
  lemma {:induction false} ValidateTestForm(f: TestForm, embeddedExported: bool)
    ensures Verdict(FormPtr(f, embeddedExported)) == FirstError(f, embeddedExported)
    decreases f
  {
    var v := FormPtr(f, embeddedExported);
    var fs := SubFields(v);
    assert |fs| == 3;
    var foo, bar, emb := fs[0], fs[1], fs[2];
    assert fs[1..] == [bar, emb] && fs[1..][1..] == [emb] && fs[1..][1..][1..] == [];
    assert FieldStep(foo) == Ok;
    assert FieldStep(bar) == Check(f.bar >= 1, BarError);
    var embStep := FieldStep(emb);
    match f.embedded {
    case None =>
      assert embStep == Ok;
    case Some(e) =>
      EmbeddedStep(e, embeddedExported);
    }
    assert Walk(fs[1..][1..][1..]) == Ok;
    assert Walk(fs[1..][1..]) == (if embStep.Fail? then embStep else Ok);
    assert Walk(fs[1..]) == (if FieldStep(bar).Fail? then FieldStep(bar) else Walk(fs[1..][1..]));
    assert Walk(fs) == Walk(fs[1..]);
    assert FieldsVerdict(v) == Walk(fs);
  }

  /** The embedded field's step: its own fields, `Baz` and then `Qux`, and
      then, when it can be interfaced, its own `Validate`. */
  lemma {:induction false} EmbeddedStep(e: TestEmbedded, embeddedExported: bool)
    ensures FieldStep(Field("testEmbedded", true, embeddedExported, EmbeddedPtr(e, embeddedExported)))
            == EmbeddedError(e, embeddedExported)
    decreases e
  {
    var ev := EmbeddedPtr(e, embeddedExported);
    var efs := SubFields(ev);
    assert |efs| == 2;
    assert efs[1..] == [efs[1]] && efs[1..][1..] == [];
    assert FieldStep(efs[0]) == Ok;
    match e.qux {
    case None =>
      assert FieldStep(efs[1]) == Ok;
    case Some(g) =>
      ValidateTestForm(g, embeddedExported);
      assert FieldStep(efs[1]) == FirstError(g, embeddedExported);
    }
    assert Walk(efs[1..][1..]) == Ok;
    assert Walk(efs[1..]) == (if FieldStep(efs[1]).Fail? then FieldStep(efs[1]) else Ok);
    assert Walk(efs) == Walk(efs[1..]);
    assert FieldsVerdict(ev) == Walk(efs);
    assert Target(ev, embeddedExported) == if embeddedExported then Some(ev) else None;
    assert Verdict(ev) == (if FieldsVerdict(ev).Fail? then FieldsVerdict(ev) else Check(e.baz >= 1, BazError));
    assert FieldVerdict(ev, embeddedExported) == (if embeddedExported then Verdict(ev) else Ok);
  }

  /** The result is nil exactly when the test expects it to be. */
  lemma TestFormOracle(f: TestForm, embeddedExported: bool)
    ensures Verdict(FormPtr(f, embeddedExported)).Ok? <==> AllAtLeastOne(f, embeddedExported)
  {
    ValidateTestForm(f, embeddedExported);
    FirstErrorPassesIffAllAtLeastOne(f, embeddedExported);
  }

  /** The four top-level shapes of TestValidateJSON's rows. */
  lemma TopLevelRows()
    ensures Verdict(FormPtr(TestForm(1, 1, Some(TestEmbedded(1, None))), true)).Ok?
    ensures Verdict(FormPtr(TestForm(0, 1, Some(TestEmbedded(1, None))), true)) == Fail(FooError)
    ensures Verdict(FormPtr(TestForm(1, 0, Some(TestEmbedded(1, None))), true)) == Fail(BarError)
    ensures Verdict(FormPtr(TestForm(1, 1, Some(TestEmbedded(0, None))), true)) == Fail(BazError)
  {
    ValidateTestForm(TestForm(1, 1, Some(TestEmbedded(1, None))), true);
    ValidateTestForm(TestForm(0, 1, Some(TestEmbedded(1, None))), true);
    ValidateTestForm(TestForm(1, 0, Some(TestEmbedded(1, None))), true);
    ValidateTestForm(TestForm(1, 1, Some(TestEmbedded(0, None))), true);
  }

  /** The "nested valid" shape. */
  lemma NestedValid()
    ensures Verdict(FormPtr(TestForm(1, 1, Some(TestEmbedded(1, Some(TestForm(1, 1, Some(TestEmbedded(1, None))))))), true)).Ok?
  {
    ValidateTestForm(TestForm(1, 1, Some(TestEmbedded(1, Some(TestForm(1, 1, Some(TestEmbedded(1, None))))))), true);
  }

  /** The "nested invalid" shape. */
  lemma NestedInvalid()
    ensures Verdict(FormPtr(TestForm(1, 1, Some(TestEmbedded(1, Some(TestForm(0, 1, Some(TestEmbedded(1, None))))))), true)) == Fail(FooError)
  {
    ValidateTestForm(TestForm(1, 1, Some(TestEmbedded(1, Some(TestForm(0, 1, Some(TestEmbedded(1, None))))))), true);
  }

  /** The "nested field invalid" shape. */
  lemma NestedFieldInvalid()
    ensures Verdict(FormPtr(TestForm(1, 1, Some(TestEmbedded(1, Some(TestForm(1, 0, Some(TestEmbedded(1, None))))))), true)) == Fail(BarError)
  {
    ValidateTestForm(TestForm(1, 1, Some(TestEmbedded(1, Some(TestForm(1, 0, Some(TestEmbedded(1, None))))))), true);
  }

  /** The "nested embedded invalid" shape. */
  lemma NestedEmbeddedInvalid()
    ensures Verdict(FormPtr(TestForm(1, 1, Some(TestEmbedded(1, Some(TestForm(1, 1, Some(TestEmbedded(0, None))))))), true)) == Fail(BazError)
  {
    ValidateTestForm(TestForm(1, 1, Some(TestEmbedded(1, Some(TestForm(1, 1, Some(TestEmbedded(0, None))))))), true);
  }

  /** The eight shapes of TestValidateJSON's rows, as values already
      decoded, with the embedded field checked: `validate` passes only the
      "valid" and "nested valid" shapes. */
  lemma TestValidateJSONRows()
    ensures Verdict(FormPtr(TestForm(1, 1, Some(TestEmbedded(1, None))), true)).Ok?
    ensures Verdict(FormPtr(TestForm(0, 1, Some(TestEmbedded(1, None))), true)) == Fail(FooError)
    ensures Verdict(FormPtr(TestForm(1, 0, Some(TestEmbedded(1, None))), true)) == Fail(BarError)
    ensures Verdict(FormPtr(TestForm(1, 1, Some(TestEmbedded(0, None))), true)) == Fail(BazError)
    ensures Verdict(FormPtr(TestForm(1, 1, Some(TestEmbedded(1, Some(TestForm(1, 1, Some(TestEmbedded(1, None))))))), true)).Ok?
    ensures Verdict(FormPtr(TestForm(1, 1, Some(TestEmbedded(1, Some(TestForm(0, 1, Some(TestEmbedded(1, None))))))), true)) == Fail(FooError)
    ensures Verdict(FormPtr(TestForm(1, 1, Some(TestEmbedded(1, Some(TestForm(1, 0, Some(TestEmbedded(1, None))))))), true)) == Fail(BarError)
    ensures Verdict(FormPtr(TestForm(1, 1, Some(TestEmbedded(1, Some(TestForm(1, 1, Some(TestEmbedded(0, None))))))), true)) == Fail(BazError)
  {
    TopLevelRows();
    NestedValid();
    NestedInvalid();
    NestedFieldInvalid();
    NestedEmbeddedInvalid();
  }

  /** When reflection refuses to interface the embedded field, its own
      `Validate` is never called: `validate` passes the already-decoded
      "embedded invalid" shape. */
  lemma UninterfaceableEmbeddingSkipsBaz()
    ensures Verdict(FormPtr(TestForm(1, 1, Some(TestEmbedded(0, None))), false)).Ok?
  {
    ValidateTestForm(TestForm(1, 1, Some(TestEmbedded(0, None))), false);
  }

  /** A missing `*testEmbedded` (no `baz`, no `qux`) is skipped entirely. */
  lemma AbsentEmbeddingSkipped(foo: int, bar: int, embeddedExported: bool)
    ensures Verdict(FormPtr(TestForm(foo, bar, None), embeddedExported)).Ok? <==> foo >= 1 && bar >= 1
  {
    TestFormOracle(TestForm(foo, bar, None), embeddedExported);
  }
}
