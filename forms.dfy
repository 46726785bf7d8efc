/** The recursive form validator, the body dispatcher and the upload ceiling
    of forms.go.

    Go reaches the fields of a form through reflection. Here a Go value is a
    finite tree, so the cycles the Go walk cannot detect do not arise and
    every walk terminates. */
module Forms {
  import opened Common

  /** A Go value as `validate` sees it through reflection.
      `form` is what the value's `Validate` method returns when its dynamic
      type implements `Form`, and `None` when it does not.
      - `Leaf`: any kind that `validateFields` never looks into (numbers,
        strings, slices, maps, ...);
      - `Ptr`: a pointer, `elem == None` when it is nil;
      - `Struct`: a struct with its fields in declaration order;
      - `Iface`: a field of interface type, holding its dynamic value or
        `None` when it is nil. An interface value has no method set of its
        own: only the value it holds can be a `Form`. */
  datatype Value =
    | Leaf(form: Option<Outcome>)
    | Ptr(elem: Option<Value>, form: Option<Outcome>)
    | Struct(fields: seq<Field>, form: Option<Outcome>)
    | Iface(held: Option<Value>)

  /** A struct field. `anonymous` marks an embedded field. `exported` is what
      reflection's `CanInterface` answers for the field's value: false when
      the field's name is not exported, and for an embedded field that name
      is the name of its type. */
  datatype Field = Field(name: string, anonymous: bool, exported: bool, value: Value)

  predicate IsForm(v: Value)
  {
    !v.Iface? && v.form.Some?
  }

  /** A value whose type implements `Form`: what Go's type checker guarantees
      of every argument of `validate`. */
  type FormValue = v: Value | IsForm(v) witness Leaf(Some(Ok))

  /** A measure on the tree that every recursive call of the walk decreases. */
  function Size(v: Value): (n: nat)
    ensures n >= 1
  {
    match v
    case Leaf(_) => 1
    case Ptr(e, _) => if e.Some? then 1 + Size(e.value) else 1
    case Struct(fs, _) => 1 + FieldsSize(fs)
    case Iface(h) => if h.Some? then 1 + Size(h.value) else 1
  }

  function FieldsSize(fs: seq<Field>): (n: nat)
  {
    if fs == [] then 0 else 1 + Size(fs[0].value) + FieldsSize(fs[1..])
  }

  lemma {:induction false} FieldWithin(fs: seq<Field>, i: nat)
    requires i < |fs|
    ensures Size(fs[i].value) < FieldsSize(fs)
  {
    if i > 0 {
      FieldWithin(fs[1..], i - 1);
    }
  }

  /** The fields `validateFields` iterates over: it dereferences one pointer
      level and then looks for a struct. A nil pointer, a pointer to a
      pointer, an interface or a leaf contributes no fields. */
  function SubFields(v: Value): (fs: seq<Field>)
    ensures FieldsSize(fs) < Size(v)
  {
    match v
    case Struct(fs, _) => fs
    case Ptr(Some(Struct(fs, _)), _) => fs
    case _ => []
  }

  /** The form `validateField` hands to `validate`, or `None` when it returns
      nil without validating: for a nil pointer, for a value it cannot
      interface, and for a dynamic value that is not a `Form`. */
  function Target(v: Value, exported: bool): (t: Option<FormValue>)
    ensures t.Some? ==> Size(t.value) <= Size(v)
  {
    if v.Ptr? && v.elem.None? then None
    else if !exported then None
    else
      var dynamic := if v.Iface? then v.held else Some(v);
      if dynamic.Some? && IsForm(dynamic.value) then Some(dynamic.value) else None
  }

  // ---------------------------------------------------------------------
  // The walk as functions. `Verdict` is `validate`, `FieldsVerdict` is
  // `validateFields`, `Walk` is its loop over the fields, `FieldStep` is one
  // iteration of that loop and `FieldVerdict` is `validateField`.
  // ---------------------------------------------------------------------

  /** validate: nil exactly when every field passes and so does the form's
      own `Validate`; an error is one of those verdicts. */
  function Verdict(v: FormValue): (r: Outcome)
    ensures r.Ok? <==> FieldsVerdict(v).Ok? && v.form.value.Ok?
    ensures r.Fail? ==> r == FieldsVerdict(v) || r == v.form.value
    decreases Size(v), 3
  {
    var r := FieldsVerdict(v);
    if r.Fail? then r else v.form.value
  }

  /** validateFields: nil for a value without fields; a failure is the
      outcome of one of its fields. */
  function FieldsVerdict(v: Value): (r: Outcome)
    ensures SubFields(v) == [] ==> r.Ok?
    decreases Size(v), 2
  {
    Walk(SubFields(v))
  }

  /** The field loop: nil exactly when every field passes. */
  function Walk(fs: seq<Field>): (r: Outcome)
    ensures r.Ok? <==> EveryStepPasses(fs)
    decreases FieldsSize(fs), 1
  {
    if fs == [] then Ok
    else
      var r := FieldStep(fs[0]);
      if r.Fail? then r else Walk(fs[1..])
  }

  /** Every field of `fs`, taken on its own, passes its step. */
  predicate EveryStepPasses(fs: seq<Field>)
    decreases FieldsSize(fs), 0
  {
    fs == [] || (FieldStep(fs[0]).Ok? && EveryStepPasses(fs[1..]))
  }

  /** `EveryStepPasses`, index by index. */
  lemma {:induction false} EveryStepPassesAt(fs: seq<Field>)
    ensures EveryStepPasses(fs) <==> forall i :: 0 <= i < |fs| ==> FieldStep(fs[i]).Ok?
    decreases |fs|
  {
    if fs != [] {
      EveryStepPassesAt(fs[1..]);
      assert forall i :: 1 <= i < |fs| ==> fs[i] == fs[1..][i - 1];
    }
  }

  /** The field loop passes exactly when every field's step passes. */
  lemma WalkPassesIffEveryStep(fs: seq<Field>)
    ensures Walk(fs).Ok? <==> forall i :: 0 <= i < |fs| ==> FieldStep(fs[i]).Ok?
  {
    EveryStepPassesAt(fs);
  }

  /** One turn of the field loop: the first field's step, and the rest of
      the walk only when it passes. */
  /** The loop at field `i`: a failure of the embedded walk ends it. */
  lemma EmbeddedFailureEndsWalk(fs: seq<Field>, i: nat, r: Outcome)
    requires i < |fs| && fs[i].anonymous
    requires r == FieldsVerdict(fs[i].value) && r.Fail?
    ensures Walk(fs[i..]) == r
  {
    assert fs[i..][0] == fs[i];
  }

  /** The loop at field `i`, past the embedded walk: the field's own
      outcome ends it on failure, and otherwise the loop goes on. */
  lemma FieldOutcomeAt(fs: seq<Field>, i: nat, r: Outcome)
    requires i < |fs|
    requires fs[i].anonymous ==> FieldsVerdict(fs[i].value).Ok?
    requires r == FieldVerdict(fs[i].value, fs[i].exported)
    ensures r.Fail? ==> Walk(fs[i..]) == r
    ensures r.Ok? ==> Walk(fs[i..]) == Walk(fs[i + 1..])
  {
    assert fs[i..][0] == fs[i] && fs[i..][1..] == fs[i + 1..];
  }

  /** One iteration: an embedded field's own fields first, then the field
      itself; nil exactly when both pass. */
  function FieldStep(f: Field): (r: Outcome)
    ensures r.Ok? <==> (f.anonymous ==> FieldsVerdict(f.value).Ok?) && FieldVerdict(f.value, f.exported).Ok?
    decreases Size(f.value), 5
  {
    var r := if f.anonymous then FieldsVerdict(f.value) else Ok;
    if r.Fail? then r else FieldVerdict(f.value, f.exported)
  }

  /** validateField: only a value it hands to `validate` can fail, and then
      with that value's verdict. */
  function FieldVerdict(v: Value, exported: bool): (r: Outcome)
    ensures Target(v, exported).None? ==> r.Ok?
    ensures r.Fail? ==> Target(v, exported).Some? && r == Verdict(Target(v, exported).value)
    decreases Size(v), 4
  {
    match Target(v, exported)
    case None => Ok
    case Some(w) => Verdict(w)
  }

  // ---------------------------------------------------------------------
  // The walk as Go runs it: three mutually recursive methods, the middle
  // one looping over the fields with early returns.
  // ---------------------------------------------------------------------

  /** validate: the fields first, then the form's own `Validate`. */
  method ValidateValue(v: FormValue) returns (r: Outcome)
    ensures r == Verdict(v)
    decreases Size(v), 2
  {
    r := ValidateFields(v);
    if r.Fail? {
      return;
    }
    r := v.form.value;
  }

  /** validateFields: embedded fields are walked as if their fields sat at
      this level, and every field is then handed to `validateField`. */
  method ValidateFields(v: Value) returns (r: Outcome)
    ensures r == FieldsVerdict(v)
    decreases Size(v), 1
  {
    var s := v;
    if s.Ptr? {
      if s.elem.None? {
        return Ok;
      }
      s := s.elem.value;
    }
    if !s.Struct? {
      return Ok;
    }
    var fs := s.fields;
    assert fs == SubFields(v);
    var i := 0;
    while i < |fs|
      invariant 0 <= i <= |fs|
      invariant Walk(fs[i..]) == Walk(fs)
    {
      var f := fs[i];
      FieldWithin(fs, i);
      assert Size(f.value) < Size(v);
      if f.anonymous {
        r := ValidateFields(f.value);
        if r.Fail? {
          EmbeddedFailureEndsWalk(fs, i, r);
          return;
        }
      }
      r := ValidateField(f.value, f.exported);
      FieldOutcomeAt(fs, i, r);
      if r.Fail? {
        return;
      }
      i := i + 1;
    }
    return Ok;
  }

  /** validateField: nil pointers, values that cannot be interfaced and
      values that are not a `Form` pass; a `Form` is validated. */
  method ValidateField(v: Value, exported: bool) returns (r: Outcome)
    ensures r == FieldVerdict(v, exported)
    decreases Size(v), 3
  {
    if v.Ptr? && v.elem.None? {
      return Ok;
    }
    if !exported {
      return Ok;
    }
    var dynamic := if v.Iface? then v.held else Some(v);
    if dynamic.None? || !IsForm(dynamic.value) {
      return Ok;
    }
    r := ValidateValue(dynamic.value);
  }

  // ---------------------------------------------------------------------
  // Reference definition: the verdicts a walk consults, in order.
  // ---------------------------------------------------------------------

  /** The first failure in `s`, `Ok` when there is none. */
  function FirstFailure(s: seq<Outcome>): (r: Outcome)
    ensures r.Ok? <==> forall i :: 0 <= i < |s| ==> s[i].Ok?
    ensures r.Fail? ==> exists k :: 0 <= k < |s| && s[k] == r && forall j :: 0 <= j < k ==> s[j].Ok?
  {
    if s == [] then Ok
    else if s[0].Fail? then s[0]
    else
      var r := FirstFailure(s[1..]);
      assert r.Fail? ==> exists k :: 1 <= k < |s| && s[k] == r && forall j :: 0 <= j < k ==> s[j].Ok? by {
        if r.Fail? {
          var k' :| 0 <= k' < |s[1..]| && s[1..][k'] == r && forall j :: 0 <= j < k' ==> s[1..][j].Ok?;
          assert s[k' + 1] == r;
          assert forall j :: 0 <= j < k' + 1 ==> s[j].Ok? by {
            forall j | 0 <= j < k' + 1 ensures s[j].Ok? {
              if j > 0 {
                assert s[j] == s[1..][j - 1];
              }
            }
          }
        }
      }
      r
  }

  lemma {:induction false} FirstFailureAppend(a: seq<Outcome>, b: seq<Outcome>)
    ensures FirstFailure(a + b) == if FirstFailure(a).Fail? then FirstFailure(a) else FirstFailure(b)
  {
    if a == [] {
      assert a + b == b;
    } else {
      assert (a + b)[0] == a[0];
      assert (a + b)[1..] == a[1..] + b;
      FirstFailureAppend(a[1..], b);
    }
  }

  /** Every `Validate` verdict the walk of `v` reaches when none fails, in
      the order the walk reaches them; the form's own verdict comes last. */
  function Trace(v: FormValue): (t: seq<Outcome>)
    decreases Size(v), 2
  {
    FieldsTrace(v) + [v.form.value]
  }

  function FieldsTrace(v: Value): (t: seq<Outcome>)
    decreases Size(v), 1
  {
    WalkTrace(SubFields(v))
  }

  function WalkTrace(fs: seq<Field>): (t: seq<Outcome>)
    decreases FieldsSize(fs), 0
  {
    if fs == [] then [] else StepTrace(fs[0]) + WalkTrace(fs[1..])
  }

  function StepTrace(f: Field): (t: seq<Outcome>)
    decreases Size(f.value), 4
  {
    (if f.anonymous then FieldsTrace(f.value) else []) + FieldTrace(f.value, f.exported)
  }

  function FieldTrace(v: Value, exported: bool): (t: seq<Outcome>)
    decreases Size(v), 3
  {
    match Target(v, exported)
    case None => []
    case Some(w) => Trace(w)
  }

  /** `validate` returns the first failing verdict of the depth-first,
      fields-before-container traversal, and nil when all of them pass. */
  lemma {:induction false} VerdictIsFirstFailure(v: FormValue)
    ensures Verdict(v) == FirstFailure(Trace(v))
    decreases Size(v), 2
  {
    FieldsVerdictIsFirstFailure(v);
    FirstFailureAppend(FieldsTrace(v), [v.form.value]);
  }

  lemma {:induction false} FieldsVerdictIsFirstFailure(v: Value)
    ensures FieldsVerdict(v) == FirstFailure(FieldsTrace(v))
    decreases Size(v), 1
  {
    WalkIsFirstFailure(SubFields(v));
  }

  lemma {:induction false} WalkIsFirstFailure(fs: seq<Field>)
    ensures Walk(fs) == FirstFailure(WalkTrace(fs))
    decreases FieldsSize(fs), 0
  {
    if fs != [] {
      StepIsFirstFailure(fs[0]);
      WalkIsFirstFailure(fs[1..]);
      FirstFailureAppend(StepTrace(fs[0]), WalkTrace(fs[1..]));
    }
  }

  lemma {:induction false} StepIsFirstFailure(f: Field)
    ensures FieldStep(f) == FirstFailure(StepTrace(f))
    decreases Size(f.value), 4
  {
    var pre := if f.anonymous then FieldsTrace(f.value) else [];
    if f.anonymous {
      FieldsVerdictIsFirstFailure(f.value);
    }
    FieldVerdictIsFirstFailure(f.value, f.exported);
    FirstFailureAppend(pre, FieldTrace(f.value, f.exported));
  }

  lemma {:induction false} FieldVerdictIsFirstFailure(v: Value, exported: bool)
    ensures FieldVerdict(v, exported) == FirstFailure(FieldTrace(v, exported))
    decreases Size(v), 3
  {
    match Target(v, exported)
    case None =>
    case Some(w) => VerdictIsFirstFailure(w);
  }

  /** Fail-fast, first error wins: the result is nil exactly when every
      verdict of the traversal passes, and otherwise it is the first failing
      one, every verdict before it having passed. */
  lemma FirstErrorInTraversalOrder(v: FormValue)
    ensures Verdict(v).Ok? <==> forall i :: 0 <= i < |Trace(v)| ==> Trace(v)[i].Ok?
    ensures Verdict(v).Fail? ==>
      exists k :: 0 <= k < |Trace(v)| && Trace(v)[k] == Verdict(v) && forall j :: 0 <= j < k ==> Trace(v)[j].Ok?
  {
    VerdictIsFirstFailure(v);
  }

  // ---------------------------------------------------------------------
  // Ordering, container-last and skip rules.
  // ---------------------------------------------------------------------

  /** Fields are visited in declaration order and the walk stops at the
      first failing one: what follows it is never examined. */
  lemma {:induction false} WalkAppend(fs: seq<Field>, gs: seq<Field>)
    ensures Walk(fs + gs) == if Walk(fs).Fail? then Walk(fs) else Walk(gs)
    decreases |fs|
  {
    if fs == [] {
      assert fs + gs == gs;
    } else {
      assert (fs + gs)[0] == fs[0];
      assert (fs + gs)[1..] == fs[1..] + gs;
      WalkAppend(fs[1..], gs);
    }
  }

  /** The outcome of each field of `fs`, in declaration order. */
  function FieldOutcomes(fs: seq<Field>): (s: seq<Outcome>)
    ensures |s| == |fs| && forall i :: 0 <= i < |fs| ==> s[i] == FieldStep(fs[i])
  {
    seq(|fs|, i requires 0 <= i < |fs| => FieldStep(fs[i]))
  }

  /** The loop of `validateFields` returns the outcome of the first field
      that fails, and nil when no field fails. */
  lemma {:induction false} WalkIsFirstFailingField(fs: seq<Field>)
    ensures Walk(fs) == FirstFailure(FieldOutcomes(fs))
    decreases |fs|
  {
    if fs != [] {
      WalkIsFirstFailingField(fs[1..]);
      assert FieldOutcomes(fs) == [FieldStep(fs[0])] + FieldOutcomes(fs[1..]);
      FirstFailureAppend([FieldStep(fs[0])], FieldOutcomes(fs[1..]));
    }
  }

  /** The form's own verdict is consulted only when all of its fields pass:
      when a field fails, that error is returned unchanged whatever the
      form's own `Validate` would have said. */
  lemma ContainerLast(v: FormValue, own: Outcome)
    ensures FieldsVerdict(v).Fail? ==> Verdict(v) == FieldsVerdict(v)
    ensures FieldsVerdict(v).Fail? ==> Verdict(WithOwnVerdict(v, own)) == Verdict(v)
    ensures FieldsVerdict(v).Ok? ==> Verdict(v) == v.form.value
  {
  }

  /** The same value with a different `Validate` result of its own. */
  function WithOwnVerdict(v: FormValue, own: Outcome): (w: FormValue)
    ensures w.form == Some(own) && SubFields(w) == SubFields(v)
  {
    match v
    case Leaf(_) => Leaf(Some(own))
    case Ptr(e, _) => Ptr(e, Some(own))
    case Struct(fs, _) => Struct(fs, Some(own))
  }

  /** A form that is neither a struct nor a non-nil pointer to one (a
      `testField`, a nil pointer, a pointer to a pointer) runs only its own
      `Validate`. */
  lemma OnlyOwnVerdictWithoutStruct(v: FormValue)
    requires !v.Struct? && !(v.Ptr? && v.elem.Some? && v.elem.value.Struct?)
    ensures Trace(v) == [v.form.value]
    ensures Verdict(v) == v.form.value
  {
    assert SubFields(v) == [];
    assert FieldsTrace(v) == [];
    assert FieldsVerdict(v) == Walk([]) == Ok;
  }

  /** validateField yields nil, and the field's contents are never examined,
      for a nil pointer, for a value it cannot interface, and for a value
      that is not a `Form`. A field that is not embedded therefore adds
      nothing to the walk in those cases, even when it is a struct whose own
      fields are forms. */
  lemma SkipRules(f: Field)
    requires || (f.value.Ptr? && f.value.elem.None?)
             || !f.exported
             || (!f.value.Iface? && f.value.form.None?)
             || (f.value.Iface? && (f.value.held.None? || !IsForm(f.value.held.value)))
    ensures FieldVerdict(f.value, f.exported) == Ok
    ensures FieldTrace(f.value, f.exported) == []
    ensures !f.anonymous ==> FieldStep(f) == Ok && StepTrace(f) == []
  {
  }

  /** An embedded field is walked before it is checked itself, whether or
      not it is a `Form`. An embedded `Form` has its fields walked a second
      time inside `validate`, but, the verdicts being deterministic, the
      step's outcome is that of a single `validate` of it. */
  lemma EmbeddedFields(f: Field)
    requires f.anonymous
    ensures Target(f.value, f.exported).None? ==> FieldStep(f) == FieldsVerdict(f.value)
    ensures Target(f.value, f.exported).Some? ==> FieldStep(f) == Verdict(Target(f.value, f.exported).value)
    ensures f.value.Ptr? && f.value.elem.None? ==> FieldStep(f) == Ok
  {
    if f.value.Iface? {
      assert SubFields(f.value) == [];
      assert FieldsVerdict(f.value) == Walk([]) == Ok;
    }
  }

  /** An embedded field that is not itself handed to `validate` (a plain
      struct, or one reflection cannot interface) is walked exactly as if
      its fields were declared in its place. */
  lemma EmbeddedFlattened(pre: seq<Field>, f: Field, post: seq<Field>)
    requires f.anonymous && Target(f.value, f.exported).None?
    ensures Walk(pre + [f] + post) == Walk(pre + SubFields(f.value) + post)
  {
    var inner := SubFields(f.value);
    EmbeddedFields(f);
    assert Walk([f][1..]) == Ok;
    assert Walk([f]) == FieldStep(f);
    assert pre + [f] + post == pre + ([f] + post);
    assert pre + inner + post == pre + (inner + post);
    WalkAppend([f], post);
    WalkAppend(inner, post);
    WalkAppend(pre, [f] + post);
    WalkAppend(pre, inner + post);
  }

  // ---------------------------------------------------------------------
  // The upload ceiling.
  // ---------------------------------------------------------------------

  /** DefaultMaxUploadSize, `32 << 20` bytes. */
  const DefaultMaxUploadSize: int64 := ((32 as bv64) << 20) as int64

  lemma DefaultIs32MiB()
    ensures DefaultMaxUploadSize == 33554432
  {
  }

  /** The package variable `maxUploadSize` and its setter. */
  class UploadPolicy {
    var maxUploadSize: int64

    constructor ()
      ensures maxUploadSize == DefaultMaxUploadSize
    {
      maxUploadSize := DefaultMaxUploadSize;
    }

    method SetMaxUploadSize(size: int64)
      modifies this
      ensures maxUploadSize == size
    {
      maxUploadSize := size;
    }
  }

  // ---------------------------------------------------------------------
  // Decoding and dispatch.
  // ---------------------------------------------------------------------

  /** Parsed form values: key to values, as `url.Values` holds them. */
  type FormValues = map<string, seq<string>>

  /** The library calls the decode paths make. Decoding writes into the
      target through its pointer and cannot change its type, so a decoded
      form is still a `Form`; on an error the target is not used again. */
  datatype Decoders = Decoders(
    parseMediaType: MediaParser,
    // json.NewDecoder(req.Body).Decode(form)
    decodeJSON: (Request, FormValue) -> Result<FormValue>,
    // req.ParseForm(), then req.PostForm
    parseForm: Request -> Result<FormValues>,
    // req.ParseMultipartForm(n), then req.MultipartForm.Value
    parseMultipartForm: (Request, int64) -> Result<FormValues>,
    // the shared schema decoder: decoder.Decode(form, values)
    decodeSchema: (FormValue, FormValues) -> Result<FormValue>)

  /** What the decode step leaves: the decoded form or the first error. */
  function Decoded(parsed: Result<FormValues>, d: Decoders, form: FormValue): (r: Result<FormValue>)
  {
    match parsed
    case Failure(e) => Failure(e)
    case Success(values) => d.decodeSchema(form, values)
  }

  /** A decode error is returned as it is; otherwise the decoded form is validated. */
  function Checked(decoded: Result<FormValue>): (r: Outcome)
  {
    match decoded
    case Failure(e) => Fail(e)
    case Success(w) => Verdict(w)
  }

  /** ValidateJSON: a decode error is returned as it is; otherwise the
      decoded form is validated. */
  function JSONOutcome(d: Decoders, req: Request, form: FormValue): (r: Outcome)
    ensures d.decodeJSON(req, form).Failure? ==> r == Fail(d.decodeJSON(req, form).error)
    ensures d.decodeJSON(req, form).Success? ==> r == Verdict(d.decodeJSON(req, form).value)
  {
    Checked(d.decodeJSON(req, form))
  }

  /** ValidateForm: a ParseForm error, then a schema decode error, is
      returned as it is; otherwise the decoded form is validated. */
  function FormOutcome(d: Decoders, req: Request, form: FormValue): (r: Outcome)
    ensures d.parseForm(req).Failure? ==> r == Fail(d.parseForm(req).error)
    ensures d.parseForm(req).Success? ==>
      var dec := d.decodeSchema(form, d.parseForm(req).value);
      r == if dec.Failure? then Fail(dec.error) else Verdict(dec.value)
  {
    Checked(Decoded(d.parseForm(req), d, form))
  }

  /** ValidateMultipart with the ceiling `limit`: a parse error, then a
      schema decode error, is returned as it is; otherwise the decoded form
      is validated. */
  function MultipartOutcome(d: Decoders, req: Request, form: FormValue, limit: int64): (r: Outcome)
    ensures d.parseMultipartForm(req, limit).Failure? ==> r == Fail(d.parseMultipartForm(req, limit).error)
    ensures d.parseMultipartForm(req, limit).Success? ==>
      var dec := d.decodeSchema(form, d.parseMultipartForm(req, limit).value);
      r == if dec.Failure? then Fail(dec.error) else Verdict(dec.value)
  {
    Checked(Decoded(d.parseMultipartForm(req, limit), d, form))
  }

  /** The media type `Validate` dispatches on. "Content-Type" is already
      canonical, so `Header.Get` looks it up as spelled
      (`ContentTypeIsHeaderGet`). */
  function ContentType(req: Request): string
  {
    HeaderFirst(req.header, "Content-Type")
  }

  lemma ContentTypeIsHeaderGet(req: Request)
    ensures ContentType(req) == HeaderGet(req.header, "Content-Type")
  {
    assert CanonicalSpelled("e", false);
    assert CanonicalSpelled("pe", false);
    assert CanonicalSpelled("ype", false);
    assert CanonicalSpelled("Type", true);
    assert CanonicalSpelled("-Type", false);
    assert CanonicalSpelled("t-Type", false);
    assert CanonicalSpelled("nt-Type", false);
    assert CanonicalSpelled("ent-Type", false);
    assert CanonicalSpelled("tent-Type", false);
    assert CanonicalSpelled("ntent-Type", false);
    assert CanonicalSpelled("ontent-Type", false);
    HeaderGetSpelled(req.header, "Content-Type");
  }

  /** Validate's choice of path, with the ceiling the multipart path reads. */
  function Dispatched(d: Decoders, req: Request, form: FormValue, limit: int64): (r: Outcome)
    ensures d.parseMediaType(ContentType(req)).Failure? ==> r == Fail(d.parseMediaType(ContentType(req)).error)
    ensures d.parseMediaType(ContentType(req)).Success? ==>
      r == JSONOutcome(d, req, form) || r == MultipartOutcome(d, req, form, limit) || r == FormOutcome(d, req, form)
  {
    match d.parseMediaType(ContentType(req))
    case Failure(e) => Fail(e)
    case Success(m) =>
      if m.mediaType == "application/json" then JSONOutcome(d, req, form)
      else if m.mediaType == "multipart/form-data" then MultipartOutcome(d, req, form, limit)
      else FormOutcome(d, req, form)
  }

  /** On every path a parse or decode error is returned unchanged and no
      verdict of the form is consulted; otherwise the result is that of
      validating the decoded form. */
  lemma DecodeErrorShortCircuits(d: Decoders, req: Request, form: FormValue, limit: int64)
    ensures d.decodeJSON(req, form).Failure? ==> JSONOutcome(d, req, form) == Fail(d.decodeJSON(req, form).error)
    ensures d.decodeJSON(req, form).Success? ==> JSONOutcome(d, req, form) == Verdict(d.decodeJSON(req, form).value)
    ensures d.parseForm(req).Failure? ==> FormOutcome(d, req, form) == Fail(d.parseForm(req).error)
    ensures d.parseForm(req).Success? ==>
      var dec := d.decodeSchema(form, d.parseForm(req).value);
      FormOutcome(d, req, form) == if dec.Failure? then Fail(dec.error) else Verdict(dec.value)
    ensures d.parseMultipartForm(req, limit).Failure? ==>
      MultipartOutcome(d, req, form, limit) == Fail(d.parseMultipartForm(req, limit).error)
    ensures d.parseMultipartForm(req, limit).Success? ==>
      var dec := d.decodeSchema(form, d.parseMultipartForm(req, limit).value);
      MultipartOutcome(d, req, form, limit) == if dec.Failure? then Fail(dec.error) else Verdict(dec.value)
  {
  }

  /** If the media type does not parse, its error is the result and no
      decode path runs: the result is the same whatever the decoders do. */
  lemma MediaErrorStopsDispatch(d: Decoders, d': Decoders, req: Request, form: FormValue, limit: int64, limit': int64)
    requires d.parseMediaType(ContentType(req)).Failure?
    requires d'.parseMediaType(ContentType(req)) == d.parseMediaType(ContentType(req))
    ensures Dispatched(d, req, form, limit) == Fail(d.parseMediaType(ContentType(req)).error)
    ensures Dispatched(d', req, form, limit') == Dispatched(d, req, form, limit)
  {
  }

  /** `application/json` goes to the JSON path, `multipart/form-data` to the
      multipart path with the given ceiling, every other parsed type to the
      URL-encoded form path. */
  lemma DispatchRoutes(d: Decoders, req: Request, form: FormValue, limit: int64)
    requires d.parseMediaType(ContentType(req)).Success?
    ensures var media := d.parseMediaType(ContentType(req)).value.mediaType;
      && (media == "application/json" ==> Dispatched(d, req, form, limit) == JSONOutcome(d, req, form))
      && (media == "multipart/form-data" ==> Dispatched(d, req, form, limit) == MultipartOutcome(d, req, form, limit))
      && (media != "application/json" && media != "multipart/form-data" ==>
            Dispatched(d, req, form, limit) == FormOutcome(d, req, form))
  {
  }

  /** ValidateJSON. */
  method ValidateJSON(d: Decoders, req: Request, form: FormValue) returns (r: Outcome)
    ensures r == JSONOutcome(d, req, form)
  {
    var decoded := d.decodeJSON(req, form);
    if decoded.Failure? {
      return Fail(decoded.error);
    }
    r := ValidateValue(decoded.value);
  }

  /** ValidateForm. */
  method ValidateForm(d: Decoders, req: Request, form: FormValue) returns (r: Outcome)
    ensures r == FormOutcome(d, req, form)
  {
    var parsed := d.parseForm(req);
    if parsed.Failure? {
      return Fail(parsed.error);
    }
    var decoded := d.decodeSchema(form, parsed.value);
    if decoded.Failure? {
      return Fail(decoded.error);
    }
    r := ValidateValue(decoded.value);
  }

  /** ValidateMultipart: parses with the ceiling current at the call. */
  method ValidateMultipart(policy: UploadPolicy, d: Decoders, req: Request, form: FormValue) returns (r: Outcome)
    ensures r == MultipartOutcome(d, req, form, policy.maxUploadSize)
  {
    var parsed := d.parseMultipartForm(req, policy.maxUploadSize);
    if parsed.Failure? {
      return Fail(parsed.error);
    }
    var decoded := d.decodeSchema(form, parsed.value);
    if decoded.Failure? {
      return Fail(decoded.error);
    }
    r := ValidateValue(decoded.value);
  }

  /** Validate: parse the Content-Type, then pick the decode path. */
  method Validate(policy: UploadPolicy, d: Decoders, req: Request, form: FormValue) returns (r: Outcome)
    ensures r == Dispatched(d, req, form, policy.maxUploadSize)
  {
    var v := ContentType(req);
    var media := d.parseMediaType(v);
    if media.Failure? {
      return Fail(media.error);
    }
    if media.value.mediaType == "application/json" {
      r := ValidateJSON(d, req, form);
    } else if media.value.mediaType == "multipart/form-data" {
      r := ValidateMultipart(policy, d, req, form);
    } else {
      r := ValidateForm(d, req, form);
    }
  }

  /** Until a setter runs, multipart validation passes the default ceiling
      to the multipart parser. */
  method DefaultCeilingUsed(d: Decoders, req: Request, form: FormValue) returns (r: Outcome)
    ensures r == MultipartOutcome(d, req, form, DefaultMaxUploadSize)
  {
    var policy := new UploadPolicy();
    r := ValidateMultipart(policy, d, req, form);
  }

  /** After `SetMaxUploadSize(n)`, multipart validation passes exactly `n` to
      the multipart parser, and nothing else changes. */
  method SetCeilingThenValidate(policy: UploadPolicy, n: int64, d: Decoders, req: Request, form: FormValue)
    returns (r: Outcome)
    modifies policy
    ensures policy.maxUploadSize == n
    ensures r == MultipartOutcome(d, req, form, n)
  {
    policy.SetMaxUploadSize(n);
    r := ValidateMultipart(policy, d, req, form);
  }
}
