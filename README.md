# httpc in Dafny

A model of the request and response core of the Go package `httpc`
(pnelson/httpc), with proofs about it. It covers three areas.

- **Form validation** (`forms.dfy`, module `Forms`).
  - `Validate` dispatches on the request's Content-Type to the JSON,
    URL-encoded and multipart decode paths.
  - Each decoded form goes through the recursive check `validate`. That
    check walks struct fields depth first, flattens embedded fields, skips
    nil pointers, values reflection cannot interface, and non-forms, and
    asks the form itself last.
  - The multipart path reads the upload ceiling (`DefaultMaxUploadSize`,
    `SetMaxUploadSize`).
  - `forms_oracle.dfy` (module `FormsOracle`) rebuilds the shapes of the
    package's tests and proves what the validator concludes about them.
- **The request context** (`httpc.dfy`, module `Httpc`).
  - The response writer is observed as a log of header, status and body
    calls.
  - `RemoteAddr` falls back from X-Real-IP to X-Forwarded-For to the
    connection address.
  - The error slot is kept in the context's `context.Context` chain.
  - `SetCookie` applies its expiry rule before adding the header.
- **Rendering** (`render.dfy`, module `Render`).
  - Content negotiation over the Accept header.
  - The headers, status and body that `RenderHTML`, `RenderJSON`,
    `RenderPlain` and `Abort` write.
  - `Abort` is declared in httpc.go. It lives in this module because it is
    a call of `RenderPlain` on the context.

`common.dfy` (module `Common`) holds the shared vocabulary:
- Go's `error`, as `Outcome` and `Result`;
- the request fields that are read;
- `Header.Get`;
- the `int64` type, with explicit two's-complement wrap-around.

### How the model is built

A Go value seen through reflection is a finite tree (`Forms.Value`):
- leaves;
- pointers (possibly nil);
- structs with fields in declaration order;
- interface fields that hold a dynamic value.

Each node carries what its `Validate` method returns, or nothing when its
type is not a `Form`.

The validator is written twice:
- as mutually recursive functions (`Verdict`, `FieldsVerdict`, `Walk`,
  `FieldStep`, `FieldVerdict`);
- as the methods Go runs, with the field loop.

The methods are proved equal to the functions. The functions are then
proved equal to an independent reference: the first failure in the sequence
of verdicts the traversal consults (`Trace`).

The code calls libraries that are not part of this model. They appear as
function-valued fields of `Forms.Decoders` and `Render.Libs`, or as
parameters:
- `mime.ParseMediaType`;
- `encoding/json`;
- the gorilla/schema decoder;
- `ParseForm` and `ParseMultipartForm`;
- `net.SplitHostPort`;
- the template renderer;
- `StatusText`;
- `http.SetCookie`'s serialisation;
- the clock.

## Model

| member | source | states |
|---|---|---|
| `Forms.ValidateValue` | forms.go:43-51 | validate returns the first error of the fields walk, and otherwise the form's own `Validate` result; equal to `Verdict` |
| `Forms.ValidateFields` | forms.go:57-79 | validateFields dereferences one pointer level. A nil pointer or a non-struct yields nil. The loop over the fields returns the first failing field's error (embedded fields walked before being checked themselves). Equal to `FieldsVerdict` |
| `Forms.ValidateField` | forms.go:82-94 | validateField yields nil for a nil pointer, a value that cannot be interfaced, or a value that is not a `Form`, and otherwise validates the form; equal to `FieldVerdict` |
| `Forms.Verdict` | forms.go:43-51 | validate succeeds iff the fields walk and the form's own `Validate` both succeed; a failure is one of those two |
| `Forms.FieldsVerdict` | forms.go:57-79 | a value with no struct fields to walk (not a struct, nil pointer) yields nil |
| `Forms.Walk` | forms.go:63-76 | the field loop returns nil iff every field's step succeeds, one field after the other (`EveryStepPasses`) |
| `Forms.WalkPassesIffEveryStep` | forms.go:63-76 | the field loop returns nil iff the step of each field, at every index, succeeds |
| `Forms.FieldStep` | forms.go:66-75 | one field succeeds iff, when embedded, its own fields pass, and its `validateField` passes |
| `Forms.FieldVerdict` | forms.go:82-94 | a field with nothing to validate (nil pointer, not interfaceable, not a `Form`) yields nil; a failure is the failure of validating the held form |
| `Forms.EmbeddedFlattened` | forms.go:66-75 | an embedded field that is not itself validated is walked exactly as if its fields were written in its place, between the fields before and after it |
| `Forms.VerdictIsFirstFailure` | forms.go:43-94 | the result of `validate` is the first failing verdict of the depth-first, fields-before-container traversal (`Trace`), nil when none fails |
| `Forms.FirstErrorInTraversalOrder` | forms.go:43-94 | fail fast and first error wins. The result is nil iff every consulted verdict passes. Otherwise it is one of them, and every verdict before it passed |
| `Forms.WalkAppend` | forms.go:63-76 | fields are visited in declaration order; a failure in a prefix hides everything after it |
| `Forms.WalkIsFirstFailingField` | forms.go:63-76 | the field loop returns the outcome of the first failing field, nil when none fails |
| `Forms.ContainerLast` | forms.go:46-50 | the form's own `Validate` is consulted only when all fields pass; a field error is returned unchanged whatever the form itself would say |
| `Forms.OnlyOwnVerdictWithoutStruct` | forms.go:58-61 | a form that is neither a struct nor a non-nil pointer to one runs only its own `Validate` |
| `Forms.SkipRules` | forms.go:83-92 | nil pointers, non-interfaceable values and non-forms yield nil and consult nothing; a non-embedded such field adds nothing to the walk |
| `Forms.EmbeddedFields` | forms.go:66-75 | an embedded field's fields are walked as if at the outer level before the field itself is checked; a nil embedded pointer adds nothing |
| `Forms.DefaultIs32MiB` | forms.go:142 | the default upload ceiling is 32 << 20 = 33554432 bytes |
| `Forms.UploadPolicy.constructor` | forms.go:145 | the ceiling starts at the default |
| `Forms.UploadPolicy.SetMaxUploadSize` | forms.go:148-152 | the setter overwrites the ceiling with its argument |
| `Forms.DecodeErrorShortCircuits` | forms.go:103-167 | on each of the three decode paths, a parse or decode error is returned unchanged. Otherwise the result is that of validating the decoded form |
| `Forms.MediaErrorStopsDispatch` | forms.go:21-25 | a Content-Type that does not parse yields its parse error, whatever the decoders and the ceiling |
| `Forms.DispatchRoutes` | forms.go:26-32 | `application/json` takes the JSON path, `multipart/form-data` the multipart path, and every other parsed type the URL-encoded path |
| `Forms.JSONOutcome` | forms.go:125-132 | ValidateJSON as a value: a JSON decode error is returned unchanged; otherwise the result is the verdict on the decoded form |
| `Forms.FormOutcome` | forms.go:103-113 | ValidateForm as a value: a `ParseForm` error, then a schema decode error, is returned unchanged; otherwise the result is the verdict on the decoded form |
| `Forms.MultipartOutcome` | forms.go:157-167 | ValidateMultipart at a given ceiling as a value: a `ParseMultipartForm` error, then a schema decode error, is returned unchanged; otherwise the result is the verdict on the decoded form |
| `Forms.ValidateJSON` | forms.go:125-132 | decode the body as JSON, then validate; equal to `JSONOutcome` |
| `Forms.ValidateForm` | forms.go:103-113 | parse the form, schema-decode the POST values, then validate; equal to `FormOutcome` |
| `Forms.ValidateMultipart` | forms.go:157-167 | parse with the ceiling current at the call, schema-decode the multipart values, then validate; equal to `MultipartOutcome` at the current ceiling |
| `Forms.ContentTypeIsHeaderGet` | forms.go:21 | the media type `Validate` parses is `Header.Get("Content-Type")` |
| `Forms.Dispatched` | forms.go:20-33 | an unparsable Content-Type yields its parse error; otherwise the result is that of the JSON, multipart or URL-encoded path |
| `Forms.Validate` | forms.go:20-33 | the dispatch as a method, equal to `Dispatched` at the current ceiling |
| `Forms.DefaultCeilingUsed` | forms.go:142-145 | with no setter call, the multipart parser is handed `DefaultMaxUploadSize` |
| `Forms.SetCeilingThenValidate` | forms.go:148-158 | after `SetMaxUploadSize(n)` the multipart parser is handed exactly `n` |
| `FormsOracle.ValidateTestForm` | forms_test.go:11-43 | `validate` on an already-decoded `*testForm` gives these checks in order, returning the first that fails: `Bar`, then inside the embedded struct `Qux` and then `Baz`, then `Foo` |
| `FormsOracle.FirstErrorPassesIffAllAtLeastOne` | forms_test.go:17-43 | that order yields nil iff every checked count is at least 1 |
| `FormsOracle.EmbeddedStep` | forms_test.go:34-44 | the embedded `*testEmbedded` field's step checks `Qux` and then, when the field can be interfaced, `Baz` |
| `FormsOracle.EmbeddedErrorPassesIffAtLeastOne` | forms_test.go:34-44 | inside the embedded struct, that order yields nil iff every checked count is at least 1 |
| `FormsOracle.TestFormOracle` | forms_test.go:11-43 | `validate` accepts an already-decoded test form iff every `foo`, `bar` and checked `baz` is at least 1, nested forms included |
| `FormsOracle.TopLevelRows` | forms_test.go:50-53 | already decoded, with the embedded field interfaceable: the "valid" shape passes, and "invalid", "field invalid" and "embedded invalid" fail with the error of `Foo`, `Bar` and `Baz` |
| `FormsOracle.NestedValid` | forms_test.go:54 | the "nested valid" shape, already decoded, passes |
| `FormsOracle.NestedInvalid` | forms_test.go:55 | the "nested invalid" shape fails with the nested form's `Foo` error |
| `FormsOracle.NestedFieldInvalid` | forms_test.go:56 | the "nested field invalid" shape fails with the nested form's `Bar` error |
| `FormsOracle.NestedEmbeddedInvalid` | forms_test.go:57 | the "nested embedded invalid" shape fails with the nested embedded struct's `Baz` error |
| `FormsOracle.TestValidateJSONRows` | forms_test.go:50-57 | for the shapes of the eight rows, already decoded, with the embedded field interfaceable: `validate` passes exactly the "valid" and "nested valid" shapes, and each other shape fails with the error its field produces. What JSON decoding does with these rows is not covered |
| `FormsOracle.UninterfaceableEmbeddingSkipsBaz` | forms.go:86-88 | when reflection cannot interface the embedded field, `Baz` is never checked and `validate` passes the already-decoded "embedded invalid" shape |
| `FormsOracle.AbsentEmbeddingSkipped` | forms.go:83-85 | a nil embedded pointer is skipped: only `foo` and `bar` decide |
| `Httpc.Context.constructor` | httpc.go:32-38 | a new context holds the given parent context, writer and request |
| `Common.CanonicalKey` | httpc.go:65-67 | `Header.Get` canonicalises its key: same length, and a key with a character outside the token set is left unchanged |
| `Common.CanonicalFromLength` | httpc.go:65-67 | canonicalising keeps the key's length |
| `Common.CanonicalFromTokens` | httpc.go:65-67 | a key of token characters stays one after canonicalising |
| `Common.CanonicalFromKeepsHyphens` | httpc.go:65-67 | canonicalising leaves every '-' in place and makes no other character a '-' |
| `Common.CanonicalFromLetters` | httpc.go:65-67 | character by character, the first letter of each word (the first character, and every one after '-') is upper-cased and every other letter lower-cased; other characters are kept |
| `Common.CanonicalKeyLetters` | httpc.go:65-67 | on a key made only of token characters, the canonical key has the first letter and each letter after '-' in upper case and all other letters in lower case |
| `Common.CanonicalKeyIdempotent` | httpc.go:65-67 | canonicalising a canonical key changes nothing |
| `Common.RealIPKey` | httpc.go:65 | the key "X-Real-IP" is looked up as "X-Real-Ip" |
| `Common.HeaderGet` | httpc.go:65-67 | `Header.Get` returns the first value stored under the canonical key, "" when there is none |
| `Common.HeaderGetCanonical` | httpc.go:65-67 | looking a key up by its canonical spelling gives the same answer |
| `Common.CanonicalSpelledFixed` | httpc.go:65-67 | a key already spelled canonically (token characters only, each word capitalised) is its own canonical form |
| `Common.HeaderGetSpelled` | httpc.go:65-67 | `Header.Get` with a canonically spelled key reads the map under that exact key |
| `Httpc.Context.RemoteAddr` | httpc.go:64-78 | a non-empty X-Real-IP is returned. Without it, a non-empty X-Forwarded-For is returned whole, with no splitting on commas. With neither, the host part of the connection address, or the address unchanged when it cannot be split |
| `Httpc.RealIPWins` | httpc.go:65-66 | a non-empty X-Real-IP is the answer, whatever X-Forwarded-For and the connection address say |
| `Httpc.RealIPCanonicalSpelling` | httpc.go:65-66 | a request whose header map holds "X-Real-Ip", as Go's parser stores it, answers from that entry |
| `Httpc.Lookup` | httpc.go:93-104 | `Value(key)` along any chain, including one that returns to the enclosing Context: a value context holding `key` answers at once, and on a chain that never returns to the Context the walk always ends with `Find`'s answer |
| `Httpc.SetErrorOn` | httpc.go:102-104 | (corrected, see ## Findings) the context after `SetError` reads back `err` as its error; every other key resolves as before |
| `Httpc.Context.SetError` | httpc.go:102-104 | (corrected, see ## Findings) `Error()` returns the error just set; every other value of the context is unchanged; the chain still never refers to the Context itself |
| `Httpc.CorrectedLookupsEnd` | httpc.go:102-104 | (corrected, see ## Findings) after the corrected `SetError`, every lookup ends, whatever the enclosing Context holds: the error key answers the stored value, every other key what it answered before |
| `Httpc.ErrorOf` | httpc.go:93-99 | `ctx.Value(keyError).(error)` is non-nil exactly when an `error` is stored under the key, and is that error |
| `Httpc.Context.Error` | httpc.go:93-99 | `Error()` is non-nil exactly when the context's value under the package's key is an `error`, and is that error |
| `Httpc.NoErrorStored` | httpc.go:93-99 | with no `error` stored under the package's key (absent or nil), `Error()` is nil |
| `Httpc.LastSetErrorWins` | httpc.go:93-104 | (corrected, see ## Findings) with two `SetError` calls the second wins, and the other keys are untouched |
| `Httpc.SetErrorAsWritten` | httpc.go:102-104 | the code as written makes the Context itself the new value context's parent |
| `Httpc.AsWrittenErrorReadable` | httpc.go:93-104 | in the code as written the stored error is still read back |
| `Httpc.AsWrittenOtherKeysNeverResolve` | httpc.go:102-104 | in the code as written, a lookup of any other key loops back to the Context for ever |
| `Httpc.Expiry` | httpc.go:84-88 | MaxAge <= 0 gives Unix time 1; a positive MaxAge puts Expires within an int64 duration of now |
| `Httpc.ExpiryRule` | httpc.go:84-88 | when MaxAge <= 0, Expires is Unix time 1. When MaxAge > 0, Expires is now plus MaxAge seconds: exact up to the int64 duration bound, and congruent modulo 2^64 beyond it |
| `Httpc.ExpiryWrapsPastBound` | httpc.go:85 | one second past the int64 bound, the wrapped duration puts Expires before now |
| `Httpc.Context.SetCookie` | httpc.go:83-90 | Expires is set in place by the rule; the other fields are untouched. Exactly one Set-Cookie header is added unless the cookie serialises to "" |
| `Render.Split` | render.go:23 | the Accept pieces: at least one, none containing a comma, and joined with commas they give the header back |
| `Render.SplitJoin` | render.go:23 | splitting undoes joining comma-free pieces |
| `Render.Decide` | render.go:24-41 | one entry ends the scan with a parse error, HTML, JSON or plain text, or lets it go on. HTML only with a renderer set and a template view |
| `Render.Select` | render.go:23-43 | the scan chooses HTML only with a renderer set and a template view |
| `Render.SelectIsFirstDeciding` | render.go:23-43 | the scan results in the first deciding entry's choice, every entry before it deciding nothing, and in 406 exactly when no entry decides |
| `Render.Negotiated` | render.go:19-43 | an empty Accept chooses JSON; HTML is chosen only with a renderer and a template view |
| `Render.NegotiatedNotAcceptable` | render.go:19-43 | a non-empty Accept gives 406 exactly when none of its comma-separated entries decides |
| `Render.AcceptIsHeaderGet` | render.go:19 | the Accept value the negotiation reads is `Header.Get("Accept")` |
| `Render.EmptyAccept` | render.go:19-22 | an empty Accept renders JSON without parsing anything |
| `Render.FirstDecidingEntryWins` | render.go:23-42 | entries after the first deciding one never matter |
| `Render.ParseErrorEndsScan` | render.go:24-27 | a malformed entry reached by the scan makes its parse error the result |
| `Render.ParametersIgnored` | render.go:24-28 | entries with the same bare media type decide alike, whatever their parameters (`q`, ...) |
| `Render.HTMLEntry` | render.go:29-36 | `text/html` or `text/*` selects HTML iff a renderer is set and the view is a template; otherwise the entry is skipped |
| `Render.OtherEntries` | render.go:37-41 | `application/json`, `application/*` and `*/*` select JSON; `text/plain` selects plain text; other types are skipped |
| `Render.JSONReply` | render.go:79-91 | a marshal error writes nothing and is returned. Otherwise: Content-Type JSON, then the status, then the bytes unless the view is nil (nil then returns nil) |
| `Render.HTMLReply` | render.go:64-76 | the same pattern for the renderer's output with the HTML Content-Type |
| `Render.PlainReply` | render.go:94-104 | a non-string view is an error before anything is written. A string is written as plain text with `nosniff`, then the status, then the string and a newline |
| `Render.AbortReply` | httpc.go:41-43 | `Abort(code)` writes the status text as plain text with that status, and returns what the write returns |
| `Render.RenderReply` | render.go:24-43 | a parse error is returned with nothing written; no match writes `Abort(406)` |
| `Render.NoMatchAborts406` | render.go:43 | when no entry decides, the reply is `Abort(406)` |
| `Render.FailureBeforeWriting` | render.go:64-104 | when writes succeed, a render fails iff it wrote nothing: every error comes before the first header |
| `Render.RenderContent` | render.go:64-91 | the write pattern the HTML and JSON renderers share: the writer's log grows by exactly `ContentReply`'s effects, and the method returns its result |
| `Render.RenderJSON` | render.go:79-91 | the writer's log grows by exactly `JSONReply`'s effects; the method returns its result |
| `Render.RenderHTML` | render.go:64-76 | the writer's log grows by exactly `HTMLReply`'s effects |
| `Render.RenderPlain` | render.go:94-104 | the writer's log grows by exactly `PlainReply`'s effects |
| `Render.Abort` | httpc.go:41-43 | the writer's log grows by exactly `AbortReply`'s effects |
| `Render.Render` | render.go:18-44 | the loop over Accept entries writes exactly the reply of the negotiated choice, and returns its result |

## Left out

- Reflection mechanics are replaced by the `Value` tree. Cyclic values, which the Go walk does not detect, cannot be built.
- Whether an embedded field whose type name is unexported can be interfaced is a property of Go's reflect package, which is not part of this model. The oracle takes that answer as a parameter and proves both cases.
- The oracle lemmas are about `validate` on values already decoded. JSON decoding is the abstract `decodeJSON`. Under current Go, encoding/json refuses to allocate a nil embedded pointer to an unexported struct type such as `*testEmbedded`, so `ValidateJSON` returns a decode error for the test rows before `validate` runs. The model does not capture this.
- Panics are not modelled: a `Validate` method called on a nil receiver, or rendering HTML before any renderer is set.
- `Render.RenderHTML`: requires a renderer to be set, because the code calls it unconditionally and panics on a nil one.
- `defer req.Body.Close()` in `ValidateJSON` is resource handling; bodies are not modelled as streams.
- The mutex guarding `maxUploadSize` and `renderer` is concurrency. The ceiling is a plain field. `ValidateMultipart` reads it without taking the lock, and the model claims no locked read.
- `SetRenderer` is not modelled as an operation: the renderer is the `renderer` field of `Render.Libs`, `None` when unset.
- The foreign libraries are uninterpreted function parameters. These are `mime.ParseMediaType` (including its whitespace trimming and lower-casing, and what it does with an empty Content-Type), JSON decoding and marshalling, the schema decoder and its cache, `ParseForm`, `ParseMultipartForm`, `net.SplitHostPort`, the template renderer, `StatusText`, and `http.SetCookie`'s serialisation and validity rules.
- `Httpc.Cookie.maxAge` is an `int64`: Go's `int`, the type of `http.Cookie.MaxAge`, is taken to be 64 bits wide. With a 32-bit `int`, MaxAge seconds always fit in an int64 `Duration`, and the wrap-around `Httpc.ExpiryWrapsPastBound` shows cannot happen.
- `time.Now` is a parameter, and times are Unix nanoseconds. The wall/monotonic split of `time.Time` is not modelled.
- `Httpc.ResponseWriter.WriteBody`: every `Write` on one connection returns the same outcome, and byte counts are not modelled.
- `Header.Get` canonicalises its key (`Common.CanonicalKey`), but the header map itself is taken as given. The writes recorded by `Header().Set` and `Header().Add` keep the key as the caller spelled it; their canonicalisation is not modelled.
- Of `context.Context`, only `Value` is modelled. Deadlines, cancellation, `Done` and `Err` are left out. Contexts made elsewhere appear as a fixed key/value map (`Root`).
- The `Context` forwarding wrappers (`Context.Validate`, `ValidateForm`, `ValidateJSON`, `ValidateMultipart`) are one-line calls of the modelled functions. `NoContent`, `Redirect` and `RedirectTo` are plumbing over `net/http`. mux.go is routing plumbing. The source of `StatusText` is not part of this model.
- Views are the nil interface, strings and opaque other values. Whether a view implements `tmpl.Viewable` is a parameter (never for nil).

## Findings

| source | as written | input that shows it | evidently intended | confidence | as-written member | corrected member |
|---|---|---|---|---|---|---|
| httpc.go:103 | `SetError` builds the new value context over the `*Context` itself, and then makes that value context the `*Context`'s own `Context` field, so the chain refers back to itself | after `SetError(e)`, any `Value(k)` with `k` other than the package's error key, such as a key a middleware stored, returns to the same value context for ever. Go's `value` helper loops or recurses until the stack overflows. `Deadline`, `Done` and `Err` are forwarded the same way | build the value context over the previous `Context` field, so that earlier values stay reachable | high for `Value`; not executed | `Httpc.AsWrittenOtherKeysNeverResolve` (over `Httpc.SetErrorAsWritten`) | `Httpc.Context.SetError` (over `Httpc.SetErrorOn`) |

The error key itself still resolves in the code as written
(`Httpc.AsWrittenErrorReadable`). That is why `Error()` after `SetError`
behaves as documented.
