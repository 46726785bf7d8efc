/** The renderers of render.go and `Abort` of httpc.go: content negotiation
    over the Accept header, and the headers, status and body each renderer
    writes through the Context's response writer. */
module Render {
  import opened Common
  import opened Httpc

  /** A `Viewable`: the nil interface, a Go `string`, or any other value. */
  datatype View = NilView | StringView(s: string) | OtherView(id: nat)

  /** Library code render.go calls and that is not part of this model:
      `mime.ParseMediaType`, `json.Marshal`, the package's `renderer` (nil
      until `SetRenderer`), whether a view implements `tmpl.Viewable`, and
      `StatusText`. */
  datatype Libs = Libs(
    parseMediaType: MediaParser,
    marshal: View -> Result<string>,
    renderer: Option<View -> Result<string>>,
    isTemplate: View -> bool,
    statusText: int -> string)

  const HTMLType := "text/html; charset=utf-8"
  const JSONType := "application/json; charset=utf-8"
  const PlainType := "text/plain; charset=utf-8"
  const StatusNotAcceptable := 406
  const PlainViewError := Error("httpc: view for RenderPlain must be a string")

  /** `view.(tmpl.Viewable)` succeeds: never for a nil interface. */
  predicate AsTemplate(view: View, lib: Libs)
  {
    view != NilView && lib.isTemplate(view)
  }

  // ---------------------------------------------------------------------
  // strings.Split on a one-character separator.
  // ---------------------------------------------------------------------

  function Join(parts: seq<string>, sep: char): (s: string)
    requires |parts| >= 1
    decreases |parts|
  {
    if |parts| == 1 then parts[0] else parts[0] + [sep] + Join(parts[1..], sep)
  }

  /** `strings.Split(s, sep)`: the pieces between separators, at least one,
      none holding the separator, and joined back they give `s`. */
  function Split(s: string, sep: char): (parts: seq<string>)
    ensures |parts| >= 1
    ensures forall i :: 0 <= i < |parts| ==> sep !in parts[i]
    ensures Join(parts, sep) == s
    decreases |s|
  {
    if |s| == 0 then [""]
    else
      var rest := Split(s[1..], sep);
      if s[0] == sep then
        assert [sep] + s[1..] == s;
        [""] + rest
      else
        var parts := [[s[0]] + rest[0]] + rest[1..];
        assert parts[1..] == rest[1..];
        assert Join(parts, sep) == [s[0]] + Join(rest, sep);
        parts
  }

  lemma {:induction false} SplitPrefix(w: string, s: string, sep: char)
    requires sep !in w
    ensures Split(w + s, sep) == [w + Split(s, sep)[0]] + Split(s, sep)[1..]
    decreases |w|
  {
    if |w| > 0 {
      assert (w + s)[1..] == w[1..] + s;
      SplitPrefix(w[1..], s, sep);
      assert [w[0]] + (w[1..] + Split(s, sep)[0]) == w + Split(s, sep)[0];
    } else {
      assert w + s == s;
      assert w + Split(s, sep)[0] == Split(s, sep)[0];
      assert Split(s, sep) == [Split(s, sep)[0]] + Split(s, sep)[1..];
    }
  }

  /** Splitting undoes joining pieces that hold no separator. */
  lemma {:induction false} SplitJoin(parts: seq<string>, sep: char)
    requires |parts| >= 1
    requires forall i :: 0 <= i < |parts| ==> sep !in parts[i]
    ensures Split(Join(parts, sep), sep) == parts
    decreases |parts|
  {
    if |parts| == 1 {
      SplitPrefix(parts[0], "", sep);
      assert parts[0] + "" == parts[0];
    } else {
      var tail := Join(parts[1..], sep);
      SplitJoin(parts[1..], sep);
      assert ([sep] + tail)[1..] == tail;
      assert Split([sep] + tail, sep) == [""] + parts[1..];
      assert parts[0] + [sep] + tail == parts[0] + ([sep] + tail);
      SplitPrefix(parts[0], [sep] + tail, sep);
      assert parts[0] + "" == parts[0];
      assert [parts[0]] + parts[1..] == parts;
    }
  }

  // ---------------------------------------------------------------------
  // Negotiation.
  // ---------------------------------------------------------------------

  /** What Render ends in. */
  datatype Choice = RenderedHTML | RenderedJSON | RenderedPlain | ParseFailed(err: Error) | NotAcceptable

  predicate IsHTMLType(media: string) { media == "text/html" || media == "text/*" }
  predicate IsJSONType(media: string) { media == "application/json" || media == "application/*" || media == "*/*" }

  /** What one Accept entry decides, `None` when the scan goes on. */
  function Decide(entry: string, lib: Libs, view: View): (d: Option<Choice>)
    ensures d.Some? ==> !d.value.NotAcceptable?
    ensures d == Some(RenderedHTML) ==> lib.renderer.Some? && AsTemplate(view, lib)
  {
    match lib.parseMediaType(entry)
    case Failure(e) => Some(ParseFailed(e))
    case Success(m) =>
      if IsHTMLType(m.mediaType) then
        if lib.renderer.Some? && AsTemplate(view, lib) then Some(RenderedHTML) else None
      else if IsJSONType(m.mediaType) then Some(RenderedJSON)
      else if m.mediaType == "text/plain" then Some(RenderedPlain)
      else None
  }

  /** The scan: the first entry that decides, `NotAcceptable` when none does. */
  function Select(entries: seq<string>, lib: Libs, view: View): (c: Choice)
    ensures c == RenderedHTML ==> lib.renderer.Some? && AsTemplate(view, lib)
    decreases |entries|
  {
    if |entries| == 0 then NotAcceptable
    else
      match Decide(entries[0], lib, view)
      case Some(c) => c
      case None => Select(entries[1..], lib, view)
  }

  /** The scan results in the first deciding entry's choice, and in
      `NotAcceptable` exactly when no entry decides. */
  lemma {:induction false} SelectIsFirstDeciding(entries: seq<string>, lib: Libs, view: View)
    ensures Select(entries, lib, view).NotAcceptable? <==>
      forall k :: 0 <= k < |entries| ==> Decide(entries[k], lib, view).None?
    ensures !Select(entries, lib, view).NotAcceptable? ==>
      exists k :: 0 <= k < |entries| && Decide(entries[k], lib, view) == Some(Select(entries, lib, view))
        && forall j :: 0 <= j < k ==> Decide(entries[j], lib, view).None?
    decreases |entries|
  {
    if |entries| > 0 && Decide(entries[0], lib, view).None? {
      var c, tail := Select(entries, lib, view), entries[1..];
      SelectIsFirstDeciding(tail, lib, view);
      assert forall k :: 1 <= k < |entries| ==> entries[k] == tail[k - 1];
      if !c.NotAcceptable? {
        var k :| 0 <= k < |tail| && Decide(tail[k], lib, view) == Some(c)
          && forall j :: 0 <= j < k ==> Decide(tail[j], lib, view).None?;
        assert Decide(entries[k + 1], lib, view) == Some(c);
      }
    }
  }

  /** The scan at entry `i`: that entry's decision, or the rest of the scan. */
  lemma SelectAt(entries: seq<string>, i: nat, lib: Libs, view: View)
    requires i < |entries|
    ensures Select(entries[i..], lib, view)
            == if Decide(entries[i], lib, view).Some? then Decide(entries[i], lib, view).value
               else Select(entries[i + 1..], lib, view)
  {
    assert entries[i..][0] == entries[i] && entries[i..][1..] == entries[i + 1..];
  }

  /** Render's choice for an Accept header value. */
  function Negotiated(accept: string, lib: Libs, view: View): (c: Choice)
    ensures accept == "" ==> c == RenderedJSON
    ensures c == RenderedHTML ==> lib.renderer.Some? && AsTemplate(view, lib)
  {
    if accept == "" then RenderedJSON else Select(Split(accept, ','), lib, view)
  }

  /** A non-empty Accept header is refused exactly when none of its entries
      decides. */
  lemma NegotiatedNotAcceptable(accept: string, lib: Libs, view: View)
    requires accept != ""
    ensures Negotiated(accept, lib, view).NotAcceptable? ==>
      forall k :: 0 <= k < |Split(accept, ',')| ==> Decide(Split(accept, ',')[k], lib, view).None?
    ensures (forall k :: 0 <= k < |Split(accept, ',')| ==> Decide(Split(accept, ',')[k], lib, view).None?) ==>
      Negotiated(accept, lib, view).NotAcceptable?
  {
    var entries, c := Split(accept, ','), Negotiated(accept, lib, view);
    assert c == Select(entries, lib, view);
    SelectIsFirstDeciding(entries, lib, view);
    if !c.NotAcceptable? {
      var k :| 0 <= k < |entries| && Decide(entries[k], lib, view) == Some(c)
        && forall j :: 0 <= j < k ==> Decide(entries[j], lib, view).None?;
      assert Decide(entries[k], lib, view).Some?;
    }
  }

  /** An empty Accept header renders JSON without parsing anything. */
  lemma EmptyAccept(lib: Libs, lib': Libs, view: View)
    ensures Negotiated("", lib, view) == Negotiated("", lib', view) == RenderedJSON
  {
  }

  /** The scan ends at the first entry that decides anything, whatever the
      entries after it. */
  lemma {:induction false} FirstDecidingEntryWins(skipped: seq<string>, entry: string, rest: seq<string>, lib: Libs, view: View)
    requires forall j :: 0 <= j < |skipped| ==> Decide(skipped[j], lib, view).None?
    requires Decide(entry, lib, view).Some?
    ensures Select(skipped + [entry] + rest, lib, view) == Decide(entry, lib, view).value
    decreases |skipped|
  {
    var all := skipped + [entry] + rest;
    if |skipped| == 0 {
      assert all[0] == entry;
    } else {
      assert all[0] == skipped[0];
      assert all[1..] == skipped[1..] + [entry] + rest;
      FirstDecidingEntryWins(skipped[1..], entry, rest, lib, view);
    }
  }

  /** In particular a malformed entry reached by the scan is its result. */
  lemma ParseErrorEndsScan(skipped: seq<string>, entry: string, rest: seq<string>, lib: Libs, view: View)
    requires forall j :: 0 <= j < |skipped| ==> Decide(skipped[j], lib, view).None?
    requires lib.parseMediaType(entry).Failure?
    ensures Select(skipped + [entry] + rest, lib, view) == ParseFailed(lib.parseMediaType(entry).error)
  {
    FirstDecidingEntryWins(skipped, entry, rest, lib, view);
  }

  /** Only the bare media type matters: `q` and other parameters are ignored. */
  lemma ParametersIgnored(a: string, b: string, lib: Libs, view: View)
    requires lib.parseMediaType(a).Success? && lib.parseMediaType(b).Success?
    requires lib.parseMediaType(a).value.mediaType == lib.parseMediaType(b).value.mediaType
    ensures Decide(a, lib, view) == Decide(b, lib, view)
  {
  }

  /** HTML is chosen for an HTML media type (IsHTMLType) exactly when a renderer is
      set and the view is a template; otherwise those entries are skipped. */
  lemma HTMLEntry(entry: string, lib: Libs, view: View)
    requires lib.parseMediaType(entry).Success? && IsHTMLType(lib.parseMediaType(entry).value.mediaType)
    ensures Decide(entry, lib, view) == Some(RenderedHTML) <==> lib.renderer.Some? && AsTemplate(view, lib)
    ensures Decide(entry, lib, view) != Some(RenderedHTML) ==> Decide(entry, lib, view).None?
  {
  }

  /** The other media types the switch names, and the skipped rest. */
  lemma OtherEntries(entry: string, lib: Libs, view: View)
    requires lib.parseMediaType(entry).Success?
    ensures IsJSONType(lib.parseMediaType(entry).value.mediaType) ==> Decide(entry, lib, view) == Some(RenderedJSON)
    ensures lib.parseMediaType(entry).value.mediaType == "text/plain" ==> Decide(entry, lib, view) == Some(RenderedPlain)
    ensures var media := lib.parseMediaType(entry).value.mediaType;
      !IsHTMLType(media) && !IsJSONType(media) && media != "text/plain" ==> Decide(entry, lib, view).None?
  {
  }

  // ---------------------------------------------------------------------
  // What each renderer writes.
  // ---------------------------------------------------------------------

  /** The effects a renderer has on the response and the error it returns. */
  datatype Reply = Reply(effects: seq<Effect>, result: Outcome)

  /** A response as the renderers write it: headers, then one status line,
      then the body writes. */
  predicate Response(es: seq<Effect>)
    decreases |es|
  {
    && |es| > 0
    && (|| (es[0].SetHeader? && Response(es[1..]))
        || (es[0].WriteHeader? && forall i :: 1 <= i < |es| ==> es[i].Write?))
  }

  /** The status written, if any. */
  function Status(es: seq<Effect>): (st: Option<int>)
    decreases |es|
  {
    if |es| == 0 then None
    else if es[0].WriteHeader? then Some(es[0].code)
    else Status(es[1..])
  }

  /** The bytes written, in order. */
  function Body(es: seq<Effect>): (b: string)
    decreases |es|
  {
    if |es| == 0 then "" else (if es[0].Write? then es[0].data else "") + Body(es[1..])
  }

  /** The value a header ends up with through `Header().Set`. */
  function HeaderSet(es: seq<Effect>, key: string): (v: Option<string>)
    decreases |es|
  {
    if |es| == 0 then None
    else
      var later := HeaderSet(es[1..], key);
      if later.Some? then later
      else if es[0].SetHeader? && es[0].key == key then Some(es[0].value)
      else None
  }

  /** How each observation reads one more effect at the front. */
  lemma ObserveCons(e: Effect, rest: seq<Effect>)
    ensures Status([e] + rest) == if e.WriteHeader? then Some(e.code) else Status(rest)
    ensures Body([e] + rest) == (if e.Write? then e.data else "") + Body(rest)
    ensures forall key :: HeaderSet([e] + rest, key) ==
                          (if HeaderSet(rest, key).Some? then HeaderSet(rest, key)
                           else if e.SetHeader? && e.key == key then Some(e.value) else None)
    ensures Response([e] + rest) <==>
      || (e.SetHeader? && Response(rest))
      || (e.WriteHeader? && forall i :: 0 <= i < |rest| ==> rest[i].Write?)
  {
    var es := [e] + rest;
    assert es[1..] == rest;
    assert forall i :: 1 <= i < |es| ==> es[i] == rest[i - 1];
  }

  /** The response written by a renderer that produced `b` successfully:
      one Content-Type, then `code`, then `b` unless the view is nil. */
  predicate WroteContent(rep: Reply, contentType: string, code: int, body: string, wr: Outcome, nilView: bool)
  {
    && Response(rep.effects)
    && HeaderSet(rep.effects, "Content-Type") == Some(contentType)
    && Status(rep.effects) == Some(code)
    && Body(rep.effects) == (if nilView then "" else body)
    && rep.result == (if nilView then Ok else wr)
  }

  /** The shared shape of RenderJSON and RenderHTML once `b` is produced;
      `wr` is what `Write` on the connection returns. */
  function ContentReply(produced: Result<string>, contentType: string, view: View, code: int, wr: Outcome): (rep: Reply)
    ensures produced.Failure? ==> rep == Reply([], Fail(produced.error))
    ensures produced.Success? ==> WroteContent(rep, contentType, code, produced.value, wr, view == NilView)
  {
    match produced
    case Failure(e) => Reply([], Fail(e))
    case Success(b) =>
      var tail := if view == NilView then [] else [Write(b)];
      var es := [SetHeader("Content-Type", contentType)] + ([WriteHeader(code)] + tail);
      ObserveCons(WriteHeader(code), tail);
      ObserveCons(SetHeader("Content-Type", contentType), [WriteHeader(code)] + tail);
      if view == NilView then
        Reply(es, Ok)
      else
        ObserveCons(Write(b), []);
        assert [Write(b)] + [] == tail;
        assert b + "" == b;
        Reply(es, wr)
  }

  /** RenderJSON: the marshalled view; `wr` is what `Write` returns. */
  function JSONReply(view: View, code: int, lib: Libs, wr: Outcome): (rep: Reply)
    ensures lib.marshal(view).Failure? ==> rep == Reply([], Fail(lib.marshal(view).error))
    ensures lib.marshal(view).Success? ==>
      WroteContent(rep, JSONType, code, lib.marshal(view).value, wr, view == NilView)
  {
    ContentReply(lib.marshal(view), JSONType, view, code, wr)
  }

  /** RenderHTML: the rendered template; `wr` is what `Write` returns. */
  function HTMLReply(view: View, code: int, lib: Libs, wr: Outcome): (rep: Reply)
    requires lib.renderer.Some?
    ensures lib.renderer.value(view).Failure? ==> rep == Reply([], Fail(lib.renderer.value(view).error))
    ensures lib.renderer.value(view).Success? ==>
      WroteContent(rep, HTMLType, code, lib.renderer.value(view).value, wr, view == NilView)
  {
    ContentReply(lib.renderer.value(view), HTMLType, view, code, wr)
  }

  /** RenderPlain: a string view and a newline; `wr` is what `Write` returns. */
  function PlainReply(view: View, code: int, wr: Outcome): (rep: Reply)
    ensures !view.StringView? ==> rep == Reply([], Fail(PlainViewError))
    ensures view.StringView? ==>
      && WroteContent(rep, PlainType, code, view.s + "\n", wr, false)
      && HeaderSet(rep.effects, "X-Content-Type-Options") == Some("nosniff")
  {
    match view
    case StringView(s) =>
      var body := [WriteHeader(code)] + [Write(s + "\n")];
      var es := [SetHeader("Content-Type", PlainType)] + ([SetHeader("X-Content-Type-Options", "nosniff")] + body);
      ObserveCons(Write(s + "\n"), []);
      assert [Write(s + "\n")] + [] == [Write(s + "\n")];
      assert s + "\n" + "" == s + "\n";
      ObserveCons(WriteHeader(code), [Write(s + "\n")]);
      ObserveCons(SetHeader("X-Content-Type-Options", "nosniff"), body);
      ObserveCons(SetHeader("Content-Type", PlainType), [SetHeader("X-Content-Type-Options", "nosniff")] + body);
      Reply(es, wr)
    case _ => Reply([], Fail(PlainViewError))
  }

  /** Abort: the status text as plain text; this never fails before writing,
      and returns `wr`, what `Write` returns. */
  function AbortReply(code: int, lib: Libs, wr: Outcome): (rep: Reply)
    ensures WroteContent(rep, PlainType, code, lib.statusText(code) + "\n", wr, false)
  {
    PlainReply(StringView(lib.statusText(code)), code, wr)
  }

  /** What Render does once it has chosen; `wr` is what `Write` returns. */
  function RenderReply(choice: Choice, view: View, code: int, lib: Libs, wr: Outcome): (rep: Reply)
    requires choice == RenderedHTML ==> lib.renderer.Some?
    ensures choice.ParseFailed? ==> rep.effects == [] && rep.result == Fail(choice.err)
    ensures choice.NotAcceptable? ==>
      WroteContent(rep, PlainType, StatusNotAcceptable, lib.statusText(StatusNotAcceptable) + "\n", wr, false)
  {
    match choice
    case RenderedHTML => HTMLReply(view, code, lib, wr)
    case RenderedJSON => JSONReply(view, code, lib, wr)
    case RenderedPlain => PlainReply(view, code, wr)
    case ParseFailed(e) => Reply([], Fail(e))
    case NotAcceptable => AbortReply(StatusNotAcceptable, lib, wr)
  }

  /** The Accept header of the request. "Accept" is already canonical, so
      `Header.Get` looks it up as spelled (`AcceptIsHeaderGet`). */
  function Accept(ctx: Context): string
  {
    HeaderFirst(ctx.request.header, "Accept")
  }

  lemma AcceptIsHeaderGet(ctx: Context)
    ensures Accept(ctx) == HeaderGet(ctx.request.header, "Accept")
  {
    assert CanonicalSpelled("t", false);
    assert CanonicalSpelled("pt", false);
    assert CanonicalSpelled("ept", false);
    assert CanonicalSpelled("cept", false);
    assert CanonicalSpelled("ccept", false);
    HeaderGetSpelled(ctx.request.header, "Accept");
  }

  /** No match: the reply is `Abort(406)`. */
  lemma NoMatchAborts406(ctx: Context, view: View, code: int, lib: Libs, wr: Outcome)
    requires Accept(ctx) != ""
    requires forall k :: 0 <= k < |Split(Accept(ctx), ',')| ==> Decide(Split(Accept(ctx), ',')[k], lib, view).None?
    ensures Negotiated(Accept(ctx), lib, view) == NotAcceptable
    ensures WroteContent(RenderReply(Negotiated(Accept(ctx), lib, view), view, code, lib, wr),
                         PlainType, StatusNotAcceptable, lib.statusText(StatusNotAcceptable) + "\n", wr, false)
  {
    NegotiatedNotAcceptable(Accept(ctx), lib, view);
  }

  /** A failed render writes nothing: every error but a failed `Write` is
      returned before the first header is set. */
  lemma {:induction false} FailureBeforeWriting(choice: Choice, view: View, code: int, lib: Libs, wr: Outcome)
    requires choice == RenderedHTML ==> lib.renderer.Some?
    requires wr.Ok?
    ensures RenderReply(choice, view, code, lib, wr).result.Fail? <==> RenderReply(choice, view, code, lib, wr).effects == []
  {
    var rep := RenderReply(choice, view, code, lib, wr);
    if rep.effects != [] {
      assert Response(rep.effects);
    }
  }

  // ---------------------------------------------------------------------
  // The renderers, on the Context's response writer.
  // ---------------------------------------------------------------------

  method RenderContent(ctx: Context, produced: Result<string>, contentType: string, view: View, code: int)
      returns (r: Outcome)
    modifies ctx.writer
    ensures var rep := ContentReply(produced, contentType, view, code, ctx.writer.writeOutcome);
      ctx.writer.log == old(ctx.writer.log) + rep.effects && r == rep.result
  {
    match produced {
      case Failure(e) =>
        return Fail(e);
      case Success(b) =>
        ctx.writer.Set("Content-Type", contentType);
        ctx.writer.WriteStatus(code);
        if view == NilView {
          return Ok;
        }
        r := ctx.writer.WriteBody(b);
    }
  }

  /** RenderHTML. The code calls the renderer unconditionally. */
  method RenderHTML(ctx: Context, view: View, code: int, lib: Libs) returns (r: Outcome)
    requires lib.renderer.Some?
    modifies ctx.writer
    ensures var rep := HTMLReply(view, code, lib, ctx.writer.writeOutcome);
      ctx.writer.log == old(ctx.writer.log) + rep.effects && r == rep.result
  {
    r := RenderContent(ctx, lib.renderer.value(view), HTMLType, view, code);
  }

  method RenderJSON(ctx: Context, view: View, code: int, lib: Libs) returns (r: Outcome)
    modifies ctx.writer
    ensures var rep := JSONReply(view, code, lib, ctx.writer.writeOutcome);
      ctx.writer.log == old(ctx.writer.log) + rep.effects && r == rep.result
  {
    r := RenderContent(ctx, lib.marshal(view), JSONType, view, code);
  }

  method RenderPlain(ctx: Context, view: View, code: int) returns (r: Outcome)
    modifies ctx.writer
    ensures var rep := PlainReply(view, code, ctx.writer.writeOutcome);
      ctx.writer.log == old(ctx.writer.log) + rep.effects && r == rep.result
  {
    if !view.StringView? {
      return Fail(PlainViewError);
    }
    ctx.writer.Set("Content-Type", PlainType);
    ctx.writer.Set("X-Content-Type-Options", "nosniff");
    ctx.writer.WriteStatus(code);
    r := ctx.writer.WriteBody(view.s + "\n");
  }

  /** Abort (httpc.go). */
  method Abort(ctx: Context, code: int, lib: Libs) returns (r: Outcome)
    modifies ctx.writer
    ensures var rep := AbortReply(code, lib, ctx.writer.writeOutcome);
      ctx.writer.log == old(ctx.writer.log) + rep.effects && r == rep.result
  {
    r := RenderPlain(ctx, StringView(lib.statusText(code)), code);
  }

  /** Render: scans the Accept entries in order and hands the view to the
      renderer the first deciding entry names. */
  method Render(ctx: Context, view: View, code: int, lib: Libs) returns (r: Outcome)
    modifies ctx.writer
    ensures var rep := RenderReply(Negotiated(Accept(ctx), lib, view), view, code, lib, ctx.writer.writeOutcome);
      ctx.writer.log == old(ctx.writer.log) + rep.effects && r == rep.result
  {
    var accept := Accept(ctx);
    if accept == "" {
      r := RenderJSON(ctx, view, code, lib);
      return;
    }
    var entries := Split(accept, ',');
    ghost var choice := Negotiated(accept, lib, view);
    assert choice == Select(entries, lib, view);
    assert entries[0..] == entries;
    var i := 0;
    while i < |entries|
      invariant 0 <= i <= |entries|
      invariant Select(entries[i..], lib, view) == choice
      invariant ctx.writer.log == old(ctx.writer.log)
    {
      SelectAt(entries, i, lib, view);
      match lib.parseMediaType(entries[i]) {
        case Failure(e) =>
          return Fail(e);
        case Success(m) =>
          if IsHTMLType(m.mediaType) {
            if lib.renderer.Some? && AsTemplate(view, lib) {
              r := RenderHTML(ctx, view, code, lib);
              return;
            }
          } else if IsJSONType(m.mediaType) {
            r := RenderJSON(ctx, view, code, lib);
            return;
          } else if m.mediaType == "text/plain" {
            r := RenderPlain(ctx, view, code);
            return;
          }
      }
      i := i + 1;
    }
    assert entries[i..] == [] && choice == NotAcceptable;
    r := Abort(ctx, StatusNotAcceptable, lib);
  }
}
