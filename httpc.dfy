/** The request context of httpc.go: the response writer it embeds, the
    remote-address guess, the error slot kept in its `context.Context`, and
    the cookie expiry rule. */
module Httpc {
  import opened Common

  /** One call a handler makes on the response, in the order made. */
  datatype Effect =
    | SetHeader(key: string, value: string)   // Header().Set
    | AddHeader(key: string, value: string)   // Header().Add
    | WriteHeader(code: int)
    | Write(data: string)

  /** The `http.ResponseWriter` a Context embeds, observed through the calls
      made on it. `writeOutcome` is what every `Write` on this connection
      returns. */
  class ResponseWriter {
    var log: seq<Effect>
    const writeOutcome: Outcome

    constructor (writeOutcome: Outcome)
      ensures log == [] && this.writeOutcome == writeOutcome
    {
      log := [];
      this.writeOutcome := writeOutcome;
    }

    method Set(key: string, value: string)
      modifies this
      ensures log == old(log) + [SetHeader(key, value)]
    {
      log := log + [SetHeader(key, value)];
    }

    method Add(key: string, value: string)
      modifies this
      ensures log == old(log) + [AddHeader(key, value)]
    {
      log := log + [AddHeader(key, value)];
    }

    method WriteStatus(code: int)
      modifies this
      ensures log == old(log) + [WriteHeader(code)]
    {
      log := log + [WriteHeader(code)];
    }

    method WriteBody(data: string) returns (r: Outcome)
      modifies this
      ensures log == old(log) + [Write(data)]
      ensures r == writeOutcome
    {
      log := log + [Write(data)];
      r := writeOutcome;
    }
  }

  // ---------------------------------------------------------------------
  // context.Context values.
  // ---------------------------------------------------------------------

  /** A context key: the package's own unexported `keyError`, or a key of
      some other package (a different Go type, so never equal to it). */
  datatype Key = ErrorKey | ForeignKey(id: string)

  /** A stored value: a nil interface, an `error`, or anything else. */
  datatype Val = NilVal | ErrVal(e: Error) | ForeignVal(id: string)

  /** Where a value context looks for keys it does not hold itself:
      another context, or `Enclosing`, the `*Context` of this package, whose
      `Value` is that of its `Context` field at the time of the lookup. */
  datatype Parent = Wrapped(ctx: Ctx) | Enclosing

  /** A context chain. `Root` is a context made elsewhere, seen through the
      values it answers. */
  datatype Ctx = Root(values: map<Key, Val>) | WithValue(parent: Parent, key: Key, val: Val)

  /** A chain that never refers back to the enclosing `*Context`. */
  predicate SelfFree(c: Ctx)
  {
    match c
    case Root(_) => true
    case WithValue(p, _, _) => p.Wrapped? && SelfFree(p.ctx)
  }

  /** `Value(key)` on a self-free chain. */
  function Find(c: Ctx, key: Key): (r: Option<Val>)
    requires SelfFree(c)
  {
    match c
    case Root(m) => if key in m then Some(m[key]) else None
    case WithValue(p, k, v) => if k == key then Some(v) else Find(p.ctx, key)
  }

  /** `Value(key)` on any chain, `current` being the enclosing `*Context`'s
      `Context` field: `Some(answer)` once the walk ends, `None` when it is
      still going after returning to the enclosing `*Context` `fuel` times.
      On a self-free chain the walk always ends, with `Find`'s answer. */
  function Lookup(c: Ctx, key: Key, current: Ctx, fuel: nat): (r: Option<Option<Val>>)
    ensures c.WithValue? && c.key == key ==> r == Some(Some(c.val))
    ensures SelfFree(c) ==> r == Some(Find(c, key))
    decreases fuel, c
  {
    match c
    case Root(m) => Some(if key in m then Some(m[key]) else None)
    case WithValue(p, k, v) =>
      if k == key then Some(Some(v))
      else match p
        case Wrapped(q) => Lookup(q, key, current, fuel)
        case Enclosing => if fuel == 0 then None else Lookup(current, key, current, fuel - 1)
  }

  /** What `SetError(err)` stores: a nil `error` is a nil interface. */
  function Stored(err: Option<Error>): (v: Val)
    ensures v.NilVal? <==> err.None?
  {
    if err.Some? then ErrVal(err.value) else NilVal
  }

  /** `ctx.Value(keyError).(error)`: nil unless an `error` is stored. */
  function ErrorOf(c: Ctx): (e: Option<Error>)
    requires SelfFree(c)
    ensures e.Some? <==> Find(c, ErrorKey).Some? && Find(c, ErrorKey).value.ErrVal?
    ensures e.Some? ==> Find(c, ErrorKey) == Some(ErrVal(e.value))
  {
    match Find(c, ErrorKey)
    case Some(ErrVal(e)) => Some(e)
    case _ => None
  }

  /** The `Context` field SetError leaves as written at httpc.go:103: the
      new value context's parent is the enclosing `*Context` itself. */
  function SetErrorAsWritten(err: Option<Error>): (c: Ctx)
    ensures c.WithValue? && c.parent == Enclosing && c.key == ErrorKey
  {
    WithValue(Enclosing, ErrorKey, Stored(err))
  }

  /** As written, the stored error can still be read back ... */
  lemma AsWrittenErrorReadable(err: Option<Error>, fuel: nat)
    ensures Lookup(SetErrorAsWritten(err), ErrorKey, SetErrorAsWritten(err), fuel) == Some(Some(Stored(err)))
  {
  }

  /** ... but a lookup of any other key returns to the enclosing `*Context`,
      whose field is the same value context, for ever: it never ends. */
  lemma {:induction false} AsWrittenOtherKeysNeverResolve(err: Option<Error>, key: Key, fuel: nat)
    requires key != ErrorKey
    ensures Lookup(SetErrorAsWritten(err), key, SetErrorAsWritten(err), fuel).None?
  {
    if fuel > 0 {
      AsWrittenOtherKeysNeverResolve(err, key, fuel - 1);
    }
  }

  /** The `Context` field SetError evidently means to leave: a value context
      over the previous field. */
  function SetErrorOn(c: Ctx, err: Option<Error>): (c': Ctx)
    requires SelfFree(c)
    ensures SelfFree(c')
    ensures ErrorOf(c') == err
    ensures forall k :: k != ErrorKey ==> Find(c', k) == Find(c, k)
  {
    WithValue(Wrapped(c), ErrorKey, Stored(err))
  }

  /** With the corrected SetError, every lookup through the general walk
      ends, whatever the enclosing `*Context` holds and however little fuel
      it is given: the error key answers the stored value, and every other
      key answers what the previous chain answered. */
  lemma CorrectedLookupsEnd(c: Ctx, err: Option<Error>, key: Key, current: Ctx, fuel: nat)
    requires SelfFree(c)
    ensures Lookup(SetErrorOn(c, err), key, current, fuel)
            == Some(if key == ErrorKey then Some(Stored(err)) else Find(c, key))
  {
  }

  /** With no `error` stored under `keyError`, `Error()` is nil. */
  lemma NoErrorStored(c: Ctx)
    requires SelfFree(c)
    requires Find(c, ErrorKey).None? || Find(c, ErrorKey) == Some(NilVal)
    ensures ErrorOf(c).None?
  {
  }

  /** The most recent `SetError` wins. */
  lemma {:induction false} LastSetErrorWins(c: Ctx, first: Option<Error>, second: Option<Error>)
    requires SelfFree(c)
    ensures ErrorOf(SetErrorOn(SetErrorOn(c, first), second)) == second
    ensures forall k :: k != ErrorKey ==> Find(SetErrorOn(SetErrorOn(c, first), second), k) == Find(c, k)
  {
    var c1 := SetErrorOn(c, first);
    assert forall k :: k != ErrorKey ==> Find(SetErrorOn(c1, second), k) == Find(c1, k);
  }

  // ---------------------------------------------------------------------
  // Cookies.
  // ---------------------------------------------------------------------

  /** Times are Unix nanoseconds. */
  const NanosPerSecond: int := 1_000_000_000

  /** `time.Unix(1, 0)`. */
  const UnixOne: int := NanosPerSecond

  /** The largest `MaxAge` whose `time.Duration(MaxAge) * time.Second` fits
      in an int64. */
  const MaxAgeWithoutOverflow: int := Int64Max / NanosPerSecond

  /** The `Expires` SetCookie assigns: `now` plus MaxAge seconds as an int64
      nanosecond `Duration`, which wraps around, or Unix time 1 when MaxAge
      is not positive. */
  function Expiry(maxAge: int64, now: int): (t: int)
    ensures maxAge <= 0 ==> t == UnixOne
    ensures maxAge > 0 ==> -0x8000_0000_0000_0000 <= t - now <= Int64Max
  {
    if maxAge > 0 then now + Wrap64(maxAge as int * NanosPerSecond) as int else UnixOne
  }

  lemma ExpiryRule(maxAge: int64, now: int)
    ensures maxAge <= 0 ==> Expiry(maxAge, now) == UnixOne
    ensures 0 < maxAge as int <= MaxAgeWithoutOverflow ==> Expiry(maxAge, now) == now + maxAge as int * NanosPerSecond
    ensures maxAge > 0 ==> (maxAge as int * NanosPerSecond - (Expiry(maxAge, now) - now)) % Int64Modulus == 0
  {
    var m := maxAge as int;
    if m > 0 {
      var x := m * NanosPerSecond;
      assert Expiry(maxAge, now) - now == Wrap64(x) as int;
      if m <= MaxAgeWithoutOverflow {
        assert MaxAgeWithoutOverflow == 9223372036;
        assert x <= 9223372036 * 1_000_000_000 <= Int64Max;
      }
    }
  }

  /** One second past the overflow bound, the cookie expires in the past. */
  lemma ExpiryWrapsPastBound(now: int)
    ensures Expiry((MaxAgeWithoutOverflow + 1) as int64, now) < now
  {
  }

  /** The fields of an `http.Cookie` the rule and the header depend on. */
  datatype CookieFields = CookieFields(name: string, value: string, maxAge: int64, expires: int)

  /** An `*http.Cookie`, which SetCookie updates in place. */
  class Cookie {
    var name: string
    var value: string
    var maxAge: int64
    var expires: int

    constructor (name: string, value: string, maxAge: int64)
      ensures this.name == name && this.value == value && this.maxAge == maxAge && expires == 0
    {
      this.name, this.value, this.maxAge, expires := name, value, maxAge, 0;
    }

    function Fields(): (f: CookieFields)
      reads this
    {
      CookieFields(name, value, maxAge, expires)
    }
  }

  /** The request context. */
  class Context {
    const request: Request
    /** The embedded `context.Context` field. */
    var context: Ctx
    /** The embedded `http.ResponseWriter`. */
    const writer: ResponseWriter

    ghost predicate Valid()
      reads this
    {
      SelfFree(context)
    }

    /** NewContext: a context the caller made cannot refer to this one. */
    constructor (ctx: Ctx, w: ResponseWriter, req: Request)
      requires SelfFree(ctx)
      ensures Valid() && context == ctx && writer == w && request == req
    {
      context, writer, request := ctx, w, req;
    }

    /** RemoteAddr: X-Real-IP, then X-Forwarded-For, verbatim; then the host
        part of the connection's address, or that address unchanged when it
        has no port to split off. */
    function RemoteAddr(splitHostPort: string -> Result<string>): (addr: string)
      ensures var realIP := HeaderGet(request.header, "X-Real-IP");
        realIP != "" ==> addr == realIP
      ensures var realIP, forwarded := HeaderGet(request.header, "X-Real-IP"), HeaderGet(request.header, "X-Forwarded-For");
        realIP == "" && forwarded != "" ==> addr == forwarded
      ensures var realIP, forwarded := HeaderGet(request.header, "X-Real-IP"), HeaderGet(request.header, "X-Forwarded-For");
        realIP == "" && forwarded == "" ==>
          addr == (if splitHostPort(request.remoteAddr).Success? then splitHostPort(request.remoteAddr).value else request.remoteAddr)
    {
      var realIP := HeaderGet(request.header, "X-Real-IP");
      if |realIP| != 0 then realIP
      else
        var forwarded := HeaderGet(request.header, "X-Forwarded-For");
        if forwarded != "" then forwarded
        else
          match splitHostPort(request.remoteAddr)
          case Failure(_) => request.remoteAddr
          case Success(host) => host
    }

    /** `Value(key)` of the embedded context. */
    function Value(key: Key): (v: Option<Val>)
      reads this
      requires Valid()
    {
      Find(context, key)
    }

    /** Error: the stored error, nil when none is stored. */
    function Error(): (e: Option<Error>)
      reads this
      requires Valid()
      ensures e.Some? <==> Value(ErrorKey).Some? && Value(ErrorKey).value.ErrVal?
      ensures e.Some? ==> Value(ErrorKey) == Some(ErrVal(e.value))
    {
      ErrorOf(context)
    }

    /** SetError, with the value context made over the previous `Context`
        field (see `SetErrorAsWritten` for the code as written). */
    method SetError(err: Option<Error>)
      requires Valid()
      modifies this`context
      ensures Valid()
      ensures context == SetErrorOn(old(context), err)
      ensures Error() == err
      ensures forall k :: k != ErrorKey ==> Value(k) == old(Value(k))
    {
      context := WithValue(Wrapped(context), ErrorKey, Stored(err));
    }

    /** SetCookie: assigns `Expires` in place, then adds the Set-Cookie
        header unless `http.SetCookie` serialises the cookie to "" (an
        invalid cookie is dropped). */
    method SetCookie(cookie: Cookie, now: int, serialize: CookieFields -> string)
      modifies cookie, writer
      ensures cookie.expires == Expiry(old(cookie.maxAge), now)
      ensures cookie.name == old(cookie.name) && cookie.value == old(cookie.value)
      ensures cookie.maxAge == old(cookie.maxAge)
      ensures var line := serialize(cookie.Fields());
        writer.log == old(writer.log) + (if line == "" then [] else [AddHeader("Set-Cookie", line)])
    {
      if cookie.maxAge > 0 {
        cookie.expires := now + Wrap64(cookie.maxAge as int * NanosPerSecond) as int;
      } else {
        cookie.expires := UnixOne;
      }
      var line := serialize(cookie.Fields());
      if line != "" {
        writer.Add("Set-Cookie", line);
      }
    }
  }

  /** X-Real-IP, when present, is the answer whatever the other sources say. */
  lemma RealIPWins(a: Context, b: Context, split: string -> Result<string>)
    requires HeaderGet(a.request.header, "X-Real-IP") != ""
    requires HeaderGet(b.request.header, "X-Real-IP") == HeaderGet(a.request.header, "X-Real-IP")
    ensures a.RemoteAddr(split) == b.RemoteAddr(split) == HeaderGet(a.request.header, "X-Real-IP")
  {
  }

  /** The header is read with its key canonicalised, so a request whose
      header map spells the key "X-Real-Ip", as Go's parser stores it, is
      answered from that entry. */
  lemma RealIPCanonicalSpelling(c: Context, split: string -> Result<string>)
    requires "X-Real-Ip" in c.request.header && c.request.header["X-Real-Ip"] != []
    requires c.request.header["X-Real-Ip"][0] != ""
    ensures c.RemoteAddr(split) == c.request.header["X-Real-Ip"][0]
  {
    RealIPKey();
  }
}
