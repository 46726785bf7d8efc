/** Values shared by the form validator, the request context and the renderer:
    Go's `error`, the results of calls that can fail, the parts of an
    `http.Request` the package reads, and the shape of `mime.ParseMediaType`. */
module Common {

  /** A Go `error`. Errors are compared as values and are never wrapped. */
  datatype Error = Error(msg: string)

  /** A Go `error` return: `Ok` is `nil`. */
  datatype Outcome = Ok | Fail(err: Error)

  /** A `(value, error)` pair where exactly one half is meaningful. */
  datatype Result<+T> = Success(value: T) | Failure(error: Error)

  datatype Option<+T> = None | Some(value: T)

  /** What `mime.ParseMediaType` returns: the bare media type and its
      parameters (`q`, `charset`, `boundary`, ...). */
  datatype Media = Media(mediaType: string, params: map<string, string>)

  /** `mime.ParseMediaType` is library code that is not part of this model. */
  type MediaParser = string -> Result<Media>

  /** Header values per canonical key, as `http.Header` holds them once
      net/http has parsed a request. */
  type Header = map<string, seq<string>>

  /** The parts of an `http.Request` that the package reads directly. */
  datatype Request = Request(header: Header, body: string, remoteAddr: string)

  /** A byte allowed in a header field name (an RFC 7230 token character). */
  predicate IsTokenChar(c: char)
  {
    || ('a' <= c <= 'z') || ('A' <= c <= 'Z') || ('0' <= c <= '9')
    || c == '!' || c == '#' || c == '$' || c == '%' || c == '&' || c == '\'' || c == '*'
    || c == '+' || c == '-' || c == '.' || c == '^' || c == '_' || c == '`' || c == '|' || c == '~'
  }

  /** ASCII upper case: a lower-case letter becomes the matching capital,
      every other character stays as it is. */
  function ToUpper(c: char): (u: char)
    ensures 'a' <= c <= 'z' ==> 'A' <= u <= 'Z' && u as int - 'A' as int == c as int - 'a' as int
    ensures !('a' <= c <= 'z') ==> u == c
    ensures IsTokenChar(c) ==> IsTokenChar(u)
    ensures u == '-' <==> c == '-'
  {
    if 'a' <= c <= 'z' then (c as int - 32) as char else c
  }

  /** ASCII lower case, the mirror of `ToUpper`. */
  function ToLower(c: char): (l: char)
    ensures 'A' <= c <= 'Z' ==> 'a' <= l <= 'z' && l as int - 'a' as int == c as int - 'A' as int
    ensures !('A' <= c <= 'Z') ==> l == c
    ensures IsTokenChar(c) ==> IsTokenChar(l)
    ensures l == '-' <==> c == '-'
  {
    if 'A' <= c <= 'Z' then (c as int + 32) as char else c
  }

  /** Every character of `s` is a token character. */
  predicate AllTokens(s: string)
  {
    s == [] || (IsTokenChar(s[0]) && AllTokens(s[1..]))
  }

  /** `AllTokens`, index by index. */
  lemma {:induction false} AllTokensAt(s: string)
    ensures AllTokens(s) <==> forall i :: 0 <= i < |s| ==> IsTokenChar(s[i])
  {
    if s != [] {
      AllTokensAt(s[1..]);
      assert forall i :: 1 <= i < |s| ==> s[i] == s[1..][i - 1];
    }
  }

  /** The canonical spelling of the rest of a valid key, `upper` telling
      whether the next letter starts a word. */
  function CanonicalFrom(s: string, upper: bool): string
  {
    if s == [] then []
    else [if upper then ToUpper(s[0]) else ToLower(s[0])] + CanonicalFrom(s[1..], s[0] == '-')
  }

  /** Canonicalising keeps the length. */
  lemma {:induction false} CanonicalFromLength(s: string, upper: bool)
    ensures |CanonicalFrom(s, upper)| == |s|
    decreases |s|
  {
    if s != [] {
      CanonicalFromLength(s[1..], s[0] == '-');
    }
  }

  /** A key of token characters stays one. */
  lemma {:induction false} CanonicalFromTokens(s: string, upper: bool)
    ensures AllTokens(s) ==> AllTokens(CanonicalFrom(s, upper))
    decreases |s|
  {
    if s != [] {
      CanonicalFromTokens(s[1..], s[0] == '-');
      var t := CanonicalFrom(s, upper);
      assert t[1..] == CanonicalFrom(s[1..], s[0] == '-');
    }
  }

  /** `textproto.CanonicalMIMEHeaderKey`: the first letter and every letter
      after a hyphen upper case, all others lower case; a key holding a byte
      that is not a token character is left as it is. */
  function CanonicalKey(key: string): (c: string)
    ensures |c| == |key|
    ensures (exists i :: 0 <= i < |key| && !IsTokenChar(key[i])) ==> c == key
  {
    AllTokensAt(key);
    CanonicalFromLength(key, true);
    if AllTokens(key) then CanonicalFrom(key, true) else key
  }

  /** Whether the character at `i` starts a word: the first one when `upper`,
      and every one after a hyphen. */
  predicate StartsWord(s: string, i: int, upper: bool)
    requires 0 <= i < |s|
  {
    if i == 0 then upper else s[i - 1] == '-'
  }

  /** Character by character: a word's first letter is upper-cased and every
      other letter lower-cased. */
  lemma {:induction false} CanonicalFromLetters(s: string, upper: bool)
    ensures |CanonicalFrom(s, upper)| == |s|
    ensures forall i :: 0 <= i < |s| ==>
      CanonicalFrom(s, upper)[i] == (if StartsWord(s, i, upper) then ToUpper(s[i]) else ToLower(s[i]))
    decreases |s|
  {
    CanonicalFromLength(s, upper);
    if s != [] {
      var t, rest := CanonicalFrom(s, upper), s[1..];
      CanonicalFromLetters(rest, s[0] == '-');
      CanonicalFromLength(rest, s[0] == '-');
      forall i | 1 <= i < |s|
        ensures t[i] == (if StartsWord(s, i, upper) then ToUpper(s[i]) else ToLower(s[i]))
      {
        assert t[i] == CanonicalFrom(rest, s[0] == '-')[i - 1];
        assert s[i] == rest[i - 1];
        assert StartsWord(s, i, upper) == StartsWord(rest, i - 1, s[0] == '-') by {
          if i > 1 {
            assert s[i - 1] == rest[i - 2];
          }
        }
      }
    }
  }

  /** Hyphens stay where they are, and nothing else becomes one. */
  lemma CanonicalFromKeepsHyphens(s: string, upper: bool)
    ensures |CanonicalFrom(s, upper)| == |s|
    ensures forall i :: 0 <= i < |s| ==> (CanonicalFrom(s, upper)[i] == '-' <==> s[i] == '-')
  {
    CanonicalFromLetters(s, upper);
  }

  /** `CanonicalMIMEHeaderKey` on a key of token characters: the first letter
      and each letter after '-' upper case, all other letters lower case. */
  lemma CanonicalKeyLetters(key: string)
    requires forall i :: 0 <= i < |key| ==> IsTokenChar(key[i])
    ensures forall i :: 0 <= i < |key| ==>
      CanonicalKey(key)[i] == (if StartsWord(key, i, true) then ToUpper(key[i]) else ToLower(key[i]))
  {
    AllTokensAt(key);
    CanonicalFromLetters(key, true);
  }

  lemma {:induction false} CanonicalFromIdempotent(s: string, upper: bool)
    ensures CanonicalFrom(CanonicalFrom(s, upper), upper) == CanonicalFrom(s, upper)
    decreases |s|
  {
    if s != [] {
      var t := CanonicalFrom(s, upper);
      assert t[1..] == CanonicalFrom(s[1..], s[0] == '-');
      assert t[0] == '-' <==> s[0] == '-';
      CanonicalFromIdempotent(s[1..], s[0] == '-');
    }
  }

  /** Canonicalising a canonical key changes nothing. */
  lemma CanonicalKeyIdempotent(key: string)
    ensures CanonicalKey(CanonicalKey(key)) == CanonicalKey(key)
  {
    if AllTokens(key) {
      CanonicalFromTokens(key, true);
      CanonicalFromIdempotent(key, true);
    }
  }

  /** `s` is spelled canonically: made of token characters, each word's
      first letter upper case and every other letter lower case. */
  predicate CanonicalSpelled(s: string, upper: bool)
  {
    s == [] ||
    (IsTokenChar(s[0]) && s[0] == (if upper then ToUpper(s[0]) else ToLower(s[0]))
     && CanonicalSpelled(s[1..], s[0] == '-'))
  }

  /** A canonically spelled key is its own canonical form. */
  lemma {:induction false} CanonicalSpelledFixed(s: string, upper: bool)
    requires CanonicalSpelled(s, upper)
    ensures AllTokens(s) && CanonicalFrom(s, upper) == s
    decreases |s|
  {
    if s != [] {
      CanonicalSpelledFixed(s[1..], s[0] == '-');
      assert [s[0]] + s[1..] == s;
    }
  }

  /** `Header.Get` with a key already in canonical form looks it up as
      spelled. */
  lemma HeaderGetSpelled(h: Header, key: string)
    requires CanonicalSpelled(key, true)
    ensures HeaderGet(h, key) == HeaderFirst(h, key)
  {
    CanonicalSpelledFixed(key, true);
  }

  /** `t` is the canonical spelling of `s`, checked one character at a time. */
  predicate CanonicalizesTo(s: string, upper: bool, t: string)
  {
    if s == [] then t == []
    else
      t != [] && t[0] == (if upper then ToUpper(s[0]) else ToLower(s[0]))
      && CanonicalizesTo(s[1..], s[0] == '-', t[1..])
  }

  lemma {:induction false} CanonicalizesToFrom(s: string, upper: bool, t: string)
    requires CanonicalizesTo(s, upper, t)
    ensures CanonicalFrom(s, upper) == t
    decreases |s|
  {
    if s != [] {
      CanonicalizesToFrom(s[1..], s[0] == '-', t[1..]);
      assert [t[0]] + t[1..] == t;
    }
  }

  lemma RealIPSpelling()
    ensures CanonicalFrom("X-Real-IP", true) == "X-Real-Ip"
  {
    assert CanonicalizesTo("P", false, "p");
    assert CanonicalizesTo("IP", true, "Ip");
    assert CanonicalizesTo("-IP", false, "-Ip");
    assert CanonicalizesTo("l-IP", false, "l-Ip");
    assert CanonicalizesTo("al-IP", false, "al-Ip");
    assert CanonicalizesTo("eal-IP", false, "eal-Ip");
    assert CanonicalizesTo("Real-IP", true, "Real-Ip");
    assert CanonicalizesTo("-Real-IP", false, "-Real-Ip");
    assert CanonicalizesTo("X-Real-IP", true, "X-Real-Ip");
    CanonicalizesToFrom("X-Real-IP", true, "X-Real-Ip");
  }

  /** `X-Real-IP` is held as `X-Real-Ip`. */
  lemma RealIPKey()
    ensures CanonicalKey("X-Real-IP") == "X-Real-Ip"
  {
    assert AllTokens("P");
    assert AllTokens("IP");
    assert AllTokens("-IP");
    assert AllTokens("l-IP");
    assert AllTokens("al-IP");
    assert AllTokens("eal-IP");
    assert AllTokens("Real-IP");
    assert AllTokens("-Real-IP");
    assert AllTokens("X-Real-IP");
    RealIPSpelling();
  }

  /** `Header.Get`: the first value stored under the canonical form of `key`,
      or "" when there is none. */
  function HeaderGet(h: Header, key: string): (v: string)
    ensures var k := CanonicalKey(key); k !in h || h[k] == [] ==> v == ""
    ensures var k := CanonicalKey(key); k in h && h[k] != [] ==> v == h[k][0]
  {
    HeaderFirst(h, CanonicalKey(key))
  }

  /** The lookup `Header.Get` makes once the key is canonical: the first value
      stored under exactly `k`, or "". */
  function HeaderFirst(h: Header, k: string): string
  {
    if k in h && |h[k]| > 0 then h[k][0] else ""
  }

  /** Lookups ignore the case the caller spells the key in. */
  lemma HeaderGetCanonical(h: Header, key: string)
    ensures HeaderGet(h, CanonicalKey(key)) == HeaderGet(h, key)
  {
    CanonicalKeyIdempotent(key);
  }

  const Int64Modulus: int := 0x1_0000_0000_0000_0000
  const Int64Max: int := 0x7FFF_FFFF_FFFF_FFFF

  /** Go's `int64`. */
  newtype int64 = x: int | -0x8000_0000_0000_0000 <= x <= 0x7FFF_FFFF_FFFF_FFFF

  /** The two's-complement value Go keeps of an `int64` result that overflowed. */
  function Wrap64(x: int): (r: int64)
    ensures (x - r as int) % Int64Modulus == 0
    ensures -0x8000_0000_0000_0000 <= x <= Int64Max ==> r as int == x
  {
    var m := x % Int64Modulus;
    if m <= Int64Max then m as int64 else (m - Int64Modulus) as int64
  }
}
