/** buildAuthUrl (backend/routes/voice.js): the signed WebSocket URL for the iFLYTEK
    streaming dictation service (IAT v2). HMAC-SHA256 (RFC 2104) and base64 (section 4
    of RFC 4648) are parameters; the clock's HTTP-date is the `date` parameter. The
    form-urlencoded query that URLSearchParams writes is modelled exactly. */
module VoiceAuth {
  import opened Wrappers
  import opened Text

  const Host: string := "iat-api.xfyun.cn"
  const PathName: string := "/v2/iat"
  const RequestLine: string := "GET " + PathName + " HTTP/1.1"

  /** The URL before its query. */
  const Endpoint: string := "wss://" + Host + PathName

  /** The two primitives buildAuthUrl borrows from node:crypto and Buffer:
      HMAC-SHA256 (key, message) and base64 encoding. */
  datatype Crypto = Crypto(hmacSha256: (seq<byte>, seq<byte>) -> seq<byte>, base64: seq<byte> -> string)

  /** The characters base64 output is made of. */
  predicate IsBase64Text(s: string) {
    forall i :: 0 <= i < |s| ==>
      ('A' <= s[i] <= 'Z') || ('a' <= s[i] <= 'z') || ('0' <= s[i] <= '9')
      || s[i] == '+' || s[i] == '/' || s[i] == '='
  }

  // ---------------------------------------------------------------------------
  // The signed strings
  // ---------------------------------------------------------------------------

  /** signature_origin: the host, date and request lines the vendor recomputes. */
  function SignatureOrigin(date: string): string {
    "host: " + Host + "\ndate: " + date + "\n" + RequestLine
  }

  /** The signing string has exactly three lines: host, date and request line. */
  lemma {:induction false} SignatureOriginLines(date: string)
    requires '\n' !in date
    ensures Split(SignatureOrigin(date), '\n') == ["host: " + Host, "date: " + date, RequestLine]
  {
    var l0, l1 := "host: " + Host, "date: " + date;
    assert '\n' !in RequestLine;
    SplitNoSep(RequestLine, '\n');
    SplitCons(l1, '\n', RequestLine);
    SplitCons(l0, '\n', l1 + ['\n'] + RequestLine);
    assert SignatureOrigin(date) == l0 + ['\n'] + (l1 + ['\n'] + RequestLine);
  }

  /** signatureSha: base64 of the HMAC-SHA256 of the UTF-8 signing string under the secret. */
  function Signature(crypto: Crypto, apiSecret: string, date: string): string {
    crypto.base64(crypto.hmacSha256(Utf8(apiSecret), Utf8(SignatureOrigin(date))))
  }

  /** authorization_origin. */
  function AuthorizationOrigin(apiKey: string, signature: string): string {
    "api_key=\"" + apiKey + "\", " + "algorithm=\"hmac-sha256\", " + "headers=\"host date request-line\", "
    + "signature=\"" + signature + "\""
  }

  /** The `authorization` query parameter: base64 of the UTF-8 authorization_origin. */
  function Authorization(crypto: Crypto, apiKey: string, apiSecret: string, date: string): string {
    crypto.base64(Utf8(AuthorizationOrigin(apiKey, Signature(crypto, apiSecret, date))))
  }

  /** The fields the vendor reads out of authorization_origin, in order. */
  function AuthorizationFields(apiKey: string, signature: string): seq<(string, string)> {
    [("api_key", apiKey), ("algorithm", "hmac-sha256"), ("headers", "host date request-line"),
     ("signature", signature)]
  }

  /** `name="value"` pairs separated by ", ". */
  function RenderParams(ps: seq<(string, string)>): string
    requires |ps| >= 1
  {
    var first := ps[0].0 + "=\"" + ps[0].1 + "\"";
    if |ps| == 1 then first else first + ", " + RenderParams(ps[1..])
  }

  /** Reads `name="value"` pairs separated by ", "; None on anything else. */
  function ParseParams(s: string): Option<seq<(string, string)>>
    decreases |s|
  {
    match IndexOf(s, '=')
    case None => None
    case Some(eq) =>
      if eq + 1 >= |s| || s[eq + 1] != '"' then None
      else
        var rest := s[eq + 2..];
        match IndexOf(rest, '"')
        case None => None
        case Some(close) =>
          var after := rest[close + 1..];
          if after == [] then Some([(s[..eq], rest[..close])])
          else if |after| >= 2 && after[..2] == ", " then
            match ParseParams(after[2..])
            case None => None
            case Some(more) => Some([(s[..eq], rest[..close])] + more)
          else None
  }

  lemma {:induction false} ParseRenderParams(ps: seq<(string, string)>)
    requires |ps| >= 1
    requires forall i :: 0 <= i < |ps| ==> '=' !in ps[i].0 && '"' !in ps[i].1
    ensures ParseParams(RenderParams(ps)) == Some(ps)
  {
    if |ps| == 1 {
      ParseRenderOne(ps[0].0, ps[0].1);
      assert ps == [(ps[0].0, ps[0].1)];
    } else {
      ParseRenderParams(ps[1..]);
      ParseRenderCons(ps[0].0, ps[0].1, ps[1..]);
      assert ps == [(ps[0].0, ps[0].1)] + ps[1..];
    }
  }

  lemma {:induction false} ParseRenderOne(name: string, value: string)
    requires '=' !in name && '"' !in value
    ensures ParseParams(RenderParams([(name, value)])) == Some([(name, value)])
  {
    ParseStep(name, value, "");
    assert RenderParams([(name, value)]) == name + "=\"" + value + "\"" + "";
  }

  lemma {:induction false} ParseRenderCons(name: string, value: string, ps: seq<(string, string)>)
    requires '=' !in name && '"' !in value
    requires |ps| >= 1 && ParseParams(RenderParams(ps)) == Some(ps)
    ensures ParseParams(RenderParams([(name, value)] + ps)) == Some([(name, value)] + ps)
  {
    var tail := ", " + RenderParams(ps);
    var text := name + "=\"" + value + "\"" + tail;
    assert ParseParams(text) == Some([(name, value)] + ps) by {
      ParseStep(name, value, tail);
      assert tail[..2] == ", " && tail[2..] == RenderParams(ps);
    }
    assert RenderParams([(name, value)] + ps) == text by {
      assert ([(name, value)] + ps)[1..] == ps;
    }
  }

  /** Reading one `name="value"` pair, then whatever follows it. */
  lemma {:induction false} ParseStep(name: string, value: string, tail: string)
    requires '=' !in name && '"' !in value
    ensures ParseParams(name + "=\"" + value + "\"" + tail)
            == if tail == [] then Some([(name, value)])
               else if |tail| >= 2 && tail[..2] == ", " then
                 match ParseParams(tail[2..])
                 case None => None
                 case Some(more) => Some([(name, value)] + more)
               else None
  {
    var s := name + "=\"" + value + "\"" + tail;
    assert s == name + ['='] + ("\"" + value + "\"" + tail);
    IndexOfCons(name, '=', "\"" + value + "\"" + tail);
    assert s[|name| + 1] == '"';
    var rest := s[|name| + 2..];
    assert rest == value + ['"'] + tail;
    IndexOfCons(value, '"', tail);
    assert rest[|value| + 1..] == tail;
    assert s[..|name|] == name;
    assert rest[..|value|] == value;
  }

  /** The constant fields, rendered piece by piece, are the literal text of the template. */
  lemma {:induction false} FieldLiterals()
    ensures "api_key" + "=\"" == "api_key=\""
    ensures "algorithm" + "=\"" + "hmac-sha256" + "\", " == "algorithm=\"hmac-sha256\", "
    ensures "headers" + "=\"" + "host date request-line" + "\", " == "headers=\"host date request-line\", "
  {
    assert "headers" + "=\"" == "headers=\"";
    assert "headers=\"" + "host date request-line" == "headers=\"host date request-line";
  }

  lemma {:induction false} RenderConstant(name: string, value: string, more: seq<(string, string)>)
    requires |more| >= 1
    ensures RenderParams([(name, value)] + more) == name + "=\"" + value + "\", " + RenderParams(more)
  {
    assert ([(name, value)] + more)[1..] == more;
  }

  /** authorization_origin is the four vendor fields in the documented order, and they
      can be read back, provided the key and the signature hold no double quote. */
  lemma {:induction false} AuthorizationOriginFields(apiKey: string, signature: string)
    requires '"' !in apiKey && '"' !in signature
    ensures AuthorizationOrigin(apiKey, signature) == RenderParams(AuthorizationFields(apiKey, signature))
    ensures ParseParams(AuthorizationOrigin(apiKey, signature)) == Some(AuthorizationFields(apiKey, signature))
  {
    AuthorizationOriginRendered(apiKey, signature);
    FieldsUnquoted(apiKey, signature);
    ParseRenderParams(AuthorizationFields(apiKey, signature));
  }

  lemma {:induction false} FieldsUnquoted(apiKey: string, signature: string)
    requires '"' !in apiKey && '"' !in signature
    ensures var fs := AuthorizationFields(apiKey, signature);
      forall i :: 0 <= i < |fs| ==> '=' !in fs[i].0 && '"' !in fs[i].1
  {
    var fs := AuthorizationFields(apiKey, signature);
    assert '=' !in "api_key" && '=' !in "algorithm" && '=' !in "headers" && '=' !in "signature";
    assert '"' !in "hmac-sha256" && '"' !in "host date request-line";
    forall i | 0 <= i < |fs|
      ensures '=' !in fs[i].0 && '"' !in fs[i].1
    {
      if i == 0 {
      } else if i == 1 {
      } else if i == 2 {
      } else {
      }
    }
  }

  lemma {:induction false} AuthorizationOriginRendered(apiKey: string, signature: string)
    ensures AuthorizationOrigin(apiKey, signature) == RenderParams(AuthorizationFields(apiKey, signature))
  {
    RenderFour("api_key", apiKey, "algorithm", "hmac-sha256", "headers", "host date request-line",
               "signature", signature);
    FieldLiterals();
    var a, b, c := "api_key=\"", "algorithm=\"hmac-sha256\", ", "headers=\"host date request-line\", ";
    var d, q, sep := "signature=\"", "\"", "\", ";
    assert "signature" + "=\"" == d;
    Regroup(a, apiKey, sep, b, c, d, signature, q);
  }

  lemma {:induction false} Regroup(a: string, k: string, sep: string, b: string, c: string, d: string, sig: string, q: string)
    ensures a + k + sep + b + c + d + sig + q == a + k + sep + (b + (c + (d + sig + q)))
  {
  }

  /** Four pairs render as their four `name="value"` texts joined by ", ". */
  lemma {:induction false} RenderFour(n0: string, v0: string, n1: string, v1: string, n2: string, v2: string,
                   n3: string, v3: string)
    ensures RenderParams([(n0, v0), (n1, v1), (n2, v2), (n3, v3)])
            == n0 + "=\"" + v0 + "\", " + (n1 + "=\"" + v1 + "\", " + (n2 + "=\"" + v2 + "\", "
               + (n3 + "=\"" + v3 + "\"")))
  {
    var fs := [(n0, v0), (n1, v1), (n2, v2), (n3, v3)];
    assert fs[3..] == [(n3, v3)];
    RenderConstant(n2, v2, fs[3..]);
    assert fs[2..] == [(n2, v2)] + fs[3..];
    RenderConstant(n1, v1, fs[2..]);
    assert fs[1..] == [(n1, v1)] + fs[2..];
    RenderConstant(n0, v0, fs[1..]);
    assert fs == [(n0, v0)] + fs[1..];
  }

  /** Undoing the outer base64 and UTF-8 of the `authorization` parameter yields the four
      fields, with the signature computed over the signing string. `unbase64` is any
      decoder that inverts the encoder on this input. */
  lemma {:induction false} AuthorizationDecodes(crypto: Crypto, unbase64: string -> Option<seq<byte>>,
                             apiKey: string, apiSecret: string, date: string)
    requires '"' !in apiKey
    requires IsBase64Text(Signature(crypto, apiSecret, date))
    requires var origin := Utf8(AuthorizationOrigin(apiKey, Signature(crypto, apiSecret, date)));
      unbase64(crypto.base64(origin)) == Some(origin)
    ensures var bytes := unbase64(Authorization(crypto, apiKey, apiSecret, date));
      bytes.Some? && Utf8Decode(bytes.value).Some?
      && ParseParams(Utf8Decode(bytes.value).value)
         == Some(AuthorizationFields(apiKey, Signature(crypto, apiSecret, date)))
  {
    var signature := Signature(crypto, apiSecret, date);
    assert forall i | 0 <= i < |signature| :: signature[i] != '"';
    Utf8RoundTrip(AuthorizationOrigin(apiKey, signature));
    AuthorizationOriginFields(apiKey, signature);
  }

  // ---------------------------------------------------------------------------
  // The query string (URLSearchParams: application/x-www-form-urlencoded)
  // ---------------------------------------------------------------------------

  /** The bytes the form-urlencoded serializer leaves as they are. */
  predicate IsFormSafe(b: byte) {
    b == 0x2A || b == 0x2D || b == 0x2E || b == 0x5F
    || (0x30 <= b <= 0x39) || (0x41 <= b <= 0x5A) || (0x61 <= b <= 0x7A)
  }

  function HexDigit(d: int): char
    requires 0 <= d < 16
  {
    "0123456789ABCDEF"[d]
  }

  function HexValue(c: char): Option<int> {
    if '0' <= c <= '9' then Some(c as int - '0' as int)
    else if 'A' <= c <= 'F' then Some(c as int - 'A' as int + 10)
    else None
  }

  /** One byte as the serializer writes it: space as '+', safe bytes as themselves,
      every other byte as '%' and two upper-case hex digits. */
  function EncodeByte(b: byte): string {
    if b == 0x20 then "+"
    else if IsFormSafe(b) then [b as char]
    else ['%', HexDigit(b / 16), HexDigit(b % 16)]
  }

  function EncodeBytes(bs: seq<byte>): string {
    if bs == [] then "" else EncodeByte(bs[0]) + EncodeBytes(bs[1..])
  }

  /** A string as URLSearchParams writes it: its UTF-8 bytes, each encoded. */
  function FormEncode(s: string): string {
    EncodeBytes(Utf8(s))
  }

  /** URLSearchParams(params).toString(): `name=value` pairs joined by '&'. */
  function SearchParams(ps: seq<(string, string)>): string
    requires |ps| >= 1
  {
    JoinWith(EncodedPairs(ps), '&')
  }

  function EncodedPairs(ps: seq<(string, string)>): (parts: seq<string>)
    ensures |parts| == |ps|
    ensures forall i :: 0 <= i < |ps| ==> parts[i] == FormEncode(ps[i].0) + "=" + FormEncode(ps[i].1)
  {
    if ps == [] then [] else [FormEncode(ps[0].0) + "=" + FormEncode(ps[0].1)] + EncodedPairs(ps[1..])
  }

  function Prepend(bs: seq<byte>, rest: Option<seq<byte>>): Option<seq<byte>> {
    match rest
    case None => None
    case Some(r) => Some(bs + r)
  }

  /** Form-urlencoded decoding to bytes: '+' is a space, '%' takes two hex digits, any
      other character stands for its UTF-8 bytes. None on a malformed escape. */
  function PercentDecode(t: string): Option<seq<byte>> {
    if t == [] then Some([])
    else if t[0] == '+' then Prepend([0x20], PercentDecode(t[1..]))
    else if t[0] == '%' then
      if |t| >= 3 && HexValue(t[1]).Some? && HexValue(t[2]).Some? then
        Prepend([HexValue(t[1]).value * 16 + HexValue(t[2]).value], PercentDecode(t[3..]))
      else None
    else Prepend(Utf8Char(t[0]), PercentDecode(t[1..]))
  }

  function FormDecode(t: string): Option<string> {
    match PercentDecode(t)
    case None => None
    case Some(bs) => Utf8Decode(bs)
  }

  /** One `name=value` pair, split at its first '='. */
  function ParsePair(p: string): Option<(string, string)> {
    match IndexOf(p, '=')
    case None => None
    case Some(eq) =>
      match (FormDecode(p[..eq]), FormDecode(p[eq + 1..]))
      case (Some(name), Some(value)) => Some((name, value))
      case _ => None
  }

  function ParsePairs(parts: seq<string>): Option<seq<(string, string)>> {
    if parts == [] then Some([])
    else
      match (ParsePair(parts[0]), ParsePairs(parts[1..]))
      case (Some(p), Some(ps)) => Some([p] + ps)
      case _ => None
  }

  function ParseQuery(q: string): Option<seq<(string, string)>> {
    ParsePairs(Split(q, '&'))
  }

  /** A URL split at its first '?' into the part before and the query. */
  function SplitUrl(url: string): (string, string) {
    match IndexOf(url, '?')
    case None => (url, "")
    case Some(i) => (url[..i], url[i + 1..])
  }

  lemma {:induction false} HexRoundTrip(d: int)
    requires 0 <= d < 16
    ensures HexValue(HexDigit(d)) == Some(d)
  {
  }

  lemma {:induction false} EncodeByteDecodes(b: byte, rest: string)
    ensures PercentDecode(EncodeByte(b) + rest) == Prepend([b], PercentDecode(rest))
    ensures '&' !in EncodeByte(b) && '=' !in EncodeByte(b)
  {
    var t := EncodeByte(b) + rest;
    if b == 0x20 {
      assert t[1..] == rest;
    } else if IsFormSafe(b) {
      assert t[1..] == rest;
    } else {
      HexRoundTrip(b / 16);
      HexRoundTrip(b % 16);
      assert t[3..] == rest;
    }
  }

  lemma {:induction false} EncodeBytesDecodes(bs: seq<byte>)
    ensures PercentDecode(EncodeBytes(bs)) == Some(bs)
    ensures '&' !in EncodeBytes(bs) && '=' !in EncodeBytes(bs)
  {
    if bs != [] {
      EncodeBytesDecodes(bs[1..]);
      EncodeByteDecodes(bs[0], EncodeBytes(bs[1..]));
      assert [bs[0]] + bs[1..] == bs;
    }
  }

  /** Form-urlencoding loses nothing, and never writes the '&' and '=' that delimit the
      query. */
  lemma {:induction false} FormRoundTrip(s: string)
    ensures FormDecode(FormEncode(s)) == Some(s)
    ensures '&' !in FormEncode(s) && '=' !in FormEncode(s)
  {
    EncodeBytesDecodes(Utf8(s));
    Utf8RoundTrip(s);
  }

  /** A serialized parameter list reads back as the same list, in the same order. */
  lemma {:induction false} SearchParamsRoundTrip(ps: seq<(string, string)>)
    requires |ps| >= 1
    ensures ParseQuery(SearchParams(ps)) == Some(ps)
  {
    var parts := EncodedPairs(ps);
    forall i | 0 <= i < |ps|
      ensures '&' !in parts[i]
      ensures ParsePair(parts[i]) == Some(ps[i])
    {
      FormRoundTrip(ps[i].0);
      FormRoundTrip(ps[i].1);
      var n, v := FormEncode(ps[i].0), FormEncode(ps[i].1);
      assert parts[i] == n + ['='] + v;
      IndexOfCons(n, '=', v);
      assert parts[i][..|n|] == n && parts[i][|n| + 1..] == v;
    }
    SplitJoinWithAll(parts, '&');
    ParsedPairs(parts, ps);
  }

  lemma {:induction false} ParsedPairs(parts: seq<string>, ps: seq<(string, string)>)
    requires |parts| == |ps|
    requires forall i :: 0 <= i < |ps| ==> ParsePair(parts[i]) == Some(ps[i])
    ensures ParsePairs(parts) == Some(ps)
  {
    if parts != [] {
      ParsedPairs(parts[1..], ps[1..]);
      assert ps == [ps[0]] + ps[1..];
    }
  }

  // ---------------------------------------------------------------------------
  // buildAuthUrl
  // ---------------------------------------------------------------------------

  /** The query parameters, in the order of the `params` object. */
  function QueryParams(crypto: Crypto, apiKey: string, apiSecret: string, date: string): seq<(string, string)> {
    [("authorization", Authorization(crypto, apiKey, apiSecret, date)), ("date", date), ("host", Host)]
  }

  /** buildAuthUrl(apiKey, apiSecret) at the instant whose HTTP-date is `date`. */
  function BuildAuthUrl(crypto: Crypto, apiKey: string, apiSecret: string, date: string): string {
    Endpoint + "?" + SearchParams(QueryParams(crypto, apiKey, apiSecret, date))
  }

  /** The URL is the vendor endpoint followed by a query carrying exactly `authorization`,
      `date` and `host`, in that order, whose values decode back to the authorization
      string, the given date and the vendor host. */
  lemma {:induction false} BuildAuthUrlQuery(crypto: Crypto, apiKey: string, apiSecret: string, date: string)
    ensures var (base, query) := SplitUrl(BuildAuthUrl(crypto, apiKey, apiSecret, date));
      base == Endpoint
      && ParseQuery(query) == Some(QueryParams(crypto, apiKey, apiSecret, date))
  {
    var ps := QueryParams(crypto, apiKey, apiSecret, date);
    assert '?' !in Endpoint;
    SplitUrlAt(Endpoint, SearchParams(ps));
    SearchParamsRoundTrip(ps);
  }

  lemma {:induction false} SplitUrlAt(base: string, query: string)
    requires '?' !in base
    ensures SplitUrl(base + "?" + query) == (base, query)
  {
    IndexOfCons(base, '?', query);
    var url := base + "?" + query;
    assert url[..|base|] == base && url[|base| + 1..] == query;
  }
}
