/** What the two prediction proxies (`api/predict-json.js` and
    `api/predict-image.js`) share: the method gate, the `image` field's
    validation chain, the forwarded request and the mapping of upstream
    answers and exceptions to responses. The two files spell this out twice;
    here it is written once and each handler composes it.

    The decoded size of a payload (`Buffer.from(payload, 'base64').length`)
    and the upstream exchange are oracle parameters. */
module Proxy {
  import opened Wrappers
  import opened Text
  import opened Backend
  import opened Base64
  import Env

  /** A thrown JavaScript error: its `name` decides the status. */
  datatype Exception = Exception(name: string, message: string)

  /** What `req.body.image` holds: nothing, a string, or some other JSON
      value (number, boolean, object, array), with its truthiness. */
  datatype ImageField = Absent | Text(text: string) | Other(truthy: bool)

  /** `req.body`: a parsed object, or `undefined`/`null`, which the
      destructuring `const { image } = req.body` throws on. */
  datatype Body = NoBody | Fields(image: ImageField)

  /** The parts of an incoming request the handlers read. */
  datatype Request = Request(httpMethod: string, contentType: Option<string>, body: Body)

  /** The deployment's `HF_SPACE_URL` and `HF_TOKEN`. */
  datatype ProxyEnv = ProxyEnv(spaceUrl: Option<string>, token: Option<string>)

  /** A response body: none (`res.end()`), `{ error }`, or a success value. */
  datatype Payload<T> = Empty | Error(message: string) | Body(value: T)

  datatype Response<T> = Response(status: nat, payload: Payload<T>)

  /** The multipart request sent to the Space: where, with which
      Authorization header, carrying the decoded payload. */
  datatype Forward = Forward(url: string, authorization: Option<string>, payload: string)

  /** What the upstream exchange gave: a response (status, status text, its
      `content-type` header, what reading its body as text gave, which the
      handlers do on a non-ok status, and what reading its body as the
      success value gave, which they do on an ok one), or a throw from
      `fetch` itself (a timeout abort, a network failure). */
  datatype Upstream<T> =
    | Answered(status: nat, statusText: string, contentType: Option<string>,
               errorText: Result<string, Exception>, body: Result<T, Exception>)
    | Threw(error: Exception)

  const DefaultSpaceUrl: string := "https://nawaf707-teledentai.hf.space"

  /** `MAX_SIZE`, 10 MiB. */
  const MaxSize: nat := 10 * 1024 * 1024

  const MissingImage: string := "Missing \"image\" field in request body"
  const NotDataUrl: string := "Image must be a valid base64 data URL"
  const BadFormat: string := "Invalid base64 image format"
  const JsonRequired: string := "Content-Type must be application/json with base64 image"
  const NotFound: string := "Endpoint not found on Hugging Face Space"
  const UpstreamErrorPrefix: string := "Hugging Face API error: "
  const Timeout: string := "Request timeout (30 seconds)"
  const Unreachable: string := "Unable to reach AI service. Please try again later."
  const InternalError: string := "Internal server error"
  const DataImagePrefix: string := "data:image/"

  const TooLarge: string := "Image too large. Maximum size is 10MB"

  /** The size message is the template `Maximum size is ${MAX_SIZE / 1024 / 1024}MB`
      rendered with the limit. */
  lemma TooLargeNamesTheLimit()
    ensures TooLarge == "Image too large. Maximum size is " + DecimalString(MaxSize / 1024 / 1024) + "MB"
  {
    assert MaxSize / 1024 / 1024 == 10;
    assert DecimalString(10) == "10";
  }

  /** `HF_SPACE_URL || 'https://nawaf707-teledentai.hf.space'` */
  function SpaceUrl(env: ProxyEnv): string {
    Env.Or(env.spaceUrl, DefaultSpaceUrl)
  }

  /** `headers['Authorization'] = Bearer ${HF_TOKEN}` when the token is truthy. */
  function Authorization(env: ProxyEnv): (auth: Option<string>)
    ensures auth.Some? <==> Env.IsSet(env.token)
    ensures auth.Some? ==> auth.value == "Bearer " + env.token.value
  {
    if Env.IsSet(env.token) then Some("Bearer " + env.token.value) else None
  }

  /** Preflight and method check, decided before anything else is read:
      `OPTIONS` ends with an empty 200, any method other than `allowed` gets
      405. `None` lets the request through. */
  function MethodGate<T>(httpMethod: string, allowed: string): (r: Option<Response<T>>)
    requires allowed != "OPTIONS"
    ensures httpMethod == "OPTIONS" ==> r == Some(Response(200, Empty))
    ensures httpMethod != "OPTIONS" && httpMethod != allowed ==>
              r == Some(Response(405, Error("Method not allowed. Use " + allowed + ".")))
    ensures r.None? <==> httpMethod == allowed
  {
    if httpMethod == "OPTIONS" then Some(Response(200, Empty))
    else if httpMethod != allowed then Some(Response(405, Error("Method not allowed. Use " + allowed + ".")))
    else None
  }

  /** The outcome of the JSON branch: the payload to forward, a 400 with its
      message, or a `TypeError` thrown by the handler's own code. */
  datatype Check = Accepted(payload: string) | Rejected(message: string) | Faulted(error: Exception)

  /** `req.body.image` is a non-empty string (its truthiness when it is one). */
  predicate HasImageText(body: Body) {
    body.Fields? && body.image.Text? && body.image.text != ""
  }

  /** The `image` validation chain of both handlers: presence, the
      `data:image/` prefix, the text after the last `;base64,`, and the
      decoded size, in that order. Destructuring a missing body, or calling
      `startsWith` on a truthy non-string, throws a `TypeError`. */
  function CheckImage(body: Body, decodedLength: string -> nat): (c: Check)
    ensures c.Accepted? <==>
              && HasImageText(body)
              && StartsWith(body.image.text, DataImagePrefix)
              && AfterLast(body.image.text, Separator) != ""
              && decodedLength(AfterLast(body.image.text, Separator)) <= MaxSize
    ensures c.Accepted? ==> c.payload == AfterLast(body.image.text, Separator)
    ensures c.Faulted? <==> body.NoBody? || body.image == Other(true)
    ensures c.Faulted? ==> c.error.name == "TypeError"
    ensures c.Rejected? ==> c.message in {MissingImage, NotDataUrl, BadFormat, TooLarge}
    ensures c.Rejected? && c.message == MissingImage <==>
              body.Fields? && body.image in {Absent, Text(""), Other(false)}
  {
    match body
    case NoBody => Faulted(Exception("TypeError", "Cannot destructure property 'image' of 'req.body'"))
    case Fields(image) =>
      match image
      case Absent => Rejected(MissingImage)
      case Other(truthy) =>
        if !truthy then Rejected(MissingImage)
        else Faulted(Exception("TypeError", "image.startsWith is not a function"))
      case Text(s) =>
        if s == "" then Rejected(MissingImage)
        else if !StartsWith(s, DataImagePrefix) then Rejected(NotDataUrl)
        else
          var payload := AfterLast(s, Separator);
          if payload == "" then Rejected(BadFormat)
          else if decodedLength(payload) > MaxSize then Rejected(TooLarge)
          else Accepted(payload)
  }

  /** The `catch` block: a timeout abort or a network failure is 503, any
      other exception 500. */
  function FromException<T>(e: Exception): (r: Response<T>)
    ensures r.status == 503 <==> e.name in {"AbortError", "FetchError"}
    ensures r.status in {500, 503}
    ensures r.payload.Error?
  {
    if e.name == "AbortError" then Response(503, Error(Timeout))
    else if e.name == "FetchError" then Response(503, Error(Unreachable))
    else Response(500, Error(InternalError))
  }

  /** A non-ok upstream status: 404 is reported as a missing endpoint, any
      other status is relayed unchanged with the upstream's status text. */
  function FromUpstreamStatus<T>(status: nat, statusText: string): (r: Response<T>)
    ensures r.status == status
    ensures status == 404 ==> r.payload == Error(NotFound)
    ensures status != 404 ==> r.payload == Error(UpstreamErrorPrefix + statusText)
  {
    if status == 404 then Response(404, Error(NotFound))
    else Response(status, Error(UpstreamErrorPrefix + statusText))
  }

  /** Forwarding an accepted payload to `route` on the Space and turning the
      outcome into a response; `success` builds the 200 body from the
      upstream's content type and body value, and may throw like the rest of
      the `try` block. A non-ok answer's body is read
      as text before its status is relayed, so a failure of that read goes to
      the `catch` block like any other throw. */
  function Relay<T, U>(env: ProxyEnv, route: string, payload: string,
                       upstream: Forward -> Upstream<T>,
                       success: (Option<string>, T) -> Result<U, Exception>): (r: Response<U>)
    ensures var answer := upstream(Forward(SpaceUrl(env) + route, Authorization(env), payload));
            && (answer.Threw? ==> r == FromException(answer.error))
            && (answer.Answered? && !IsOk(answer.status) && answer.errorText.Success? ==>
                  r == FromUpstreamStatus(answer.status, answer.statusText))
            && (answer.Answered? && !IsOk(answer.status) && answer.errorText.Failure? ==>
                  r == FromException(answer.errorText.error))
            && (answer.Answered? && IsOk(answer.status) && answer.body.Failure? ==> r == FromException(answer.body.error))
            && (answer.Answered? && IsOk(answer.status) && answer.body.Success? &&
                success(answer.contentType, answer.body.value).Failure? ==>
                  r == FromException(success(answer.contentType, answer.body.value).error))
            && (r.status == 200 && r.payload.Body? <==>
                  answer.Answered? && IsOk(answer.status) && answer.body.Success? &&
                  success(answer.contentType, answer.body.value).Success?)
            && (r.payload.Body? ==> r.payload.value == success(answer.contentType, answer.body.value).value)
  {
    match upstream(Forward(SpaceUrl(env) + route, Authorization(env), payload))
    case Threw(e) => FromException(e)
    case Answered(status, statusText, contentType, errorText, body) =>
      if !IsOk(status) then
        match errorText
        case Failure(e) => FromException(e)
        case Success(_) => FromUpstreamStatus(status, statusText)
      else
        match body
        case Failure(e) => FromException(e)
        case Success(v) =>
          match success(contentType, v)
          case Failure(e) => FromException(e)
          case Success(u) => Response(200, Body(u))
  }

  /** The JSON branch of a handler: validate, then relay or answer 400 / the
      thrown error's status. */
  function HandleJson<T, U>(env: ProxyEnv, body: Body, decodedLength: string -> nat, route: string,
                            upstream: Forward -> Upstream<T>,
                            success: (Option<string>, T) -> Result<U, Exception>): (r: Response<U>)
    ensures var c := CheckImage(body, decodedLength);
            && (c.Rejected? ==> r == Response(400, Error(c.message)))
            && (c.Faulted? ==> r == Response(500, Error(InternalError)))
            && (c.Accepted? ==> r == Relay(env, route, c.payload, upstream, success))
  {
    match CheckImage(body, decodedLength)
    case Rejected(m) => Response(400, Error(m))
    case Faulted(e) => FromException(e)
    case Accepted(payload) => Relay(env, route, payload, upstream, success)
  }

  /** Validation never consults the upstream: a request rejected by the chain
      gets the same response whatever the Space would answer. */
  lemma {:induction false} RejectionIgnoresUpstream<T, U>(env: ProxyEnv, body: Body, decodedLength: string -> nat, route: string,
                                                          up1: Forward -> Upstream<T>, up2: Forward -> Upstream<T>,
                                                          success: (Option<string>, T) -> Result<U, Exception>)
    requires !CheckImage(body, decodedLength).Accepted?
    ensures HandleJson(env, body, decodedLength, route, up1, success) == HandleJson(env, body, decodedLength, route, up2, success)
    ensures HandleJson(env, body, decodedLength, route, up1, success).status in {400, 500}
  {
  }

  /** An accepted request is sent once, to the route on the configured
      Space, carrying the payload after the last `;base64,`, and the response
      depends only on what that one request gets back. */
  lemma {:induction false} OnlyTheForwardedRequestMatters<T, U>(env: ProxyEnv, body: Body, decodedLength: string -> nat, route: string,
                                                                up1: Forward -> Upstream<T>, up2: Forward -> Upstream<T>,
                                                                success: (Option<string>, T) -> Result<U, Exception>)
    requires HasImageText(body)
    requires CheckImage(body, decodedLength).Accepted?
    requires var f := Forward(SpaceUrl(env) + route, Authorization(env), AfterLast(body.image.text, Separator));
             up1(f) == up2(f)
    ensures HandleJson(env, body, decodedLength, route, up1, success) == HandleJson(env, body, decodedLength, route, up2, success)
  {
  }

  /** The size limit is inclusive: a payload decoding to exactly 10 MiB is
      forwarded, one byte more is refused. */
  lemma {:induction false} SizeLimitIsInclusive(s: string, decodedLength: string -> nat)
    requires StartsWith(s, DataImagePrefix) && AfterLast(s, Separator) != ""
    ensures decodedLength(AfterLast(s, Separator)) == MaxSize ==>
              CheckImage(Fields(Text(s)), decodedLength) == Accepted(AfterLast(s, Separator))
    ensures decodedLength(AfterLast(s, Separator)) == MaxSize + 1 ==>
              CheckImage(Fields(Text(s)), decodedLength) == Rejected(TooLarge)
  {
  }

  /** Without any `;base64,` the whole string is taken as the payload. */
  lemma {:induction false} PayloadWithoutSeparator(s: string, decodedLength: string -> nat)
    requires StartsWith(s, DataImagePrefix) && !Contains(s, Separator)
    requires decodedLength(s) <= MaxSize
    ensures CheckImage(Fields(Text(s)), decodedLength) == Accepted(s)
  {
    assert s != "";
  }

  /** A data URL that ends right after its only separator has an empty
      payload and is refused as malformed, e.g. `data:image/png;base64,`. */
  lemma {:induction false} EmptyPayloadRefused(a: string, decodedLength: string -> nat)
    requires StartsWith(a, DataImagePrefix)
    requires forall i :: 0 <= i < |a| ==> a[i] != ';'
    ensures CheckImage(Fields(Text(a + Separator)), decodedLength) == Rejected(BadFormat)
  {
    NoLeadNoOccurrence(a, Separator);
    AfterLastOfTrailing(a, Separator);
    assert (a + Separator)[..|DataImagePrefix|] == a[..|DataImagePrefix|];
  }
}
