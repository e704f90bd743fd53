/** `api/predict-json.js`: accepts `{ "image": "data:image/...;base64,..." }`,
    forwards the decoded image to the Space's JSON detection route and
    relays the detections. `T` is the upstream's JSON value, passed through
    unchanged. */
module PredictJson {
  import opened Wrappers
  import opened Text
  import opened Backend
  import opened Base64
  import opened Proxy
  import Env

  const Multipart: string := "multipart/form-data"
  const Json: string := "application/json"
  const SendBase64Json: string := "Please send image as base64 JSON: { \"image\": \"data:image/jpeg;base64,...\" }"

  /** `req.headers['content-type'] || ''` */
  function ContentType(req: Request): string {
    Env.Or(req.contentType, "")
  }

  /** What `hfResponse.json()` parsed: `null`, or any other JSON value. */
  datatype Parsed<T> = Null | NonNull(value: T)

  /** The format check after parsing reads `result.detect_objects_names`,
      which throws a `TypeError` on `null`; any other value passes the check
      (which only logs) and is sent back as it came. */
  function Checked<T>(contentType: Option<string>, p: Parsed<T>): (r: Result<T, Exception>)
    ensures r.Failure? <==> p.Null?
    ensures r.Failure? ==> r.error.name == "TypeError"
    ensures r.Success? ==> p == NonNull(r.value)
  {
    match p
    case Null => Failure(Exception("TypeError", "Cannot read properties of null (reading 'detect_objects_names')"))
    case NonNull(v) => Success(v)
  }

  /** The request an accepted call forwards: to the JSON route on the
      configured Space, with the optional bearer token, carrying the text
      after the last `;base64,`. */
  function Forwarded(env: ProxyEnv, image: string): Forward {
    Forward(SpaceUrl(env) + DetectRoute, Authorization(env), AfterLast(image, Separator))
  }

  /** The handler. A 200 with a body happens only for a JSON request whose
      image passed the whole validation chain and whose forwarded request
      got an ok answer with a readable, non-null body, and the body is that
      answer's JSON. Every other response is one of the fixed error statuses or the
      upstream's own non-ok status. */
  function Handle<T>(env: ProxyEnv, req: Request, decodedLength: string -> nat,
                     upstream: Forward -> Upstream<Parsed<T>>): (r: Response<T>)
    ensures r.payload.Body? ==>
              && req.httpMethod == "POST"
              && Contains(ContentType(req), Json) && !Contains(ContentType(req), Multipart)
              && CheckImage(req.body, decodedLength).Accepted?
              && var answer := upstream(Forwarded(env, req.body.image.text));
              && answer.Answered? && IsOk(answer.status) && answer.body == Success(NonNull(r.payload.value))
              && r.status == 200
    ensures r.status in {200, 400, 404, 405, 500, 503} ||
            (HasImageText(req.body) &&
             var answer := upstream(Forwarded(env, req.body.image.text));
             answer.Answered? && !IsOk(answer.status) && answer.errorText.Success? && r.status == answer.status)
  {
    match MethodGate(req.httpMethod, "POST")
    case Some(early) => early
    case None =>
      var ct := ContentType(req);
      if Contains(ct, Multipart) then Response(400, Error(SendBase64Json))
      else if Contains(ct, Json) then HandleJson(env, req.body, decodedLength, DetectRoute, upstream, Checked)
      else Response(400, Error(JsonRequired))
  }

  /** Preflight and method are decided before anything else: two requests
      with the same non-POST method get the same answer, whatever their
      headers, body, environment or upstream. */
  lemma {:induction false} MethodDecidedFirst<T>(env1: ProxyEnv, req1: Request, dl1: string -> nat, up1: Forward -> Upstream<Parsed<T>>,
                                                 env2: ProxyEnv, req2: Request, dl2: string -> nat, up2: Forward -> Upstream<Parsed<T>>)
    requires req1.httpMethod == req2.httpMethod != "POST"
    ensures Handle(env1, req1, dl1, up1) == Handle(env2, req2, dl2, up2)
    ensures req1.httpMethod == "OPTIONS" ==> Handle(env1, req1, dl1, up1) == Response(200, Empty)
    ensures req1.httpMethod != "OPTIONS" ==>
              Handle(env1, req1, dl1, up1) == Response(405, Error("Method not allowed. Use POST."))
  {
    assert "Method not allowed. Use " + "POST" + "." == "Method not allowed. Use POST.";
  }

  /** The content type is checked before the body: a multipart upload is
      told to send base64 JSON, any other non-JSON type is told JSON is
      required, whatever the body or the upstream. */
  lemma {:induction false} ContentTypeDecidedBeforeBody<T>(env: ProxyEnv, req: Request, decodedLength: string -> nat,
                                                           upstream: Forward -> Upstream<Parsed<T>>)
    requires req.httpMethod == "POST"
    ensures Contains(ContentType(req), Multipart) ==>
              Handle(env, req, decodedLength, upstream) == Response(400, Error(SendBase64Json))
    ensures !Contains(ContentType(req), Multipart) && !Contains(ContentType(req), Json) ==>
              Handle(env, req, decodedLength, upstream) == Response(400, Error(JsonRequired))
  {
  }

  /** A JSON POST whose `image` is absent, empty or otherwise falsy gets 400
      `Missing "image" field in request body`. */
  lemma {:induction false} MissingImageRefused<T>(env: ProxyEnv, req: Request, decodedLength: string -> nat,
                                                  upstream: Forward -> Upstream<Parsed<T>>)
    requires req.httpMethod == "POST"
    requires Contains(ContentType(req), Json) && !Contains(ContentType(req), Multipart)
    requires req.body.Fields? && req.body.image in {Absent, Text(""), Other(false)}
    ensures Handle(env, req, decodedLength, upstream) == Response(400, Error(MissingImage))
  {
  }

  /** A JSON POST whose image does not start with `data:image/` gets 400. */
  lemma {:induction false} NonDataUrlRefused<T>(env: ProxyEnv, req: Request, decodedLength: string -> nat,
                                                upstream: Forward -> Upstream<Parsed<T>>)
    requires req.httpMethod == "POST"
    requires Contains(ContentType(req), Json) && !Contains(ContentType(req), Multipart)
    requires HasImageText(req.body) && !StartsWith(req.body.image.text, DataImagePrefix)
    ensures Handle(env, req, decodedLength, upstream) == Response(400, Error(NotDataUrl))
  {
  }

  /** For a well-formed JSON POST the size limit is inclusive: exactly
      10 MiB is forwarded, one byte more gets 400. */
  lemma {:induction false} SizeBoundary<T>(env: ProxyEnv, req: Request, decodedLength: string -> nat,
                                           upstream: Forward -> Upstream<Parsed<T>>)
    requires req.httpMethod == "POST"
    requires Contains(ContentType(req), Json) && !Contains(ContentType(req), Multipart)
    requires HasImageText(req.body) && StartsWith(req.body.image.text, DataImagePrefix)
    requires AfterLast(req.body.image.text, Separator) != ""
    ensures decodedLength(AfterLast(req.body.image.text, Separator)) == MaxSize ==>
              Handle(env, req, decodedLength, upstream) ==
              Relay(env, DetectRoute, AfterLast(req.body.image.text, Separator), upstream, Checked)
    ensures decodedLength(AfterLast(req.body.image.text, Separator)) > MaxSize ==>
              Handle(env, req, decodedLength, upstream) == Response(400, Error(TooLarge))
  {
  }

  /** How the forwarded request's outcome becomes the response: 404 is a
      missing endpoint, another non-ok status is relayed, a timeout or an
      unreachable service is 503 and any other failure 500, including the
      format check throwing on a `null` result. */
  lemma {:induction false} UpstreamOutcomeMapping<T>(env: ProxyEnv, req: Request, decodedLength: string -> nat,
                                                     upstream: Forward -> Upstream<Parsed<T>>)
    requires req.httpMethod == "POST"
    requires Contains(ContentType(req), Json) && !Contains(ContentType(req), Multipart)
    requires CheckImage(req.body, decodedLength).Accepted?
    ensures var r := Handle(env, req, decodedLength, upstream);
            var answer := upstream(Forwarded(env, req.body.image.text));
            && (answer.Answered? && answer.status == 404 && answer.errorText.Success? ==>
                  r == Response(404, Error(NotFound)))
            && (answer.Answered? && !IsOk(answer.status) && answer.errorText.Failure? ==>
                  r == FromException(answer.errorText.error))
            && (answer.Answered? && !IsOk(answer.status) && answer.status != 404 && answer.errorText.Success? ==>
                  r == Response(answer.status, Error(UpstreamErrorPrefix + answer.statusText)))
            && (answer.Threw? && answer.error.name == "AbortError" ==> r == Response(503, Error(Timeout)))
            && (answer.Threw? && answer.error.name == "FetchError" ==> r == Response(503, Error(Unreachable)))
            && (answer.Threw? && answer.error.name !in {"AbortError", "FetchError"} ==>
                  r == Response(500, Error(InternalError)))
            && (answer.Answered? && IsOk(answer.status) && answer.body.Success? && answer.body.value.NonNull? ==>
                  r == Response(200, Body(answer.body.value.value)))
            && (answer.Answered? && IsOk(answer.status) && answer.body == Success(Null) ==>
                  r == Response(500, Error(InternalError)))
  {
  }
}
