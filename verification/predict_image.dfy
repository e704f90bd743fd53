/** `api/predict-image.js`: the same request validation with a JSON-only
    content-type rule, forwarded to the Space's annotation route; the
    returned picture is sent back as a data URL. `encode` is
    `buffer.toString('base64')`. */
module PredictImage {
  import opened Wrappers
  import opened Text
  import opened Backend
  import opened Base64
  import opened Proxy
  import Env
  import PredictJson

  const DefaultMime: string := "image/jpeg"

  /** `{ image: dataUrl, size, mimeType }` */
  datatype Annotated = Annotated(image: string, size: nat, mimeType: string)

  /** `data:${mimeType};base64,${base64Image}` */
  function DataUrl(mime: string, b64: string): string {
    "data:" + mime + Separator + b64
  }

  /** The 200 body built from the upstream's content type and bytes, with
      `image/jpeg` when the header is missing or empty. */
  function Build(encode: seq<byte> -> Base64Text, contentType: Option<string>, bytes: seq<byte>): (a: Annotated)
    ensures a.size == |bytes|
    ensures Env.IsSet(contentType) ==> a.mimeType == contentType.value
    ensures !Env.IsSet(contentType) ==> a.mimeType == DefaultMime
    ensures a.image == DataUrl(a.mimeType, encode(bytes))
  {
    var mime := Env.Or(contentType, DefaultMime);
    Annotated(DataUrl(mime, encode(bytes)), |bytes|, mime)
  }

  /** The request an accepted call forwards: to the annotation route. */
  function Forwarded(env: ProxyEnv, image: string): Forward {
    Forward(SpaceUrl(env) + AnnotateRoute, Authorization(env), AfterLast(image, Separator))
  }

  /** The handler. A 200 with a body happens only for a JSON request whose
      image passed the validation chain and whose forwarded request got an
      ok answer with readable bytes; the body describes exactly those bytes. */
  function Handle(env: ProxyEnv, req: Request, decodedLength: string -> nat,
                  upstream: Forward -> Upstream<seq<byte>>, encode: seq<byte> -> Base64Text): (r: Response<Annotated>)
    ensures r.payload.Body? ==>
              && req.httpMethod == "POST"
              && Contains(PredictJson.ContentType(req), PredictJson.Json)
              && CheckImage(req.body, decodedLength).Accepted?
              && var answer := upstream(Forwarded(env, req.body.image.text));
              && answer.Answered? && IsOk(answer.status) && answer.body.Success?
              && r.payload.value == Build(encode, answer.contentType, answer.body.value)
              && r.status == 200
    ensures r.status in {200, 400, 404, 405, 500, 503} ||
            (HasImageText(req.body) &&
             var answer := upstream(Forwarded(env, req.body.image.text));
             answer.Answered? && !IsOk(answer.status) && answer.errorText.Success? && r.status == answer.status)
  {
    match MethodGate(req.httpMethod, "POST")
    case Some(early) => early
    case None =>
      if Contains(PredictJson.ContentType(req), PredictJson.Json) then
        HandleJson(env, req.body, decodedLength, AnnotateRoute, upstream,
                   (ct: Option<string>, bytes: seq<byte>) => Success(Build(encode, ct, bytes)))
      else Response(400, Error(JsonRequired))
  }

  /** Preflight and method come first, as in the JSON handler. */
  lemma {:induction false} MethodDecidedFirst(env: ProxyEnv, req: Request, decodedLength: string -> nat,
                                              upstream: Forward -> Upstream<seq<byte>>, encode: seq<byte> -> Base64Text)
    requires req.httpMethod != "POST"
    ensures req.httpMethod == "OPTIONS" ==> Handle(env, req, decodedLength, upstream, encode) == Response(200, Empty)
    ensures req.httpMethod != "OPTIONS" ==>
              Handle(env, req, decodedLength, upstream, encode) == Response(405, Error("Method not allowed. Use POST."))
  {
    assert "Method not allowed. Use " + "POST" + "." == "Method not allowed. Use POST.";
  }

  /** Any content type without `application/json`, multipart included, is
      refused with the JSON-required message. */
  lemma {:induction false} OnlyJsonAccepted(env: ProxyEnv, req: Request, decodedLength: string -> nat,
                                            upstream: Forward -> Upstream<seq<byte>>, encode: seq<byte> -> Base64Text)
    requires req.httpMethod == "POST" && !Contains(PredictJson.ContentType(req), PredictJson.Json)
    ensures Handle(env, req, decodedLength, upstream, encode) == Response(400, Error(JsonRequired))
  {
  }

  /** The two handlers refuse the same requests except multipart ones that
      also mention JSON: when the content type has no multipart, a request
      is refused with status 400 by one exactly when by the other, with the
      same message. */
  lemma {:induction false} SameRefusalsAsJsonHandler<T>(env: ProxyEnv, req: Request, decodedLength: string -> nat,
                                                        up: Forward -> Upstream<seq<byte>>, encode: seq<byte> -> Base64Text,
                                                        upJson: Forward -> Upstream<PredictJson.Parsed<T>>)
    requires req.httpMethod == "POST" && !Contains(PredictJson.ContentType(req), PredictJson.Multipart)
    requires !CheckImage(req.body, decodedLength).Accepted?
    ensures Handle(env, req, decodedLength, up, encode).status == PredictJson.Handle(env, req, decodedLength, upJson).status
    ensures Handle(env, req, decodedLength, up, encode).payload.Error? &&
            PredictJson.Handle(env, req, decodedLength, upJson).payload.Error? &&
            Handle(env, req, decodedLength, up, encode).payload.message ==
            PredictJson.Handle(env, req, decodedLength, upJson).payload.message
  {
    if Contains(PredictJson.ContentType(req), PredictJson.Json) {
      var c := CheckImage(req.body, decodedLength);
      var expected: Response<Annotated> := if c.Rejected? then Response(400, Error(c.message)) else Response(500, Error(InternalError));
      var expectedJson: Response<T> := if c.Rejected? then Response(400, Error(c.message)) else Response(500, Error(InternalError));
      assert Handle(env, req, decodedLength, up, encode) == expected;
      assert PredictJson.Handle(env, req, decodedLength, upJson) == expectedJson;
    }
  }

  /** The validation chain is the JSON handler's: absent or falsy image,
      wrong prefix, empty payload and oversize payload give the same 400s. */
  lemma {:induction false} ImageChecks(env: ProxyEnv, req: Request, decodedLength: string -> nat,
                                       upstream: Forward -> Upstream<seq<byte>>, encode: seq<byte> -> Base64Text)
    requires req.httpMethod == "POST" && Contains(PredictJson.ContentType(req), PredictJson.Json)
    ensures req.body.Fields? && req.body.image in {Absent, Text(""), Other(false)} ==>
              Handle(env, req, decodedLength, upstream, encode) == Response(400, Error(MissingImage))
    ensures HasImageText(req.body) && !StartsWith(req.body.image.text, DataImagePrefix) ==>
              Handle(env, req, decodedLength, upstream, encode) == Response(400, Error(NotDataUrl))
    ensures HasImageText(req.body) && StartsWith(req.body.image.text, DataImagePrefix) &&
            AfterLast(req.body.image.text, Separator) == "" ==>
              Handle(env, req, decodedLength, upstream, encode) == Response(400, Error(BadFormat))
    ensures HasImageText(req.body) && StartsWith(req.body.image.text, DataImagePrefix) &&
            AfterLast(req.body.image.text, Separator) != "" &&
            decodedLength(AfterLast(req.body.image.text, Separator)) > MaxSize ==>
              Handle(env, req, decodedLength, upstream, encode) == Response(400, Error(TooLarge))
  {
  }

  /** The forwarded request's outcome maps to statuses as in the JSON handler. */
  lemma {:induction false} UpstreamOutcomeMapping(env: ProxyEnv, req: Request, decodedLength: string -> nat,
                                                  upstream: Forward -> Upstream<seq<byte>>, encode: seq<byte> -> Base64Text)
    requires req.httpMethod == "POST" && Contains(PredictJson.ContentType(req), PredictJson.Json)
    requires CheckImage(req.body, decodedLength).Accepted?
    ensures var r := Handle(env, req, decodedLength, upstream, encode);
            var answer := upstream(Forwarded(env, req.body.image.text));
            && (answer.Answered? && answer.status == 404 && answer.errorText.Success? ==>
                  r == Response(404, Error(NotFound)))
            && (answer.Answered? && !IsOk(answer.status) && answer.errorText.Failure? ==>
                  r == FromException(answer.errorText.error))
            && (answer.Answered? && !IsOk(answer.status) && answer.status != 404 && answer.errorText.Success? ==>
                  r == Response(answer.status, Error(UpstreamErrorPrefix + answer.statusText)))
            && (answer.Threw? ==> r.status == (if answer.error.name in {"AbortError", "FetchError"} then 503 else 500))
            && (answer.Answered? && IsOk(answer.status) && answer.body.Success? ==>
                  r == Response(200, Body(Build(encode, answer.contentType, answer.body.value))))
  {
  }
}
