/** The browser-side API client: data-URL to upload-body conversion, the two
    detection calls and their error contract, the health probe, and the two
    sequential batch helpers with per-view fault isolation.

    Every network exchange is an oracle parameter: `fetch(url, blob)` stands
    for the whole request/response exchange of one call, and `atob` for the
    browser's base64 decoder. */
module ApiClient {
  import opened Wrappers
  import opened Text
  import opened JsObject
  import opened Images
  import opened Backend
  import opened Base64

  /** One finding of the detection endpoint: `{name, confidence}`. */
  datatype Detection = Detection(name: string, confidence: real)

  /** The detection endpoint's JSON: `detect_objects_names`, and
      `detect_objects` when the response carries it. */
  datatype DetectionData = DetectionData(names: string, objects: Option<seq<Detection>>)

  /** An upload body: `new Blob([bytes], {type})`. */
  datatype Blob = Blob(contentType: Option<string>, bytes: seq<byte>)

  /** The outcome of one `detectObjectsFromImage` call, as the batch helper
      and the results page record it. */
  datatype ViewResult = Succeeded(data: DetectionData) | Failed(error: string)

  function ToViewResult(r: Result<DetectionData, string>): ViewResult {
    match r
    case Success(d) => Succeeded(d)
    case Failure(e) => Failed(e)
  }

  const ConversionError: string := "Failed to convert image data for upload"

  /** What `base64ToBlob` reads off its argument: `parts = s.split(';base64,')`,
      the content type `parts[0].split(':')[1]` and the payload `parts[1]`
      (each `undefined` when missing). */
  datatype DataUrlParts = DataUrlParts(contentType: Option<string>, payload: Option<string>)

  /** The payload is present exactly when the string contains `;base64,`,
      and then it is a piece that contains no further separator; the content
      type is present exactly when the head before the first separator has a
      `:`, and then contains no `:` itself. */
  function ParseDataUrl(s: string): (p: DataUrlParts)
    ensures p.payload.Some? <==> Contains(s, Separator)
    ensures p.payload.Some? ==> !Contains(p.payload.value, Separator)
    ensures p.contentType.Some? <==> Contains(Split(s, Separator)[0], ":")
    ensures p.contentType.Some? ==> !Contains(p.contentType.value, ":")
  {
    var parts := Split(s, Separator);
    SplitSingleIff(s, Separator);
    SplitSingleIff(parts[0], ":");
    DataUrlParts(Nth(Split(parts[0], ":"), 1), Nth(parts, 1))
  }

  /** Storing a UTF-16 code unit into a `Uint8Array` keeps it modulo 256. */
  function ByteOf(c: char): byte {
    (c as int % 256) as byte
  }

  /** The copy loop `uInt8Array[i] = raw.charCodeAt(i)`. */
  function CharCodes(raw: string): (bytes: seq<byte>)
    ensures |bytes| == |raw|
    ensures forall i :: 0 <= i < |raw| ==> bytes[i] == ByteOf(raw[i])
  {
    if |raw| == 0 then [] else CharCodes(raw[..|raw| - 1]) + [ByteOf(raw[|raw| - 1])]
  }

  /** `base64ToBlob`. A missing payload reaches `atob` as `undefined`, which
      JavaScript stringifies to "undefined"; every failure becomes the one
      conversion error. */
  function Base64ToBlob(dataUrl: string, atob: string -> Option<string>): (r: Result<Blob, string>)
    ensures var p := ParseDataUrl(dataUrl);
            var raw := atob(p.payload.GetOr("undefined"));
            && (r.Failure? <==> raw.None?)
            && (r.Failure? ==> r.error == ConversionError)
            && (r.Success? ==> r.value.contentType == p.contentType
                               && |r.value.bytes| == |raw.value|
                               && forall i :: 0 <= i < |raw.value| ==> r.value.bytes[i] == ByteOf(raw.value[i]))
  {
    var p := ParseDataUrl(dataUrl);
    match atob(p.payload.GetOr("undefined"))
    case None => Failure(ConversionError)
    case Some(raw) => Success(Blob(p.contentType, CharCodes(raw)))
  }

  /** One exchange with the backend: a response (its status, its text, and
      what reading its body as the expected type gave), or a rejected fetch. */
  datatype Reply<T> = Replied(status: nat, text: string, body: Result<T, string>) | Rejected(message: string)

  const StatusErrorPrefix: string := "API request failed with status "

  /** The message thrown for a non-ok response. */
  function StatusError(status: nat, text: string): string {
    StatusErrorPrefix + DecimalString(status) + ": " + text
  }

  /** The shared shape of `detectObjectsFromImage` and `getAnnotatedImage`:
      convert, post, reject non-ok responses, read the body. */
  function PostImage<T>(url: string, dataUrl: string, atob: string -> Option<string>,
                        fetch: (string, Blob) -> Reply<T>): (r: Result<T, string>)
    ensures Base64ToBlob(dataUrl, atob).Failure? ==> r == Failure(ConversionError)
    ensures r.Success? ==>
              && Base64ToBlob(dataUrl, atob).Success?
              && var reply := fetch(url, Base64ToBlob(dataUrl, atob).value);
              && reply.Replied? && IsOk(reply.status) && reply.body == r
    ensures Base64ToBlob(dataUrl, atob).Success? ==>
              var reply := fetch(url, Base64ToBlob(dataUrl, atob).value);
              && (reply.Rejected? ==> r == Failure(reply.message))
              && (reply.Replied? && !IsOk(reply.status) ==>
                    r == Failure(StatusError(reply.status, reply.text)) &&
                    StartsWith(r.error, StatusErrorPrefix + DecimalString(reply.status)))
              && (reply.Replied? && IsOk(reply.status) ==> r == reply.body)
  {
    match Base64ToBlob(dataUrl, atob)
    case Failure(e) => Failure(e)
    case Success(blob) =>
      match fetch(url, blob)
      case Rejected(m) => Failure(m)
      case Replied(status, text, body) =>
        if !IsOk(status) then
          var msg := StatusError(status, text);
          assert msg[..|StatusErrorPrefix + DecimalString(status)|] == StatusErrorPrefix + DecimalString(status);
          Failure(msg)
        else body
  }

  /** `detectObjectsFromImage`: the JSON detections of one image, posted to
      the backend's JSON route. Data comes back exactly from an ok reply
      there, and is that reply's parsed body; a rejected fetch or a non-ok
      status is an error. */
  function DetectObjectsFromImage(base: string, dataUrl: string, atob: string -> Option<string>,
                                  fetch: (string, Blob) -> Reply<DetectionData>): (r: Result<DetectionData, string>)
    ensures Base64ToBlob(dataUrl, atob).Failure? ==> r == Failure(ConversionError)
    ensures r.Success? ==>
              && Base64ToBlob(dataUrl, atob).Success?
              && var reply := fetch(base + DetectRoute, Base64ToBlob(dataUrl, atob).value);
              && reply.Replied? && IsOk(reply.status) && reply.body == r
    ensures Base64ToBlob(dataUrl, atob).Success? ==>
              var reply := fetch(base + DetectRoute, Base64ToBlob(dataUrl, atob).value);
              && (reply.Rejected? ==> r == Failure(reply.message))
              && (reply.Replied? && !IsOk(reply.status) ==> r == Failure(StatusError(reply.status, reply.text)))
              && (reply.Replied? && IsOk(reply.status) ==> r == reply.body)
  {
    PostImage(base + DetectRoute, dataUrl, atob, fetch)
  }

  /** `getAnnotatedImage`: the annotated picture, read back as a data URL,
      posted to the backend's image route. A picture comes back exactly from
      an ok reply there whose blob could be read; a rejected fetch or a
      non-ok status is an error. */
  function GetAnnotatedImage(base: string, dataUrl: string, atob: string -> Option<string>,
                             fetch: (string, Blob) -> Reply<string>): (r: Result<string, string>)
    ensures Base64ToBlob(dataUrl, atob).Failure? ==> r == Failure(ConversionError)
    ensures r.Success? ==>
              && Base64ToBlob(dataUrl, atob).Success?
              && var reply := fetch(base + AnnotateRoute, Base64ToBlob(dataUrl, atob).value);
              && reply.Replied? && IsOk(reply.status) && reply.body == r
    ensures Base64ToBlob(dataUrl, atob).Success? ==>
              var reply := fetch(base + AnnotateRoute, Base64ToBlob(dataUrl, atob).value);
              && (reply.Rejected? ==> r == Failure(reply.message))
              && (reply.Replied? && !IsOk(reply.status) ==> r == Failure(StatusError(reply.status, reply.text)))
              && (reply.Replied? && IsOk(reply.status) ==> r == reply.body)
  {
    PostImage(base + AnnotateRoute, dataUrl, atob, fetch)
  }

  /** A non-ok detection response is always an error naming the status; it never yields data. */
  lemma DetectRejectsNonOk(base: string, dataUrl: string, atob: string -> Option<string>,
                           fetch: (string, Blob) -> Reply<DetectionData>)
    requires Base64ToBlob(dataUrl, atob).Success?
    requires var reply := fetch(base + DetectRoute, Base64ToBlob(dataUrl, atob).value);
             reply.Replied? && !IsOk(reply.status)
    ensures var r := DetectObjectsFromImage(base, dataUrl, atob, fetch);
            var reply := fetch(base + DetectRoute, Base64ToBlob(dataUrl, atob).value);
            r.Failure? && StartsWith(r.error, StatusErrorPrefix + DecimalString(reply.status))
  {
  }

  /** The health probe's exchange: a response (status, and whether its body
      parsed as JSON), or a thrown error such as the 5-second `TimeoutError`. */
  datatype ProbeReply = Probed(status: nat, jsonParses: bool) | ProbeFailed(errorName: string)

  /** `checkApiHealth`: a boolean, never an exception. It is true only for an
      ok response whose body parses; a non-ok status, a timeout or any other
      thrown error gives false. */
  function CheckApiHealth(base: string, probe: string -> ProbeReply): (healthy: bool)
    ensures var reply := probe(base + HealthRoute);
            healthy <==> reply.Probed? && IsOk(reply.status) && reply.jsonParses
  {
    match probe(base + HealthRoute)
    case ProbeFailed(_) => false
    case Probed(status, parses) => IsOk(status) && parses
  }

  /** After the first `n` entries of a batch loop: the output has a key
      exactly for the truthy entries seen so far, each holding `f` of its
      view and image. */
  ghost predicate Recorded<K(!new), V>(images: Obj<K, Slot>, n: nat, out: Obj<K, V>, f: (K, string) -> V)
    requires n <= |images|
  {
    && Wf(out)
    && (forall k :: k in Keys(out) <==> exists j :: 0 <= j < n && images[j].0 == k && images[j].1.Truthy())
    && (forall j :: 0 <= j < n && images[j].1.Truthy() ==> Get(out, images[j].0) == Some(f(images[j].0, images[j].1.url)))
  }

  /** One loop step: record entry `n` when its image is truthy. */
  lemma RecordStep<K(!new), V>(images: Obj<K, Slot>, n: nat, out: Obj<K, V>, f: (K, string) -> V)
    requires Wf(images) && n < |images| && Recorded(images, n, out, f)
    ensures Recorded(images, n + 1, if images[n].1.Truthy() then Put(out, images[n].0, f(images[n].0, images[n].1.url)) else out, f)
  {
    if images[n].1.Truthy() {
      RecordPut(images, n, out, f);
    } else {
      RecordSkip(images, n, out, f);
    }
  }

  /** An untruthy entry adds nothing. */
  lemma RecordSkip<K(!new), V>(images: Obj<K, Slot>, n: nat, out: Obj<K, V>, f: (K, string) -> V)
    requires n < |images| && !images[n].1.Truthy() && Recorded(images, n, out, f)
    ensures Recorded(images, n + 1, out, f)
  {
    forall k
      ensures k in Keys(out) <==> exists j :: 0 <= j < n + 1 && images[j].0 == k && images[j].1.Truthy()
    {
      if j :| 0 <= j < n + 1 && images[j].0 == k && images[j].1.Truthy() {
        assert j < n;
      }
    }
  }

  /** A truthy entry is stored under its view, a key no earlier entry has. */
  lemma RecordPut<K(!new), V>(images: Obj<K, Slot>, n: nat, out: Obj<K, V>, f: (K, string) -> V)
    requires Wf(images) && n < |images| && images[n].1.Truthy() && Recorded(images, n, out, f)
    ensures Recorded(images, n + 1, Put(out, images[n].0, f(images[n].0, images[n].1.url)), f)
  {
    RecordPutKeys(images, n, out, f);
    RecordPutValues(images, n, out, f);
  }

  /** The keys after storing entry `n` are those of the truthy entries up to `n`. */
  lemma RecordPutKeys<K(!new), V>(images: Obj<K, Slot>, n: nat, out: Obj<K, V>, f: (K, string) -> V)
    requires n < |images| && images[n].1.Truthy() && Recorded(images, n, out, f)
    ensures var out' := Put(out, images[n].0, f(images[n].0, images[n].1.url));
            forall k' :: k' in Keys(out') <==> exists j :: 0 <= j < n + 1 && images[j].0 == k' && images[j].1.Truthy()
  {
    var k := images[n].0;
    var out' := Put(out, k, f(k, images[n].1.url));
    assert Keys(out') == Keys(out) + {k};
    forall k'
      ensures k' in Keys(out') <==> exists j :: 0 <= j < n + 1 && images[j].0 == k' && images[j].1.Truthy()
    {
      if k' == k {
        assert images[n].0 == k';
      } else if j :| 0 <= j < n + 1 && images[j].0 == k' && images[j].1.Truthy() {
        assert j < n;
      }
    }
  }

  /** Storing entry `n` keeps every earlier truthy entry's value. */
  lemma RecordPutValues<K(!new), V>(images: Obj<K, Slot>, n: nat, out: Obj<K, V>, f: (K, string) -> V)
    requires Wf(images) && n < |images| && images[n].1.Truthy() && Recorded(images, n, out, f)
    ensures var out' := Put(out, images[n].0, f(images[n].0, images[n].1.url));
            forall j :: 0 <= j < n + 1 && images[j].1.Truthy() ==> Get(out', images[j].0) == Some(f(images[j].0, images[j].1.url))
  {
    var k := images[n].0;
    var out' := Put(out, k, f(k, images[n].1.url));
    forall j | 0 <= j < n + 1 && images[j].1.Truthy()
      ensures Get(out', images[j].0) == Some(f(images[j].0, images[j].1.url))
    {
      if j < n {
        KeysDistinct(images, j, n);
        assert Get(out', images[j].0) == Get(out, images[j].0);
      }
    }
  }

  /** `detectObjectsFromMultipleImages`: sequentially, for each entry with a
      truthy image, one detection call; a failure is recorded for that view
      and the loop goes on. `detect(k, url)` is the outcome of the call made
      for view `k`. */
  method DetectObjectsFromMultipleImages<K(==, !new)>(images: Obj<K, Slot>,
                                                      detect: (K, string) -> Result<DetectionData, string>)
    returns (results: Obj<K, ViewResult>)
    requires Wf(images)
    ensures Wf(results)
    ensures forall k :: k in Keys(results) <==> HasImage(images, k)
    ensures forall i :: 0 <= i < |images| && images[i].1.Truthy() ==>
              Get(results, images[i].0) == Some(ToViewResult(detect(images[i].0, images[i].1.url)))
  {
    var f := (k: K, url: string) => ToViewResult(detect(k, url));
    results := [];
    var i := 0;
    while i < |images|
      invariant 0 <= i <= |images|
      invariant Recorded(images, i, results, f)
    {
      RecordStep(images, i, results, f);
      var (k, slot) := images[i];
      if slot.Truthy() {
        results := Put(results, k, f(k, slot.url));
      }
      i := i + 1;
    }
    TruthyEntries(images);
  }

  /** `getAnnotatedImagesForAllViews`: sequentially, for each entry with a
      truthy image, the annotated image, or the original data URL unchanged
      when annotation fails. */
  method GetAnnotatedImagesForAllViews<K(==, !new)>(images: Obj<K, Slot>,
                                                    annotate: (K, string) -> Result<string, string>)
    returns (annotated: Obj<K, string>)
    requires Wf(images)
    ensures Wf(annotated)
    ensures forall k :: k in Keys(annotated) <==> HasImage(images, k)
    ensures forall i :: 0 <= i < |images| && images[i].1.Truthy() ==>
              Get(annotated, images[i].0) == Some(AnnotatedOrOriginal(annotate(images[i].0, images[i].1.url), images[i].1.url))
  {
    var f := (k: K, url: string) => AnnotatedOrOriginal(annotate(k, url), url);
    annotated := [];
    var i := 0;
    while i < |images|
      invariant 0 <= i <= |images|
      invariant Recorded(images, i, annotated, f)
    {
      RecordStep(images, i, annotated, f);
      var (k, slot) := images[i];
      if slot.Truthy() {
        annotated := Put(annotated, k, f(k, slot.url));
      }
      i := i + 1;
    }
    TruthyEntries(images);
  }

  /** The annotated image, or the original when the call threw. */
  function AnnotatedOrOriginal(r: Result<string, string>, original: string): string {
    match r
    case Success(a) => a
    case Failure(_) => original
  }

  /** A key holds a truthy image exactly when some entry lists it with one. */
  lemma TruthyEntries<K>(images: Obj<K, Slot>)
    requires Wf(images)
    ensures forall k :: HasImage(images, k) <==> exists j :: 0 <= j < |images| && images[j].0 == k && images[j].1.Truthy()
  {
    forall k
      ensures HasImage(images, k) <==> exists j :: 0 <= j < |images| && images[j].0 == k && images[j].1.Truthy()
    {
      if j :| 0 <= j < |images| && images[j].0 == k && images[j].1.Truthy() {
        GetEntry(images, j);
      }
      if HasImage(images, k) {
        var v := Get(images, k).value;
        var j :| 0 <= j < |images| && images[j] == (k, v);
      }
    }
  }
}
