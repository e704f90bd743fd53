# TeledentAI frontend core, modelled in Dafny

TeledentAI screens for dental conditions from five intra-oral photographs.
The web app's **Capture** page collects the five views (front, left, right,
upper, lower) as `data:` URLs. The **Results** page sends each one to a
YOLO detection backend, which returns JSON detections and an annotated
picture, and summarises the outcome. Three serverless **proxy** functions
sit in front of the Hugging Face Space that hosts the backend:
`/api/predict-json`, `/api/predict-image` and `/api/health`.

This project models these parts as pure functions over immutable data:

- the Capture page's slot bookkeeping and proceed rule;
- the client API service;
- the Results page's `processImages` and `getOverallStatus`;
- the three proxies;
- the client configuration.

Remote calls, the base64 codecs and the clock are not modelled. They
become function-valued parameters (oracles), so every property holds
whatever the network or the Space does.

Modules, one per concern:

| module | file | what it holds |
|---|---|---|
| `Wrappers` | wrappers.dfy | `Option`, `Result` |
| `Text` | text.dfy | `startsWith`, `includes`, `indexOf`, `split`, `split(..).pop()`, `String(n)` |
| `JsObject` | jsobject.dfy | a JavaScript object as an ordered list of distinct keys: lookup, spread-update |
| `Env` | env.dfy | `process.env.X || fallback` |
| `Images` | images.dfy | a stored image value and its truthiness |
| `ApiConfig` | config.dfy | `API_BASE_URL`, `API_ENDPOINTS`, `getApiUrl`, `MAX_IMAGE_SIZE` |
| `Capture` | capture.dfy | `SLOTS`, the counts, snap / upload / replace, proceed |
| `Backend` | backend.dfy | the backend's three routes and the `response.ok` range |
| `Base64` | base64.dfy | the `;base64,` separator and the base64 alphabet |
| `ApiClient` | client.dfy | `base64ToBlob`, the two POST helpers, `checkApiHealth`, the two batch helpers |
| `Results` | results.dfy | `processImages`, the display fallback, `getOverallStatus` |
| `Proxy` | proxy.dfy | what the two predict proxies share: method gate, image validation, relay and error mapping |
| `PredictJson` | predict_json.dfy | `api/predict-json.js` |
| `PredictImage` | predict_image.dfy | `api/predict-image.js` |
| `Health` | health.dfy | `api/health.js` |
| `Interop` | interop.dfy | how the pieces fit: data-URL round trip, client URLs versus proxy routes, shared size limit |

## Modelling choices

- **JavaScript objects.** An object is a sequence of `(key, value)` pairs
  with distinct keys, in insertion order. `Object.entries` is the
  sequence itself. `{ ...o, [k]: v }` and `o[k] = v` keep an existing
  key's position and append a new key, as JavaScript does for string keys.
- **Truthiness.** An image slot is `Undefined` or `Url(s)`; it is truthy
  when `s` is non-empty. An environment variable is `Option<string>`; it
  is "set" when it is present and non-empty.
- **Concurrency.** The Results page starts all view tasks with
  `Promise.all`. No task reads another's outcome, so the model runs them
  in entry order. The merged maps are then independent of order
  (`Results.EntryOrderIrrelevant`). Progress records the start of each
  task in entry order.
- **Remote outcomes.** These are parameters:
  - `detect` and `annotate` are the two backend calls, as seen by the page;
  - `probe` is the health fetch;
  - `fetch` is the raw exchange inside the POST helpers;
  - `upstream` is the proxies' call to the Space;
  - `decodedLength` is `Buffer.from(b, 'base64').length`;
  - `atob` and `encode` are the codecs.
- **Status codes** are naturals. `response.ok` is `200..299`.

### Where the project's documentation and the code differ

The model follows the code in each of these cases.

- `checkApiHealth` is true only when the response is ok **and** its body
  parses as JSON (`src/services/api.js:224-227`). A parse failure is
  caught and gives false. It is not simply "true iff ok".
- The client calls the backend routes directly: `${API_BASE_URL}/healthcheck`
  and `/img_object_detection_to_json|img`. It does not call the `/api/*`
  routes that `API_ENDPOINTS` lists, because `getApiUrl` is never used by
  the service (`Interop.ClientCallsBypassProxies`).
- `processingProgress.current` counts tasks as they *start*
  (`index + 1`), not as they finish.
- The JSON proxy checks for multipart before JSON. A content type that
  mentions both is told to send base64 JSON. The image proxy checks only
  for JSON, so it forwards such a request
  (`PredictImage.SameRefusalsAsJsonHandler` is stated for non-multipart
  requests only).

## Model

| member | source | states |
|---|---|---|
| Text.IndexOf | api/predict-json.js:86 | the first occurrence of the pattern, found exactly when the string contains it |
| Text.Split | src/services/api.js:32-33 | `split` with a non-empty separator gives at least one piece and no piece contains the separator |
| Text.JoinSplit | src/services/api.js:32 | splitting loses nothing: joining the pieces with the separator rebuilds the string |
| Text.SplitLastIsSuffix | api/predict-json.js:86 | a single piece exactly when the separator is absent; otherwise the last piece is what follows the last separator |
| Text.AfterLast | api/predict-json.js:86 | `split(sep).pop()` contains no separator; it is the whole string when there is none, and otherwise the suffix right after the last separator |
| Text.DecimalStringRoundTrip | src/services/api.js:109 | the decimal rendering of a status code reads back as that code |
| JsObject.Get | src/Pages/Capture.js:33 | a lookup is defined exactly for the object's keys and returns the listed value |
| JsObject.Put | src/Pages/Capture.js:62 | the spread update adds the key, stores the value, leaves every other key's lookup alone and keeps keys distinct |
| JsObject.KeyCount | src/Pages/Capture.js:33 | a well-formed object has as many keys as entries |
| Env.Or | api/health.js:48 | `X || fallback` is the variable when it is set and the fallback otherwise |
| ApiConfig.ApiBaseUrl | src/config/apiConfig.js:23 | the base is empty (same origin) exactly when `REACT_APP_API_URL` is unset or empty, and is that variable otherwise |
| ApiConfig.GetApiUrl | src/config/apiConfig.js:57-59 | the URL is the base followed by the mapped route for a table key, or by the argument itself otherwise |
| ApiConfig.RoutesAreProxyRoutes | src/config/apiConfig.js:30-34 | every mapped route lies under `/api/`, and distinct keys map to distinct routes |
| ApiConfig.DefaultDetectJsonUrl | src/config/apiConfig.js:23 | with `REACT_APP_API_URL` unset or empty, the endpoints resolve to same-origin `/api/...` routes |
| Capture.SlotsAreTheFiveViews | src/Pages/Capture.js:18 | `SLOTS` lists each of the five views once, under distinct names, and the required count is 5 |
| Capture.CapturedViewsHaveImages | src/Pages/Capture.js:33 | a view counts as captured exactly when its stored value is truthy |
| Capture.CountIsCapturedViews | src/Pages/Capture.js:33 | the filtered count equals the number of views holding a truthy image |
| Capture.CountAtMostRequired | src/Pages/Capture.js:33-35 | the captured count never exceeds the five required |
| Capture.AllCapturedIffEveryView | src/Pages/Capture.js:35 | all images are captured exactly when every one of the five views holds a truthy image |
| Capture.Remaining | src/Pages/Capture.js:127 | the number still to take is five minus the captured views; it is zero exactly when all are captured |
| Capture.CountAfterPut | src/Pages/Capture.js:62 | storing a value under one view changes the count only through that view's old and new truthiness |
| Capture.FullCountMeansAllTruthy | src/Pages/Capture.js:33 | the count is at most the number of entries, and equals it only when every entry is truthy |
| Capture.Snap | src/Pages/Capture.js:48-63 | on a view without an image (the `<video>` element is mounted) the frame's data URL is stored under it; on a captured view (`videoRef.current` is null) nothing changes; no other view changes either way |
| Capture.SnapKeepsCapturedView | src/Pages/Capture.js:49 | snapping a view that holds an image leaves that image, the count and the proceed gate as they were |
| Capture.Upload | src/Pages/Capture.js:65-71 | a read file's data URL is stored under the current view and nothing else changes; with no file, nothing changes |
| Capture.Replace | src/Pages/Capture.js:279 | the current view becomes untruthy, the other views are untouched, and the count drops exactly when the view held an image |
| Capture.RetakeKeepsCount | src/Pages/Capture.js:62-69 | a captured view is retaken by uploading over it or by Replace followed by Snap; either way it ends with the new picture and the count is unchanged |
| Capture.FirstCaptureCounts | src/Pages/Capture.js:62-69 | filling an empty view by snap or by upload raises the count by one |
| Capture.ProceedAction | src/Pages/Capture.js:331-341 | the click handler navigates to `/results` with the images exactly when all are captured; otherwise it alerts with 5 required and the current count (a branch the rendered button never reaches, see `Capture.ProceedButton`) |
| Capture.ProceedButton | src/Pages/Capture.js:331-343 | the rendered button is disabled below five, so a click does something exactly when all are captured, and then it navigates to `/results` with the images |
| Capture.CapturedCount | src/Pages/Capture.js:33 | the count never exceeds the number of entries, and is zero exactly when no entry holds a truthy image |
| Capture.AllImagesCaptured | src/Pages/Capture.js:35 | all captured needs at least five entries (the views they must be are stated by `Capture.AllCapturedIffEveryView`) |
| Capture.InitialHasNothingCaptured | src/Pages/Capture.js:22-35 | the page starts with no image, five remaining and the proceed button disabled |
| Capture.Select | src/Pages/Capture.js:163 | choosing a view changes only the selection: images, camera state and count stay the same |
| Capture.NavigationCarriesFiveImages | src/Pages/Capture.js:341 | the images handed to the results page hold exactly the five views, each with a truthy image |
| Base64.NoSemicolon | api/predict-image.js:192 | base64 text never contains `;`, so it cannot contain the `;base64,` separator |
| ApiClient.CharCodes | src/services/api.js:40-43 | the byte array has the decoded string's length, and each byte is that character's code kept modulo 256 |
| ApiClient.ParseDataUrl | src/services/api.js:32-33 | the payload is present exactly when the URL contains `;base64,`, and then holds no further separator; the media type is present exactly when the head has a `:`, and then holds no `:` |
| ApiClient.Base64ToBlob | src/services/api.js:29-53 | conversion fails, with the single conversion message, exactly when decoding the text after `;base64,` fails; a blob has the media type between `:` and `;base64,` and the decoded bytes |
| ApiClient.PostImage | src/services/api.js:74-123 | a conversion failure is the conversion error; otherwise a rejected fetch is its message, a non-ok response is the error `API request failed with status <status>: <text>`, and an ok response gives exactly its read body |
| ApiClient.DetectObjectsFromImage | src/services/api.js:74-123 | posting to the JSON detection route: a conversion failure is the conversion error, a rejected fetch its message, a non-ok reply the status error, and an ok reply gives exactly its parsed body |
| ApiClient.GetAnnotatedImage | src/services/api.js:138-195 | posting to the image route: a conversion failure is the conversion error, a rejected fetch its message, a non-ok reply the status error, and an ok reply gives exactly what reading its blob as a data URL gave |
| ApiClient.DetectRejectsNonOk | src/services/api.js:106-110 | a non-ok detection response always gives an error starting with the status message, never data |
| ApiClient.CheckApiHealth | src/services/api.js:209-236 | healthy exactly when the `/healthcheck` probe answered with an ok status and a body that parses; a timeout or other thrown error is unhealthy |
| ApiClient.DetectObjectsFromMultipleImages | src/services/api.js:249-278 | the result has a key exactly for each view with a truthy image, holding that view's success with its data or failure with its message |
| ApiClient.GetAnnotatedImagesForAllViews | src/services/api.js:289-313 | the result has a key exactly for each view with a truthy image, holding the annotated image or, when annotation fails, the original |
| ApiClient.TruthyEntries | src/services/api.js:254-255 | a key holds a truthy image exactly when some entry lists it with one |
| Results.AnalyzeView | src/Pages/Results.js:110-154 | each view's task calls detect first; it calls annotate exactly when detect succeeded; it succeeds exactly when detect did; an annotate failure leaves it successful without an annotated image; a detect failure records the thrown message |
| Results.Tasks | src/Pages/Results.js:100-110 | one task per entry, in entry order, each the analysis of that entry |
| Results.ProcessImages | src/Pages/Results.js:70-190 | an empty object leaves the page as it is; otherwise loading ends and the connection flag is the probe's verdict; a failed probe shows the connectivity error and makes no call; a healthy run keeps the error, only appends to the call log, and adds one progress value more than there are entries |
| Results.FirstRunFromInitialScreen | src/Pages/Results.js:30-91 | starting from the first render (loading, disconnected, no error, empty maps), a run ends loading; a failed probe leaves the maps empty, makes no call and shows only the connectivity error; a healthy run shows no error and one more progress value than entries |
| Results.NoImagesNoRun | src/Pages/Results.js:73-75 | an empty images object leaves the page untouched |
| Results.UnhealthyRunMakesNoCalls | src/Pages/Results.js:80-91 | a failed health check sets the connectivity error key, clears loading and the connection flag, and makes no detect or annotate call |
| Results.EveryEntryYieldsOneResult | src/Pages/Results.js:157-179 | after a healthy run, the results map has exactly one key per image entry, holding that view's own task outcome |
| Results.AnnotatedOnlyWhenAnnotationSucceeded | src/Pages/Results.js:166-175 | after a healthy run, the annotated map holds a view's image exactly when its detect succeeded and its annotate returned a non-empty image |
| Results.AnnotateOnlyAfterDetect | src/Pages/Results.js:124-136 | in a healthy run, every view gets its detect call, a view's annotate call happens exactly when its detect succeeded, and every call is for a view of the input |
| Results.SiblingsDoNotInterfere | src/Pages/Results.js:110-154 | a view's stored result depends only on its own calls' outcomes, whatever other views' calls return |
| Results.EntryOrderIrrelevant | src/Pages/Results.js:157-175 | two objects listing the same view/image pairs in any order give the same results lookups |
| Results.ProgressStaysInRange | src/Pages/Results.js:103-120 | progress starts at 0 of n, then gives one update per entry naming its view with `1 <= current <= total = n`, strictly increasing up to n |
| Results.DisplayFallsBackToOriginal | src/Pages/Results.js:549 | the analysis column shows the annotated image when detect and annotate succeeded with a non-empty image, and the original image otherwise |
| Results.OverallStatus | src/Pages/Results.js:195-209 | the issue flag and the total always agree: issues are reported exactly when the total is positive |
| Results.AnalysisImage | src/Pages/Results.js:549 | a truthy annotated image is shown; otherwise the original one; the column is blank only when neither exists |
| Results.HasIssuesIffDetections | src/Pages/Results.js:195-209 | the issue flag is set exactly when the total is positive, and exactly when some successful result has a detection |
| Results.FailuresDoNotCount | src/Pages/Results.js:199-206 | the summary of all results equals the summary of the successful ones alone |
| Results.SucceededOnly | src/Pages/Results.js:200 | an entry is kept exactly when it succeeded: every kept entry is a successful input entry, every successful input entry is kept, and an all-successful list is kept whole |
| Proxy.TooLargeNamesTheLimit | api/predict-json.js:102-106 | the size message is the template with `MAX_SIZE / 1024 / 1024` rendered, i.e. 10MB |
| Proxy.Authorization | api/predict-json.js:117-125 | a bearer header is sent exactly when the token is set, and it carries that token |
| Proxy.MethodGate | api/predict-json.js:47-55 | preflight gets an empty 200, any method other than the allowed one a 405 naming it, and only the allowed method passes |
| Proxy.CheckImage | api/predict-json.js:72-107 | an image is accepted exactly when it is a non-empty string starting `data:image/` whose text after the last `;base64,` is non-empty and decodes to at most 10 MiB; a missing body or a truthy non-string throws a TypeError; a falsy image is the missing-field refusal |
| Proxy.FromException | api/predict-json.js:204-226 | a timeout abort or a network failure is 503; any other thrown error is 500 |
| Proxy.FromUpstreamStatus | api/predict-json.js:147-191 | a non-ok upstream status is relayed as the response status; 404 is reported as a missing endpoint and others with the upstream's status text |
| Proxy.Relay | api/predict-json.js:137-226 | a 200 with a body is given exactly when the Space answered ok with a readable body and the success step did not throw, and the body is what that step built; a throwing success step, a failed error-text read and a thrown fetch map through the exception rule; a non-ok answer whose text was read maps through the status rule |
| Proxy.HandleJson | api/predict-json.js:72-94 | a refused image is a 400 with its message, a thrown validation error is 500, and an accepted image is relayed |
| Proxy.RejectionIgnoresUpstream | api/predict-json.js:72-107 | a request refused by validation gets the same 400 or 500 whatever the Space would answer |
| Proxy.OnlyTheForwardedRequestMatters | api/predict-json.js:117-137 | an accepted request's response depends only on the Space's answer to the one forwarded request |
| Proxy.SizeLimitIsInclusive | api/predict-json.js:102-103 | a payload decoding to exactly 10 MiB is accepted, and one byte more is refused |
| Proxy.PayloadWithoutSeparator | api/predict-json.js:86 | without any `;base64,`, the whole string is taken as the payload |
| Proxy.EmptyPayloadRefused | api/predict-json.js:86-90 | any `data:image/...` URL that ends at its only `;base64,` (e.g. `data:image/png;base64,`) is refused as an invalid format |
| PredictJson.Checked | api/predict-json.js:194-200 | the format check fails, with a `TypeError`, exactly on a `null` result, and otherwise passes the parsed value on unchanged |
| PredictJson.Handle | api/predict-json.js:28-227 | a 200 body occurs only for a JSON, non-multipart POST whose image was accepted and whose forwarded request got an ok answer parsing to a non-null JSON value, and it is that value; every other status is fixed or the upstream's non-ok status |
| PredictJson.MethodDecidedFirst | api/predict-json.js:47-55 | requests with the same non-POST method get the same response whatever else they carry: preflight 200, otherwise 405 |
| PredictJson.ContentTypeDecidedBeforeBody | api/predict-json.js:62-99 | a multipart POST is told to send base64 JSON, and a non-JSON type is told JSON is required, whatever the body |
| PredictJson.MissingImageRefused | api/predict-json.js:76-78 | an absent or falsy image gets 400 with the missing-field message |
| PredictJson.NonDataUrlRefused | api/predict-json.js:81-83 | an image not starting with `data:image/` gets 400 |
| PredictJson.SizeBoundary | api/predict-json.js:102-107 | exactly 10 MiB is forwarded; more gets 400 with the size message |
| PredictJson.UpstreamOutcomeMapping | api/predict-json.js:147-226 | once the error text is read, the Space's 404 is a missing-endpoint 404 and other non-ok statuses are relayed; a failed error-text read, a timeout or an unreachable service goes to the `catch` (503 for a timeout or network failure, 500 otherwise); an ok answer is returned as 200 when its JSON is non-null, and a `null` result is 500, because the format check throws on it |
| PredictImage.Build | api/predict-image.js:188-201 | the success body's size is the byte count, its media type is the Space's content type or `image/jpeg`, and its image is the data URL of the encoded bytes with that type |
| PredictImage.Handle | api/predict-image.js:28-227 | a 200 body occurs only for a JSON POST whose image was accepted and whose forwarded request got ok bytes, and it describes those bytes; every other status is fixed or the upstream's non-ok status |
| PredictImage.MethodDecidedFirst | api/predict-image.js:47-55 | preflight gets an empty 200 and any other non-POST method 405 |
| PredictImage.OnlyJsonAccepted | api/predict-image.js:66-93 | any content type without `application/json`, multipart included, gets 400 JSON-required |
| PredictImage.SameRefusalsAsJsonHandler | api/predict-image.js:66-101 | for non-multipart POSTs whose image is not accepted, both proxies answer with the same status and the same error message |
| PredictImage.ImageChecks | api/predict-image.js:68-101 | the image validation chain gives the same 400s as the JSON proxy: missing, not a data URL, empty payload, too large |
| PredictImage.UpstreamOutcomeMapping | api/predict-image.js:141-226 | as in the JSON proxy: after a successful error-text read, 404 or the relayed status; a failed read or a thrown fetch maps through the `catch` to 503 or 500; an ok answer becomes the built data-URL body |
| Health.Flag | api/health.js:45-46 | the flag reads `set` exactly when the variable is set |
| Health.Handle | api/health.js:22-67 | GET gives a 200 report with the flags, `NODE_ENV` or `development`, and the Space URL exactly when it is set; a thrown error gives 500 with its message; other methods are 200 (preflight) or 405 |
| Health.MethodDispatch | api/health.js:22-30 | preflight gets an empty 200 and any other non-GET method 405 |
| Health.TokenNeverReported | api/health.js:41-54 | deployments differing only in the token's value get identical responses |
| Interop.ClientParsesDataUrl | src/services/api.js:32-33 | for `data:<mime>;base64,<payload>`, the client's parser returns exactly the media type and the payload |
| Interop.AnnotatedDataUrlRoundTrip | api/predict-image.js:192-198 | the image proxy's data URL, read by the client, gives back the media type and exactly the base64 text it encoded |
| Interop.BlobOfDataUrl | src/services/api.js:29-48 | converting the proxy's data URL decodes exactly its payload and labels the blob with its media type |
| Interop.DefaultMimeRoundTrips | api/predict-image.js:193 | the fallback `image/jpeg` data URL round-trips through the client's parser |
| Interop.ClientCallsBypassProxies | src/services/api.js:99 | for any base, the URLs `getApiUrl` builds differ from the three backend URLs the service calls |
| Interop.SharedSizeLimit | src/config/apiConfig.js:48 | the client's `MAX_IMAGE_SIZE` equals the 10 MiB limit both proxies enforce |

## Left out

- I/O: `fetch`, `FileReader`, `atob`, `Buffer`, canvas drawing and `getUserMedia`. Their outcomes are parameters, and the base64 codecs are oracles.
- Timers: the 5-second health timeout and the proxies' 30-second abort. Each is modelled only as its outcome, a thrown `TimeoutError` or `AbortError`.
- Interleaving inside `Promise.all`: the tasks share no state, so the model runs them in entry order.
- Logging: every `console.*` call, and the warning about a result without `detect_objects_names`/`detect_objects`. That check only logs for a non-null result; on a `null` result it throws, which is modelled (`PredictJson.Checked`).
- CORS headers on the three proxies.
- The extra response fields `details`, `requestedUrl` and `troubleshooting`, and the health report's `timestamp` (a clock read).
- A failure of `response.text()` on the client's error path.
- The `content-type` header given as an array.
- `API_CONFIG.TIMEOUT`, `MAX_RETRIES`, `RETRY_DELAY` and `SUPPORTED_IMAGE_TYPES`: no code in the modelled files reads them.
- `apiLog`, which only logs, and `isDevelopment`, which only decides whether `apiLog` logs.
- `getApiUrl` on keys inherited from `Object.prototype` (such as `"toString"`). The model treats the endpoint table as holding only its three keys.
- The Blob `type` normalisation by the browser (lower-casing, rejecting non-ASCII).
- The exact texts of engine-generated `TypeError` messages. Only the error's name matters, and it maps to 500.
- The pixels of a snapped frame. `Capture.Snap` takes whatever `canvas.toDataURL` returns as a parameter. That includes a possibly blank frame from a `<video>` element mounted again after Replace, which `startCam` never attached the stream to.
- The camera stream start/stop and the rest of the Capture and Results rendering (styles, translations, the chat page).
- The standalone API test script.
- Results.ProgressStaysInRange: progress `status` strings are not modelled.
- Capture.ProceedAction: the alert's translated text is not modelled, only the two numbers substituted into it. The alert branch cannot be reached from the rendered button, which is disabled below five (`Capture.ProceedButton`).
- Results.UnhealthyRunMakesNoCalls: the `catch` that shows `Error: ${err.message}` is not modelled. Every step inside the `try` either returns a value or is caught per view, so the oracles give it nothing to catch.
