/** The client's endpoint configuration: the base URL, the table of proxy
    routes, URL resolution and the shared image size limit. */
module ApiConfig {
  import opened Wrappers
  import opened Text
  import Env

  /** `API_BASE_URL`: `REACT_APP_API_URL`, or the empty string (same origin). */
  function ApiBaseUrl(reactAppApiUrl: Option<string>): (base: string)
    ensures base == "" <==> !Env.IsSet(reactAppApiUrl)
    ensures Env.IsSet(reactAppApiUrl) ==> base == reactAppApiUrl.value
  {
    Env.Or(reactAppApiUrl, "")
  }

  /** `API_ENDPOINTS[key]`, undefined for keys outside the table. */
  function EndpointPath(key: string): Option<string> {
    if key == "HEALTH_CHECK" then Some("/api/health")
    else if key == "DETECT_JSON" then Some("/api/predict-json")
    else if key == "DETECT_IMAGE" then Some("/api/predict-image")
    else None
  }

  /** `getApiUrl(endpoint)`: the base followed by the mapped route, or by the
      argument itself when it is not a key of the table. */
  function GetApiUrl(base: string, endpoint: string): (url: string)
    ensures StartsWith(url, base)
    ensures EndpointPath(endpoint).Some? ==> url == base + EndpointPath(endpoint).value
    ensures EndpointPath(endpoint).None? ==> url == base + endpoint
  {
    var path := EndpointPath(endpoint);
    var suffix := if path.Some? && path.value != "" then path.value else endpoint;
    assert (base + suffix)[..|base|] == base;
    base + suffix
  }

  /** Every mapped route lives under `/api/`, and the table is one-to-one. */
  lemma RoutesAreProxyRoutes(k1: string, k2: string)
    ensures EndpointPath(k1).Some? ==> StartsWith(EndpointPath(k1).value, "/api/")
    ensures EndpointPath(k1).Some? && EndpointPath(k2).Some? && k1 != k2 ==>
              EndpointPath(k1).value != EndpointPath(k2).value
  {
    if EndpointPath(k1).Some? {
      assert EndpointPath(k1).value[..5] == "/api/";
    }
  }

  /** With `REACT_APP_API_URL` unset, detection resolves to the same-origin proxy route. */
  lemma DefaultDetectJsonUrl()
    ensures GetApiUrl(ApiBaseUrl(None), "DETECT_JSON") == "/api/predict-json"
    ensures GetApiUrl(ApiBaseUrl(Some("")), "DETECT_IMAGE") == "/api/predict-image"
  {
  }

  /** `API_CONFIG.MAX_IMAGE_SIZE`: 10 MiB. */
  const MaxImageSize: nat := 10 * 1024 * 1024
}
