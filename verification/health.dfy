/** `api/health.js`: a GET-only report of the deployment's configuration
    that works without the Space. `fault` stands for an exception raised
    inside the handler's `try` block; the report's `timestamp` is left out. */
module Health {
  import opened Wrappers
  import opened Proxy
  import Env

  /** The deployment's `HF_SPACE_URL`, `HF_TOKEN` and `NODE_ENV`. */
  datatype HealthEnv = HealthEnv(spaceUrl: Option<string>, token: Option<string>, nodeEnv: Option<string>)

  /** The 200 body, or the 500 body `{ healthcheck: 'error', error }`. */
  datatype Report =
    | Report(healthcheck: string, spaceUrlFlag: string, tokenFlag: string, environment: string,
             spaceUrlValue: Option<string>)
    | FaultReport(healthcheck: string, error: string)

  /** `X ? 'set' : 'not set'` */
  function Flag(value: Option<string>): (f: string)
    ensures f == "set" <==> Env.IsSet(value)
    ensures f == "not set" <==> !Env.IsSet(value)
  {
    if Env.IsSet(value) then "set" else "not set"
  }

  /** The handler: preflight, GET only, then the report. */
  function Handle(env: HealthEnv, httpMethod: string, fault: Option<Exception>): (r: Response<Report>)
    ensures r.status in {200, 405, 500}
    ensures r.status == 200 && r.payload.Body? <==> httpMethod == "GET" && fault.None?
    ensures r.status == 500 <==> httpMethod == "GET" && fault.Some?
    ensures r.payload.Body? && r.status == 200 ==>
              && r.payload.value.Report?
              && r.payload.value.healthcheck == "ok"
              && (r.payload.value.spaceUrlFlag == "set" <==> Env.IsSet(env.spaceUrl))
              && (r.payload.value.tokenFlag == "set" <==> Env.IsSet(env.token))
              && (r.payload.value.spaceUrlValue.Some? <==> Env.IsSet(env.spaceUrl))
              && (r.payload.value.spaceUrlValue.Some? ==> r.payload.value.spaceUrlValue == env.spaceUrl)
              && r.payload.value.environment == Env.Or(env.nodeEnv, "development")
    ensures r.status == 500 ==> r.payload == Body(FaultReport("error", fault.value.message))
  {
    match MethodGate(httpMethod, "GET")
    case Some(early) => early
    case None =>
      match fault
      case Some(e) => Response(500, Body(FaultReport("error", e.message)))
      case None =>
        var spaceUrl := Env.Or(env.spaceUrl, "");
        var value := if spaceUrl != "" then Some(spaceUrl) else None;
        Response(200, Body(Report("ok", Flag(env.spaceUrl), Flag(env.token),
                                  Env.Or(env.nodeEnv, "development"), value)))
  }

  /** Preflight gets an empty 200 and every other non-GET method a 405. */
  lemma {:induction false} MethodDispatch(env: HealthEnv, httpMethod: string, fault: Option<Exception>)
    requires httpMethod != "GET"
    ensures httpMethod == "OPTIONS" ==> Handle(env, httpMethod, fault) == Response(200, Empty)
    ensures httpMethod != "OPTIONS" ==> Handle(env, httpMethod, fault) == Response(405, Error("Method not allowed. Use GET."))
  {
    assert "Method not allowed. Use " + "GET" + "." == "Method not allowed. Use GET.";
  }

  /** The token's value never reaches the response: two deployments that
      differ only in the token, both set or both unset, get identical
      responses. */
  lemma {:induction false} TokenNeverReported(env1: HealthEnv, env2: HealthEnv, httpMethod: string, fault: Option<Exception>)
    requires env1.spaceUrl == env2.spaceUrl && env1.nodeEnv == env2.nodeEnv
    requires Env.IsSet(env1.token) == Env.IsSet(env2.token)
    ensures Handle(env1, httpMethod, fault) == Handle(env2, httpMethod, fault)
  {
  }
}
