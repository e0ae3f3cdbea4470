/**
  The two calls to the Siigo API: exchanging the configured credentials for
  an access token, and fetching the list of cost centres with it. The
  network is not modelled: each call's outcome is an input, and each
  operation returns the requests it issued beside its result, so that a
  contract can say which requests were made.
 */
module Siigo {
  import opened Php

  /** The static `Partner-Id` header sent with the cost-centre request. */
  const PartnerId: string := "tallerproduction"

  /** The settings read from the site configuration: login URL, cost-centre
      URL, user name and access key. */
  datatype Config = Config(loginUrl: string, costCentersUrl: string, username: string, accessKey: string)

  /** A request sent to the API. */
  datatype Request =
    | Post(url: string, username: string, accessKey: string, contentType: string)
    | Get(url: string, authorization: string, partnerId: string)

  /** What came back from the login POST: a transport error, or a body whose
      decoded JSON has `access_token` set (Some) or not (None, which also
      covers a body that is not JSON). */
  datatype LoginOutcome = LoginFailed | LoginBody(accessToken: Option<string>)

  /** A cost centre as decoded from the API. */
  datatype CostCenter = CostCenter(id: string, name: string)

  /** What came back from the cost-centre GET: a transport error, or a body
      that decoded to a JSON list (Some) or to nothing usable (None). */
  datatype CostCentersOutcome = GetFailed | GetBody(decoded: Option<seq<CostCenter>>)

  /** A result together with the requests issued to produce it. */
  datatype Exchange<T> = Exchange(result: Option<T>, requests: seq<Request>)

  /** The login request `get_siigo_access_token` sends. */
  function LoginRequest(cfg: Config): Request {
    Post(cfg.loginUrl, cfg.username, cfg.accessKey, "application/json")
  }

  /** `get_siigo_access_token`: one POST; the token is returned exactly when
      the response carries `access_token`. */
  function GetSiigoAccessToken(cfg: Config, login: LoginOutcome): (r: Exchange<string>)
    ensures r.requests == [Post(cfg.loginUrl, cfg.username, cfg.accessKey, "application/json")]
    ensures r.result.Some? <==> login.LoginBody? && login.accessToken.Some?
    ensures r.result.Some? ==> r.result.value == login.accessToken.value
  {
    match login
    case LoginFailed => Exchange(None, [LoginRequest(cfg)])
    case LoginBody(token) => Exchange(token, [LoginRequest(cfg)])
  }

  /** The token obtained, as `fetch_cost_centers_from_siigo` tests it: a
      missing token and a falsy one ("" or "0") both count as none. */
  predicate TokenObtained(t: Option<string>) {
    t.Some? && Truthy(t.value)
  }

  /** `fetch_cost_centers_from_siigo`: obtain a token; without one, fail
      before any GET; otherwise GET the cost centres with the bearer token and
      return them when the decoded list is non-empty. */
  function FetchCostCentersFromSiigo(cfg: Config, login: LoginOutcome, response: CostCentersOutcome)
    : (r: Exchange<seq<CostCenter>>)
    ensures !TokenObtained(GetSiigoAccessToken(cfg, login).result) ==>
              r.result.None? && r.requests == [LoginRequest(cfg)]
    ensures TokenObtained(GetSiigoAccessToken(cfg, login).result) ==>
              r.requests == [LoginRequest(cfg),
                             Get(cfg.costCentersUrl, "Bearer " + login.accessToken.value, PartnerId)]
    ensures r.result.Some? <==>
              && login.LoginBody? && login.accessToken.Some? && Truthy(login.accessToken.value)
              && response.GetBody? && response.decoded.Some? && |response.decoded.value| > 0
    ensures r.result.Some? ==> r.result.value == response.decoded.value
    ensures forall i :: 0 <= i < |r.requests| && r.requests[i].Get? ==> TokenObtained(login.accessToken)
  {
    var auth := GetSiigoAccessToken(cfg, login);
    if !TokenObtained(auth.result) then
      Exchange(None, auth.requests)
    else
      var request := Get(cfg.costCentersUrl, "Bearer " + auth.result.value, PartnerId);
      var requests := auth.requests + [request];
      match response
      case GetFailed => Exchange(None, requests)
      case GetBody(decoded) =>
        if decoded.Some? && |decoded.value| > 0 then Exchange(decoded, requests)
        else Exchange(None, requests)
  }
}
