/** run_middleware: the block check, the request limit, the token check and the recording of a failure. */
module Middleware {
  import opened Basics
  import opened BearerAuth
  import A = AuthLimiters
  import R = RequestLimiters
  import ClientIp

  datatype Settings = Settings(requireAuth: bool, apiKey: Bytes, trustProxy: bool, trustedHops: int)

  datatype HttpRequest = HttpRequest(path: string, forwardedFor: string, remote: string, authorization: Bytes)

  /** No response means that the request goes on to its handler. */
  datatype Verdict =
    | Pass
    | AuthBlocked                                  // 429, Retry-After 60
    | RateLimited(retry: int)                      // 429
    | Unauthorized(code: string, message: string)  // 401

  predicate IsInternalEndpoint(path: string) {
    path == "/health" || path == "/ready" || path == "/metrics"
  }

  lemma InternalIs(path: string)
    ensures IsInternalEndpoint(path) <==> path in {"/health", "/ready", "/metrics"}
  {
  }

  class Guard {
    const settings: Settings
    const auth: A.AuthRateLimiter
    const requests: R.RequestRateLimiter
    var rejectedAuth: nat
    var rejectedRate: nat

    constructor (settings: Settings, policy: A.Policy, quota: R.Quota)
      ensures this.settings == settings && fresh(auth) && fresh(requests)
      ensures auth.policy == policy && requests.quota == quota
      ensures auth.ipStates == map[] && requests.ipStates == map[] && rejectedAuth == 0 && rejectedRate == 0
    {
      this.settings := settings;
      this.auth := new A.AuthRateLimiter(policy);
      this.requests := new R.RequestRateLimiter(quota);
      rejectedAuth, rejectedRate := 0, 0;
    }

    /** One request, with the clock as each limiter reads it. A blocked address costs no request quota; a
        request that is refused for its rate is not looked at for its token; only a request that fails the
        token check is recorded as a failure; and each refusal is counted once. */
    method RunMiddleware(req: HttpRequest, t1: int, t2: int, t3: int) returns (verdict: Verdict)
      modifies this, auth, requests
      ensures req.path in {"/health", "/ready", "/metrics"} ==>
        verdict == Pass && auth.ipStates == old(auth.ipStates) && requests.ipStates == old(requests.ipStates)
      ensures req.path !in {"/health", "/ready", "/metrics"} ==>
        var ip := ClientIp.ClientAddress(req.forwardedFor, req.remote, settings.trustProxy, settings.trustedHops);
        var blocked := settings.requireAuth && A.Blocks(auth.policy, old(auth.ipStates), ip, t1);
        var retry := R.Answer(requests.quota, R.Lookup(old(requests.ipStates), ip), t2);
        var token := CheckBearerAuth(req.authorization, settings.apiKey);
        && verdict == (if blocked then AuthBlocked
                       else if retry > 0 then RateLimited(retry)
                       else if settings.requireAuth && !token.authenticated then Unauthorized(token.code, token.message)
                       else Pass)
        && requests.ipStates ==
             (if blocked then old(requests.ipStates) else R.Afterwards(requests.quota, old(requests.ipStates), ip, t2))
        && (!settings.requireAuth || blocked ==> auth.ipStates == old(auth.ipStates))
        && (settings.requireAuth && !verdict.Unauthorized? ==>
              auth.ipStates == A.Queried(auth.policy, old(auth.ipStates), ip, t1))
        && (verdict.Unauthorized? ==> exists again ::
              A.Records(auth.policy, A.Queried(auth.policy, old(auth.ipStates), ip, t1), ip, t3, again, auth.ipStates))
      ensures rejectedAuth == old(rejectedAuth) + (if verdict == AuthBlocked || verdict.Unauthorized? then 1 else 0)
      ensures rejectedRate == old(rejectedRate) + (if verdict.RateLimited? then 1 else 0)
    {
      InternalIs(req.path);
      if IsInternalEndpoint(req.path) {
        return Pass;
      }
      var ip := ClientIp.ExtractClientIp(req.forwardedFor, req.remote, settings.trustProxy, settings.trustedHops);
      if settings.requireAuth {
        var blocked := auth.IsBlocked(ip, t1);
        if blocked {
          rejectedAuth := rejectedAuth + 1;
          return AuthBlocked;
        }
      }
      var retry := requests.CheckRequest(ip, t2);
      if retry > 0 {
        rejectedRate := rejectedRate + 1;
        return RateLimited(retry);
      }
      if settings.requireAuth {
        var result := CheckBearerAuth(req.authorization, settings.apiKey);
        if !result.authenticated {
          var blocked := auth.CheckAndRecordFailure(ip, t3);
          rejectedAuth := rejectedAuth + 1;
          return Unauthorized(result.code, result.message);
        }
      }
      return Pass;
    }
  }
}
