/**
 * The running load balancer: the fixed backend list and weighted pool, the
 * health map the probe loop updates in place, and the request handler that
 * reads it and writes the client's session.
 */
module Balancer {
  import opened Wrappers
  import opened Registry
  import opened Health
  import opened Routing

  /** A client's session; `backend` is its "backend" slot, absent until first assigned. */
  class Session {
    var backend: Option<Url>

    constructor (backend: Option<Url>)
      ensures this.backend == backend
    {
      this.backend := backend;
    }
  }

  class LoadBalancer {
    const backends: seq<Backend>
    const pool: seq<Url>
    var health: map<Url, bool>

    /** The pool is expanded from the backend list, and the health map knows exactly the configured URLs. */
    ghost predicate Valid()
      reads this
    {
      pool == WeightedPool(backends) && health.Keys == Urls(backends)
    }

    /** Start-up: expand the weighted pool and mark every backend healthy. */
    constructor (backends: seq<Backend>)
      ensures Valid()
      ensures this.backends == backends
      ensures health == InitialHealth(backends)
    {
      this.backends := backends;
      pool := WeightedPool(backends);
      health := InitialHealth(backends);
    }

    /**
     * One pass of the probe loop: probe each configured backend in order
     * (`probes[i]` is what the i-th probe produced), overwrite its health
     * entry and record its result.
     */
    method HealthCheck(probes: seq<ProbeOutcome>) returns (results: map<Url, CheckRecord>)
      requires Valid()
      requires |probes| == |backends|
      modifies this
      ensures Valid()
      ensures health == CheckedHealth(old(health), backends, probes)
      ensures results == CheckResults(backends, probes)
      ensures results.Keys == Urls(backends)
    {
      results := map[];
      var i := 0;
      while i < |backends|
        invariant i <= |backends|
        invariant health == CheckedHealth(old(health), backends[..i], probes[..i])
        invariant results == CheckResults(backends[..i], probes[..i])
      {
        var url := backends[i].url;
        match probes[i] {
          case Response(code) =>
            if code == 200 {
              health := health[url := true];
              results := results[url := CheckRecord(Healthy, StatusCode(code))];
            } else {
              health := health[url := false];
              results := results[url := CheckRecord(Unhealthy, StatusCode(code))];
            }
          case RequestError(message) =>
            health := health[url := false];
            results := results[url := CheckRecord(Unreachable, Error(message))];
        }
        assert backends[..i + 1][..i] == backends[..i];
        assert probes[..i + 1][..i] == probes[..i];
        i := i + 1;
      }
      assert backends[..i] == backends && probes[..i] == probes;
      CheckedHealthFrame(old(health), backends, probes);
      CheckResultsKeys(backends, probes);
    }

    /**
     * Handle one request: keep the session's backend while it reads as
     * healthy, otherwise draw a healthy pool entry (`pick` stands for the
     * random draw) and store it in the session, or answer 503.
     */
    method Route(session: Session, pick: nat) returns (decision: Decision)
      requires Valid()
      modifies session
      ensures Routed(decision, session.backend) == Decide(pool, health, old(session.backend), pick)
      ensures decision.Redirect? ==> decision.url in Urls(backends)
    {
      if session.backend.Some? && IsHealthy(health, session.backend.value) {
        return Redirect(session.backend.value);
      }
      var candidates := HealthyPool(pool, health);
      if candidates == [] {
        return Unavailable;
      }
      var next := candidates[pick % |candidates|];
      PoolWithinUrls(backends, next);
      session.backend := Some(next);
      return Redirect(next);
    }
  }
}
