/**
 * Health bookkeeping: how one probe outcome is classified, how the health
 * map is read, and what one pass of the probe loop leaves in the health map
 * and in its results.
 */
module Health {
  import opened Registry

  /** What the HEAD probe of one backend produced: a response, or a transport error. */
  datatype ProbeOutcome = Response(statusCode: int) | RequestError(message: string)

  /** The "status" of a result record: "healthy", "unhealthy" or "unreachable". */
  datatype Status = Healthy | Unhealthy | Unreachable

  /** The rest of a result record: the "status_code", or the "error" text. */
  datatype Detail = StatusCode(code: int) | Error(message: string)

  /** The record kept for one backend in the results of a pass. */
  datatype CheckRecord = CheckRecord(status: Status, detail: Detail)

  /** The health flag a probe outcome writes: only a response with status exactly 200. */
  predicate ProbeHealthy(outcome: ProbeOutcome)
  {
    outcome.Response? && outcome.statusCode == 200
  }

  /** The result record a probe outcome produces. */
  function Classify(outcome: ProbeOutcome): (r: CheckRecord)
    ensures r.status == Healthy <==> ProbeHealthy(outcome)
    ensures outcome.Response? ==> r.status != Unreachable && r.detail == StatusCode(outcome.statusCode)
    ensures outcome.RequestError? ==> r == CheckRecord(Unreachable, Error(outcome.message))
  {
    match outcome
    case Response(code) => CheckRecord(if code == 200 then Healthy else Unhealthy, StatusCode(code))
    case RequestError(message) => CheckRecord(Unreachable, Error(message))
  }

  /**
   * A lookup with a default of false: a URL missing from the map reads as
   * unhealthy.
   */
  predicate IsHealthy(health: map<Url, bool>, u: Url)
  {
    u in health && health[u]
  }

  /**
   * The health map after probing `backends` in order, the i-th backend
   * having produced `probes[i]`: each probe overwrites its backend's entry.
   */
  function CheckedHealth(health: map<Url, bool>, backends: seq<Backend>, probes: seq<ProbeOutcome>): map<Url, bool>
    requires |probes| == |backends|
  {
    if backends == [] then health
    else
      var n := |backends| - 1;
      CheckedHealth(health, backends[..n], probes[..n])[backends[n].url := ProbeHealthy(probes[n])]
  }

  /** The results of probing `backends` in order, starting from no results. */
  function CheckResults(backends: seq<Backend>, probes: seq<ProbeOutcome>): map<Url, CheckRecord>
    requires |probes| == |backends|
  {
    if backends == [] then map[]
    else
      var n := |backends| - 1;
      CheckResults(backends[..n], probes[..n])[backends[n].url := Classify(probes[n])]
  }

  lemma UrlsOfPrefix(backends: seq<Backend>, n: nat)
    requires n < |backends|
    ensures Urls(backends[..n + 1]) == Urls(backends[..n]) + {backends[n].url}
  {
  }

  /**
   * One pass writes exactly the configured URLs: the keys afterwards are the
   * old keys plus the configured URLs, and every other entry keeps its value.
   */
  lemma {:induction false} CheckedHealthFrame(health: map<Url, bool>, backends: seq<Backend>, probes: seq<ProbeOutcome>)
    requires |probes| == |backends|
    ensures CheckedHealth(health, backends, probes).Keys == health.Keys + Urls(backends)
    ensures forall u :: u in health && u !in Urls(backends) ==> CheckedHealth(health, backends, probes)[u] == health[u]
  {
    if backends != [] {
      var n := |backends| - 1;
      CheckedHealthFrame(health, backends[..n], probes[..n]);
      UrlsOfPrefix(backends, n);
      assert backends[..n + 1] == backends;
    }
  }

  /** One pass leaves exactly one result per configured URL and no other key. */
  lemma {:induction false} CheckResultsKeys(backends: seq<Backend>, probes: seq<ProbeOutcome>)
    requires |probes| == |backends|
    ensures CheckResults(backends, probes).Keys == Urls(backends)
  {
    if backends != [] {
      var n := |backends| - 1;
      CheckResultsKeys(backends[..n], probes[..n]);
      UrlsOfPrefix(backends, n);
      assert backends[..n + 1] == backends;
    }
  }

  /**
   * The entry of a probed URL is decided by its last probe in the pass:
   * healthy exactly when that probe got status 200.
   */
  lemma {:induction false} CheckedHealthOfLastProbe(health: map<Url, bool>, backends: seq<Backend>, probes: seq<ProbeOutcome>, i: nat)
    requires |probes| == |backends|
    requires i < |backends|
    requires forall j :: i < j < |backends| ==> backends[j].url != backends[i].url
    ensures backends[i].url in CheckedHealth(health, backends, probes)
    ensures CheckedHealth(health, backends, probes)[backends[i].url] == ProbeHealthy(probes[i])
  {
    var n := |backends| - 1;
    if i < n {
      assert backends[n].url != backends[i].url;
      assert backends[..n][i] == backends[i] && probes[..n][i] == probes[i];
      CheckedHealthOfLastProbe(health, backends[..n], probes[..n], i);
    }
  }

  /** Likewise, the result record of a probed URL is the classification of its last probe. */
  lemma {:induction false} CheckResultOfLastProbe(backends: seq<Backend>, probes: seq<ProbeOutcome>, i: nat)
    requires |probes| == |backends|
    requires i < |backends|
    requires forall j :: i < j < |backends| ==> backends[j].url != backends[i].url
    ensures backends[i].url in CheckResults(backends, probes)
    ensures CheckResults(backends, probes)[backends[i].url] == Classify(probes[i])
  {
    var n := |backends| - 1;
    if i < n {
      assert backends[n].url != backends[i].url;
      assert backends[..n][i] == backends[i] && probes[..n][i] == probes[i];
      CheckResultOfLastProbe(backends[..n], probes[..n], i);
    }
  }

  /**
   * After a pass, the health map and the results agree on every configured
   * URL: it is marked healthy exactly when its record says "healthy".
   */
  lemma {:induction false} HealthAgreesWithResults(health: map<Url, bool>, backends: seq<Backend>, probes: seq<ProbeOutcome>, u: Url)
    requires |probes| == |backends|
    requires u in Urls(backends)
    ensures u in CheckedHealth(health, backends, probes) && u in CheckResults(backends, probes)
    ensures CheckedHealth(health, backends, probes)[u] <==> CheckResults(backends, probes)[u].status == Healthy
  {
    var n := |backends| - 1;
    UrlsOfPrefix(backends, n);
    assert backends[..n + 1] == backends;
    if u != backends[n].url {
      HealthAgreesWithResults(health, backends[..n], probes[..n], u);
    }
  }
}
