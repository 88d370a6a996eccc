/**
 * The routing decision for one request: keep the client on its session's
 * backend while that backend is healthy, otherwise pick a healthy entry of
 * the weighted pool, or answer 503 when there is none.
 */
module Routing {
  import opened Wrappers
  import opened Registry
  import opened Health

  /** The pool entries whose health reads true, in pool order. */
  function HealthyPool(pool: seq<Url>, health: map<Url, bool>): (healthy: seq<Url>)
    ensures |healthy| <= |pool|
    ensures forall u :: u in healthy <==> u in pool && IsHealthy(health, u)
  {
    if pool == [] then []
    else (if IsHealthy(health, pool[0]) then [pool[0]] else []) + HealthyPool(pool[1..], health)
  }

  /** What the request handler answers: a redirect to a backend, or 503. */
  datatype Decision = Redirect(url: Url) | Unavailable

  /** The decision together with the session's backend slot afterwards. */
  datatype Routed = Routed(decision: Decision, session: Option<Url>)

  /** The session names a backend and that backend reads as healthy. */
  predicate StickyHit(health: map<Url, bool>, prior: Option<Url>)
  {
    prior.Some? && IsHealthy(health, prior.value)
  }

  /**
   * The decision for a request whose session holds `prior`, `pick` standing
   * for the random draw: the draw takes entry `pick % n` of the n healthy
   * pool entries, so every entry can be drawn.
   */
  function Decide(pool: seq<Url>, health: map<Url, bool>, prior: Option<Url>, pick: nat): (out: Routed)
    // sticky hit: same backend, session untouched, whatever else is healthy
    ensures StickyHit(health, prior) ==> out == Routed(Redirect(prior.value), prior)
    // 503 exactly when the session does not stick and no pool entry is healthy
    ensures out.decision == Unavailable <==> !StickyHit(health, prior) && HealthyPool(pool, health) == []
    ensures out.decision == Unavailable ==> out.session == prior
    // a redirect always goes to a healthy backend, which the session now names
    ensures out.decision.Redirect? ==> IsHealthy(health, out.decision.url) && out.session == Some(out.decision.url)
    // a new assignment is an entry of the weighted pool, and every healthy entry can be drawn
    ensures out.decision.Redirect? && !StickyHit(health, prior) ==> out.decision.url in pool
    // self-healing: a client whose backend went unhealthy is moved to another one
    ensures prior.Some? && !IsHealthy(health, prior.value) && out.decision.Redirect?
        ==> out.decision.url != prior.value
  {
    if StickyHit(health, prior) then Routed(Redirect(prior.value), prior)
    else
      var candidates := HealthyPool(pool, health);
      if candidates == [] then Routed(Unavailable, prior)
      else
        var next := candidates[pick % |candidates|];
        assert next in candidates;
        Routed(Redirect(next), Some(next))
  }

  /**
   * Every healthy pool entry can be drawn: with no sticky hit, draw `k`
   * below the number of candidates redirects to the k-th candidate.
   */
  lemma EveryCandidateCanBeDrawn(pool: seq<Url>, health: map<Url, bool>, prior: Option<Url>, k: nat)
    requires !StickyHit(health, prior)
    requires k < |HealthyPool(pool, health)|
    ensures Decide(pool, health, prior, k) == Routed(Redirect(HealthyPool(pool, health)[k]), Some(HealthyPool(pool, health)[k]))
  {
    SmallDraw(k, |HealthyPool(pool, health)|);
  }

  lemma SmallDraw(k: nat, n: nat)
    requires k < n
    ensures k % n == k
  {
  }

  /** Filtering distributes over concatenation, so pool order is kept. */
  lemma {:induction false} HealthyPoolConcat(a: seq<Url>, b: seq<Url>, health: map<Url, bool>)
    ensures HealthyPool(a + b, health) == HealthyPool(a, health) + HealthyPool(b, health)
  {
    if a == [] {
      assert a + b == b;
    } else {
      assert (a + b)[0] == a[0];
      assert (a + b)[1..] == a[1..] + b;
      HealthyPoolConcat(a[1..], b, health);
    }
  }

  /** A healthy URL keeps every one of its pool entries; an unhealthy one keeps none. */
  lemma {:induction false} HealthyPoolMultiplicity(pool: seq<Url>, health: map<Url, bool>, u: Url)
    ensures multiset(HealthyPool(pool, health))[u] == if IsHealthy(health, u) then multiset(pool)[u] else 0
  {
    if pool != [] {
      HealthyPoolMultiplicity(pool[1..], health, u);
      assert pool == [pool[0]] + pool[1..];
      assert multiset(pool) == multiset([pool[0]]) + multiset(pool[1..]);
    }
  }

  lemma {:induction false} HealthyPoolOfRepeat(u: Url, n: nat, health: map<Url, bool>)
    ensures HealthyPool(Repeat(u, n), health) == if IsHealthy(health, u) then Repeat(u, n) else []
  {
    if n > 0 {
      HealthyPoolOfRepeat(u, n - 1, health);
    }
  }

  /** The backends of the list whose URL reads as healthy, in registry order. */
  function HealthyBackends(backends: seq<Backend>, health: map<Url, bool>): seq<Backend>
  {
    if backends == [] then []
    else (if IsHealthy(health, backends[0].url) then [backends[0]] else []) + HealthyBackends(backends[1..], health)
  }

  /**
   * Filtering the weighted pool is the same as expanding only the healthy
   * backends: each surviving backend keeps its whole run of `weight` copies,
   * in registry order, and an unhealthy backend's weight simply vanishes.
   */
  lemma {:induction false} HealthyPoolOfWeightedPool(backends: seq<Backend>, health: map<Url, bool>)
    ensures HealthyPool(WeightedPool(backends), health) == WeightedPool(HealthyBackends(backends, health))
  {
    if backends != [] {
      var b := backends[0];
      HealthyPoolConcat(Block(b), WeightedPool(backends[1..]), health);
      HealthyPoolOfRepeat(b.url, Copies(b.weight), health);
      HealthyPoolOfWeightedPool(backends[1..], health);
      if IsHealthy(health, b.url) {
        PoolConcat([b], HealthyBackends(backends[1..], health));
        assert [b][1..] == [];
      } else {
        assert HealthyBackends(backends, health) == HealthyBackends(backends[1..], health);
      }
    }
  }

  /** When every pool entry reads healthy, the filter keeps the whole pool. */
  lemma {:induction false} HealthyPoolOfAllHealthy(pool: seq<Url>, health: map<Url, bool>)
    requires forall k :: 0 <= k < |pool| ==> IsHealthy(health, pool[k])
    ensures HealthyPool(pool, health) == pool
  {
    if pool != [] {
      HealthyPoolOfAllHealthy(pool[1..], health);
    }
  }

  /** Right after start-up every pool entry is a candidate. */
  lemma InitialPoolAllHealthy(backends: seq<Backend>)
    ensures HealthyPool(WeightedPool(backends), InitialHealth(backends)) == WeightedPool(backends)
  {
    var pool := WeightedPool(backends);
    forall k | 0 <= k < |pool|
      ensures IsHealthy(InitialHealth(backends), pool[k])
    {
      PoolWithinUrls(backends, pool[k]);
    }
    HealthyPoolOfAllHealthy(pool, InitialHealth(backends));
  }

  /**
   * When every configured backend is unhealthy and the health map only
   * knows configured URLs, every request gets 503, whatever its session says.
   */
  lemma AllUnhealthyIsUnavailable(backends: seq<Backend>, health: map<Url, bool>, prior: Option<Url>, pick: nat)
    requires health.Keys <= Urls(backends)
    requires forall i :: 0 <= i < |backends| ==> !IsHealthy(health, backends[i].url)
    ensures Decide(WeightedPool(backends), health, prior, pick).decision == Unavailable
  {
    forall u | u in Urls(backends)
      ensures !IsHealthy(health, u)
    {
      var b :| b in backends && b.url == u;
      var i :| 0 <= i < |backends| && backends[i] == b;
    }
    forall u | u in WeightedPool(backends)
      ensures !IsHealthy(health, u)
    {
      PoolWithinUrls(backends, u);
    }
  }

  /**
   * A URL the health map does not know reads as unhealthy: a session naming
   * it never sticks, and no pool entry with it survives the filter.
   */
  lemma UnknownUrlNeverChosen(pool: seq<Url>, health: map<Url, bool>, prior: Option<Url>, pick: nat, u: Url)
    requires u !in health
    ensures !StickyHit(health, Some(u))
    ensures u !in HealthyPool(pool, health)
    ensures Decide(pool, health, prior, pick).decision != Redirect(u)
  {
  }

  /**
   * Stability: once a request has been redirected, the next request with the
   * updated session and unchanged health stays on the same backend.
   */
  lemma RedirectIsSticky(pool: seq<Url>, health: map<Url, bool>, prior: Option<Url>, pick: nat, nextPick: nat)
    requires Decide(pool, health, prior, pick).decision.Redirect?
    ensures var out := Decide(pool, health, prior, pick);
            Decide(pool, health, out.session, nextPick) == Routed(out.decision, out.session)
  {
  }
}
