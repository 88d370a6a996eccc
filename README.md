# Weighted sticky load balancer: routing decision and health bookkeeping

This project models the decision layer of a small HTTP load balancer written as one Flask
application (`loadbalancer.py`). The balancer knows a fixed list of backends, each a URL with an
integer weight. At start-up it expands the list into a weighted pool, where each URL appears once
per unit of weight, and marks every backend healthy. A background loop probes each backend and
writes its health into a shared health map, one entry at a time. It also builds a results record
per backend. For each request the handler does the following:

- it keeps the client on the backend named in its session while that backend reads as healthy;
- otherwise it filters the weighted pool down to healthy entries and draws one at random;
- it stores the drawn backend in the session and redirects there;
- it answers 503 when no pool entry is healthy.

Modules, in dependency order:

- `Wrappers` (`wrappers.dfy`): `Option`, for the session's backend slot.
- `Registry` (`registry.dfy`): `Backend`, the weighted pool `WeightedPool` and the start-up health
  map `InitialHealth`, with lemmas on pool length, multiplicity, order and membership.
- `Health` (`health.dfy`): probe outcomes and result records, the classification `Classify`, the
  defaulting lookup `IsHealthy` (a missing URL reads as unhealthy), and `CheckedHealth` and
  `CheckResults`, which give the health map and the results after one probe pass.
- `Routing` (`routing.dfy`): the healthy filter `HealthyPool` and the per-request decision `Decide`.
- `Balancer` (`balancer.dfy`): the running state. `LoadBalancer` is a class with the constant
  backend list and pool and a mutable `health` map. Its `HealthCheck` method runs the probe loop
  and updates the map in place. Its `Route` method updates a `Session` object. Both methods are
  proved against the specification functions above.

Modelling choices:

- The network probe is an input: `probes[i]` is the outcome of probing the i-th configured backend.
  It is either a response with a status code or a transport error with its message.
- The random draw is an input `pick`, and the handler takes candidate `pick % n` of the `n` healthy
  entries. Every candidate can be drawn (`EveryCandidateCanBeDrawn`). Probabilities are not modelled.
- Weights are unbounded integers. A weight below one contributes no pool entries, as `range(weight)`
  does.
- The same URL may be listed twice. Its pool multiplicity is then the sum of its entries' weights
  (`WeightOf`), and its health entry is decided by its last probe in the pass.

Where the design description and the code differ, the model follows the code:

- The design describes an atomic snapshot publish of the health map. The code writes the shared
  map entry by entry inside the probe loop, and so does `HealthCheck`.
- The design has configuration loading reject an empty list or a non-positive weight. The code
  does no such check: such a backend gets no pool entries but is still probed and still has a
  health entry.
- The design calls any success status healthy. The code accepts only status 200, so a redirect
  status counts as unhealthy.
- The design's health records carry a timestamp. The code keeps none.

## Model

| member | source | states |
|---|---|---|
| `Registry.WeightedPool` | loadbalancer.py:20-22 | the pool's length is the sum of the backends' weights (a weight below one counts as zero) |
| `Registry.PoolBlocks` | loadbalancer.py:20-22 | registry order and contiguity: the pool is the pool of the backends before the i-th, then the i-th backend's run of `weight` copies, then the pool of the backends after it |
| `Registry.PoolEntryAt` | loadbalancer.py:20-22 | the i-th backend's copies occupy the positions right after the total weight of the backends before it |
| `Registry.PoolMultiplicity` | loadbalancer.py:20-22 | each URL occurs in the pool exactly as many times as the summed weight of its configured entries |
| `Registry.PoolCountOfUniqueUrl` | loadbalancer.py:20-22 | with distinct URLs, a backend's URL occurs exactly `weight` times |
| `Registry.PoolMembers` | loadbalancer.py:20-22 | a URL is in the pool if and only if some configured entry with that URL has weight at least one |
| `Registry.PoolWithinUrls` | loadbalancer.py:20-22 | every pool entry is a configured URL |
| `Registry.InitialHealth` | loadbalancer.py:24 | the start-up health map has exactly the configured URLs as keys, all marked healthy |
| `Routing.InitialPoolAllHealthy` | loadbalancer.py:24 | right after start-up the healthy filter keeps the whole weighted pool |
| `Health.Classify` | loadbalancer.py:37-50 | the record says healthy if and only if the probe got status exactly 200; any other status is unhealthy and keeps the code; a transport error is unreachable and keeps the error text |
| `Health.CheckedHealthFrame` | loadbalancer.py:31-50 | after a pass the health map's keys are the old keys plus the configured URLs, and every unconfigured entry keeps its value |
| `Health.CheckResultsKeys` | loadbalancer.py:31-50 | a pass leaves one result per configured URL and no other key |
| `Health.CheckedHealthOfLastProbe` | loadbalancer.py:33-48 | a probed URL's health entry is true if and only if its last probe in the pass got status 200 |
| `Health.CheckResultOfLastProbe` | loadbalancer.py:33-49 | a probed URL's result record is the classification of its last probe in the pass |
| `Health.HealthAgreesWithResults` | loadbalancer.py:39-49 | after a pass, each configured URL is marked healthy if and only if its result record says healthy |
| `Balancer.LoadBalancer.constructor` | loadbalancer.py:12-24 | start-up state: the pool is the weighted expansion of the list and the health map is the all-healthy start-up map |
| `Balancer.LoadBalancer.HealthCheck` | loadbalancer.py:28-50 | the probe loop leaves the health map and the results exactly as `CheckedHealth` and `CheckResults` say, keeps the map's keys equal to the configured URLs, and returns one result per configured URL |
| `Routing.HealthyPool` | loadbalancer.py:73-75 | an entry is a candidate if and only if it is in the pool and reads healthy (a URL missing from the health map does not), and there are no more candidates than pool entries |
| `Routing.HealthyPoolConcat` | loadbalancer.py:73-75 | filtering distributes over concatenation, so pool order is kept |
| `Routing.HealthyPoolMultiplicity` | loadbalancer.py:73-75 | a healthy URL keeps every one of its pool entries, and an unhealthy one keeps none |
| `Routing.HealthyPoolOfWeightedPool` | loadbalancer.py:73-75 | filtering the weighted pool equals expanding only the healthy backends, each keeping its full weight in registry order |
| `Routing.Decide` | loadbalancer.py:69-83 | sticky hit redirects to the session's backend and leaves the session alone; 503 if and only if there is no sticky hit and no healthy pool entry, with the session unchanged; every redirect goes to a healthy backend that the session then names; a new assignment is a pool entry; a client whose backend is unhealthy is moved to a different one |
| `Routing.EveryCandidateCanBeDrawn` | loadbalancer.py:80-83 | without a sticky hit, every healthy pool entry is the redirect target for some draw, and the session then names it |
| `Routing.UnknownUrlNeverChosen` | loadbalancer.py:69-75 | a URL missing from the health map never sticks, never survives the filter and is never the redirect target |
| `Routing.AllUnhealthyIsUnavailable` | loadbalancer.py:69-78 | when every configured backend is unhealthy and the health map only knows configured URLs, every request gets 503 whatever its session says |
| `Routing.RedirectIsSticky` | loadbalancer.py:69-83 | after a redirect, the next request with the updated session and unchanged health stays on the same backend |
| `Balancer.LoadBalancer.Route` | loadbalancer.py:64-83 | the handler's decision and the session afterwards are exactly `Decide` of the old session, and a redirect always goes to a configured URL |

## Left out

- Flask application setup, the secret key, the route decorators and the `redirect(..., 302)` response objects (loadbalancer.py:9-10, 64, 85). These are framework plumbing; the decision is returned as `Redirect(url)` or `Unavailable`.
- The `/status` endpoint (loadbalancer.py:85-89). It only returns the health map unchanged.
- The HEAD request with its 2-second timeout (loadbalancer.py:38). This is network I/O; its outcome is an input.
- Writing the results to `healthChecksForBackendServer.json`, and all logging (loadbalancer.py:52-54 and the `print` calls). This is output with no effect on routing; the results map is returned instead.
- The daemon thread, the endless loop and the 10-second sleep (loadbalancer.py:26, 56-62). These are concurrency and timing; one pass is `HealthCheck`. Interleavings of a pass with concurrent requests are not modelled.
- SSL context and certificate loading, the exit on failure, and `app.run` (loadbalancer.py:91-108). This is start-up wiring.
- The distribution of `random.choice` (loadbalancer.py:80). Only the fact that the draw is some candidate, and that any candidate can be drawn, is modelled.
- Python's `str(e)` rendering of a request exception. The error text is an input string.
