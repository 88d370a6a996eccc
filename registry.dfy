/**
 * The configured backend list, the weighted pool expanded from it and the
 * health map every backend starts with.
 */
module Registry {

  /** A backend is identified by its URL. */
  type Url = string

  /** One entry of the configured backend list. */
  datatype Backend = Backend(url: Url, weight: int)

  /** The number of pool entries `range(weight)` yields: none for a weight below one. */
  function Copies(weight: int): nat
  {
    if weight > 0 then weight else 0
  }

  /** `n` copies of `u`. */
  function Repeat(u: Url, n: nat): (r: seq<Url>)
    ensures |r| == n
  {
    if n == 0 then [] else [u] + Repeat(u, n - 1)
  }

  /** The run of entries one backend contributes to the weighted pool. */
  function Block(b: Backend): seq<Url>
  {
    Repeat(b.url, Copies(b.weight))
  }

  /** The sum of the (effective) weights of the backends. */
  function TotalWeight(backends: seq<Backend>): nat
  {
    if backends == [] then 0 else Copies(backends[0].weight) + TotalWeight(backends[1..])
  }

  /** The summed weight of every configured entry whose URL is `u`. */
  function WeightOf(backends: seq<Backend>, u: Url): nat
  {
    if backends == [] then 0
    else (if backends[0].url == u then Copies(backends[0].weight) else 0) + WeightOf(backends[1..], u)
  }

  /** The configured URLs. */
  function Urls(backends: seq<Backend>): set<Url>
  {
    set b | b in backends :: b.url
  }

  /**
   * The weighted pool: every backend's URL once per unit of weight, in
   * registry order.
   */
  function WeightedPool(backends: seq<Backend>): (pool: seq<Url>)
    ensures |pool| == TotalWeight(backends)
  {
    if backends == [] then [] else Block(backends[0]) + WeightedPool(backends[1..])
  }

  /** The health map at start-up: every configured URL, marked healthy. */
  function InitialHealth(backends: seq<Backend>): (health: map<Url, bool>)
    ensures health.Keys == Urls(backends)
    ensures forall u :: u in health ==> health[u]
  {
    map u | u in Urls(backends) :: true
  }

  lemma {:induction false} RepeatMultiplicity(u: Url, n: nat, v: Url)
    ensures multiset(Repeat(u, n))[v] == if u == v then n else 0
  {
    if n > 0 {
      RepeatMultiplicity(u, n - 1, v);
      assert multiset(Repeat(u, n)) == multiset([u]) + multiset(Repeat(u, n - 1));
    }
  }

  lemma {:induction false} RepeatMembers(u: Url, n: nat, v: Url)
    ensures v in Repeat(u, n) <==> u == v && n > 0
  {
    RepeatMultiplicity(u, n, v);
    assert v in Repeat(u, n) <==> v in multiset(Repeat(u, n));
  }

  /** Expanding a concatenated list gives the concatenated pools. */
  lemma {:induction false} PoolConcat(a: seq<Backend>, b: seq<Backend>)
    ensures WeightedPool(a + b) == WeightedPool(a) + WeightedPool(b)
  {
    if a == [] {
      assert a + b == b;
    } else {
      assert (a + b)[0] == a[0];
      assert (a + b)[1..] == a[1..] + b;
      PoolConcat(a[1..], b);
    }
  }

  /**
   * Registry order and contiguity: the pool is the pool of the backends
   * before the i-th, then the i-th backend's own run of `weight` copies,
   * then the pool of the backends after it.
   */
  lemma {:induction false} PoolBlocks(backends: seq<Backend>, i: nat)
    requires i < |backends|
    ensures WeightedPool(backends)
         == WeightedPool(backends[..i]) + Block(backends[i]) + WeightedPool(backends[i + 1..])
  {
    assert backends == backends[..i] + [backends[i]] + backends[i + 1..];
    PoolConcat(backends[..i] + [backends[i]], backends[i + 1..]);
    PoolConcat(backends[..i], [backends[i]]);
    assert [backends[i]][1..] == [];
  }

  /**
   * Position of a backend's run: the i-th backend's copies sit right after
   * the entries of the backends before it.
   */
  lemma PoolEntryAt(backends: seq<Backend>, i: nat, k: nat)
    requires i < |backends|
    requires k < Copies(backends[i].weight)
    ensures TotalWeight(backends[..i]) + k < |WeightedPool(backends)|
    ensures WeightedPool(backends)[TotalWeight(backends[..i]) + k] == backends[i].url
  {
    PoolBlocks(backends, i);
    RepeatAt(backends[i].url, Copies(backends[i].weight), k);
  }

  lemma {:induction false} RepeatAt(u: Url, n: nat, k: nat)
    requires k < n
    ensures Repeat(u, n)[k] == u
  {
    if k > 0 {
      RepeatAt(u, n - 1, k - 1);
    }
  }

  /** Multiplicity: each URL occurs in the pool as often as its configured weight says. */
  lemma {:induction false} PoolMultiplicity(backends: seq<Backend>, u: Url)
    ensures multiset(WeightedPool(backends))[u] == WeightOf(backends, u)
  {
    if backends != [] {
      PoolMultiplicity(backends[1..], u);
      RepeatMultiplicity(backends[0].url, Copies(backends[0].weight), u);
      assert multiset(WeightedPool(backends))
          == multiset(Block(backends[0])) + multiset(WeightedPool(backends[1..]));
    }
  }

  lemma {:induction false} WeightOfAbsent(backends: seq<Backend>, u: Url)
    requires forall j :: 0 <= j < |backends| ==> backends[j].url != u
    ensures WeightOf(backends, u) == 0
  {
    if backends != [] {
      WeightOfAbsent(backends[1..], u);
    }
  }

  /**
   * With distinct URLs, a backend's URL occurs in the pool exactly `weight`
   * times (none when its weight is below one).
   */
  lemma {:induction false} PoolCountOfUniqueUrl(backends: seq<Backend>, i: nat)
    requires i < |backends|
    requires forall j :: 0 <= j < |backends| && j != i ==> backends[j].url != backends[i].url
    ensures multiset(WeightedPool(backends))[backends[i].url] == Copies(backends[i].weight)
  {
    PoolMultiplicity(backends, backends[i].url);
    WeightOfUnique(backends, i);
  }

  lemma {:induction false} WeightOfUnique(backends: seq<Backend>, i: nat)
    requires i < |backends|
    requires forall j :: 0 <= j < |backends| && j != i ==> backends[j].url != backends[i].url
    ensures WeightOf(backends, backends[i].url) == Copies(backends[i].weight)
  {
    var rest := backends[1..];
    if i == 0 {
      forall j | 0 <= j < |rest|
        ensures rest[j].url != backends[0].url
      {
        assert rest[j] == backends[j + 1];
      }
      WeightOfAbsent(rest, backends[0].url);
    } else {
      assert backends[0].url != backends[i].url;
      assert rest[i - 1] == backends[i];
      forall j | 0 <= j < |rest| && j != i - 1
        ensures rest[j].url != rest[i - 1].url
      {
        assert rest[j] == backends[j + 1];
      }
      WeightOfUnique(rest, i - 1);
    }
  }

  /** Membership: a URL is in the pool exactly when some entry with that URL has weight at least one. */
  lemma {:induction false} PoolMembers(backends: seq<Backend>, u: Url)
    ensures u in WeightedPool(backends)
        <==> exists i :: 0 <= i < |backends| && backends[i].url == u && backends[i].weight > 0
  {
    if backends != [] {
      var rest := backends[1..];
      PoolMembers(rest, u);
      RepeatMembers(backends[0].url, Copies(backends[0].weight), u);
      if u in WeightedPool(backends) {
        if u in Block(backends[0]) {
          assert backends[0].url == u && backends[0].weight > 0;
        } else {
          assert u in WeightedPool(rest);
          var j :| 0 <= j < |rest| && rest[j].url == u && rest[j].weight > 0;
          assert backends[j + 1] == rest[j];
        }
      } else {
        forall i | 0 <= i < |backends|
          ensures !(backends[i].url == u && backends[i].weight > 0)
        {
          if i > 0 {
            assert rest[i - 1] == backends[i];
          }
        }
      }
    }
  }

  /** Every pool entry is a configured URL. */
  lemma PoolWithinUrls(backends: seq<Backend>, u: Url)
    requires u in WeightedPool(backends)
    ensures u in Urls(backends)
  {
    PoolMembers(backends, u);
    var i :| 0 <= i < |backends| && backends[i].url == u && backends[i].weight > 0;
    assert backends[i] in backends;
  }
}
