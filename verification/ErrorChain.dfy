/** The bounded walk over an exception's causes.
    Models `_walk_chain` and `is_driver_caused` in gubbi/telemetry/sanitized_errors.py. */
module ErrorChain {
  import opened Prelude

  const MAX_CHAIN_DEPTH: nat := 10

  type Exc = nat   // an exception, by identity

  /** What the walk reads of an exception: its explicit cause, its implicit context, its class. */
  datatype Link = Link(cause: Option<Exc>, context: Option<Exc>, driver: bool)

  /** Every exception that exists, with its link. */
  type Graph = Exc -> Link

  function NextOf(g: Graph, e: Exc): Option<Exc> {
    if g(e).cause.Some? then g(e).cause else g(e).context
  }

  /** The `n`-th exception on the way from `e`, if the way is that long. */
  function Orbit(g: Graph, e: Exc, n: nat): Option<Exc> {
    if n == 0 then Some(e)
    else
      var before := Orbit(g, e, n - 1);
      if before.None? then None else NextOf(g, before.value)
  }

  /** The first `n` exceptions of the way, all different. */
  ghost predicate Walked(g: Graph, e: Exc, chain: seq<Exc>) {
    && (forall i :: 0 <= i < |chain| ==> Orbit(g, e, i) == Some(chain[i]))
    && (forall i, j :: 0 <= i < j < |chain| ==> chain[i] != chain[j])
  }

  /** `f` is raised from `e`'s cause, or, when it has none, from its context. */
  predicate Follows(g: Graph, e: Exc, f: Exc) {
    g(e).cause == Some(f) || (g(e).cause == None && g(e).context == Some(f))
  }

  predicate IsPath(g: Graph, path: seq<Exc>) {
    path != [] && forall i :: 0 <= i < |path| - 1 ==> Follows(g, path[i], path[i + 1])
  }

  /** Some path leads from `e` to `link`. */
  ghost predicate Reaches(g: Graph, e: Exc, link: Exc) {
    exists path :: IsPath(g, path) && path[0] == e && path[|path| - 1] == link
  }

  lemma {:induction false} OrbitReaches(g: Graph, e: Exc, n: nat) returns (path: seq<Exc>)
    requires Orbit(g, e, n).Some?
    ensures IsPath(g, path) && path[0] == e && path[|path| - 1] == Orbit(g, e, n).value
  {
    path := [e];
    if n > 0 {
      path := OrbitReaches(g, e, n - 1);
      path := path + [Orbit(g, e, n).value];
    }
  }

  lemma {:induction false} PathIsOrbit(g: Graph, e: Exc, path: seq<Exc>, n: nat)
    requires IsPath(g, path) && path[0] == e && n < |path|
    ensures Orbit(g, e, n) == Some(path[n])
  {
    if n > 0 {
      PathIsOrbit(g, e, path, n - 1);
      assert Follows(g, path[n - 1], path[n - 1 + 1]);
    }
  }

  lemma ReachesByOrbit(g: Graph, e: Exc, link: Exc)
    ensures Reaches(g, e, link) <==> exists n: nat :: Orbit(g, e, n) == Some(link)
  {
    if Reaches(g, e, link) {
      var path :| IsPath(g, path) && path[0] == e && path[|path| - 1] == link;
      PathIsOrbit(g, e, path, |path| - 1);
    }
    if exists n: nat :: Orbit(g, e, n) == Some(link) {
      var n: nat :| Orbit(g, e, n) == Some(link);
      var path := OrbitReaches(g, e, n);
    }
  }

  /** The whole way from `e` consists of exactly these links. */
  ghost predicate Covers(g: Graph, e: Exc, chain: seq<Exc>) { forall link :: Reaches(g, e, link) <==> link in chain }

  method WalkChain(g: Graph, e: Exc) returns (chain: seq<Exc>, exhausted: bool)
    ensures Walked(g, e, chain) && 1 <= |chain| <= MAX_CHAIN_DEPTH
    ensures !exhausted ==> Covers(g, e, chain)
    ensures exhausted ==> |chain| == MAX_CHAIN_DEPTH && Orbit(g, e, MAX_CHAIN_DEPTH).Some? && Orbit(g, e, MAX_CHAIN_DEPTH).value !in chain
  {
    chain := [];
    var current: Option<Exc> := Some(e);
    while current.Some?
      invariant |chain| <= MAX_CHAIN_DEPTH && Walked(g, e, chain)
      invariant current == Orbit(g, e, |chain|)
      invariant current.None? ==> chain != []
      decreases MAX_CHAIN_DEPTH + 1 - |chain|
    {
      if current.value in chain {
        CycleCovers(g, e, chain);
        return chain, false;
      }
      if |chain| >= MAX_CHAIN_DEPTH {
        return chain, true;
      }
      chain := chain + [current.value];
      current := NextOf(g, current.value);
    }
    EndCovers(g, e, chain);
    exhausted := false;
  }

  method IsDriverCaused(g: Graph, e: Exc) returns (driver: bool)
    ensures !driver <==> Clean(g, e)
  {
    var chain, exhausted := WalkChain(g, e);
    if exhausted {
      TooLong(g, e, chain);
      return true;
    }
    driver := false;
    for i := 0 to |chain|
      invariant driver <==> exists k :: 0 <= k < i && g(chain[k]).driver
    {
      if g(chain[i]).driver {
        driver := true;
      }
    }
    CoveredIsClean(g, e, chain);
  }

  /** The way from `e` has at most ten different links, and none is a driver error. */
  ghost predicate Clean(g: Graph, e: Exc) {
    exists chain :: |chain| <= MAX_CHAIN_DEPTH && Covers(g, e, chain) && DriverFree(g, chain)
  }

  predicate DriverFree(g: Graph, chain: seq<Exc>) { forall i :: 0 <= i < |chain| ==> !g(chain[i]).driver }

  // ------------------------------------------------------------------
  // The way as a sequence
  // ------------------------------------------------------------------

  /** Once a link repeats, the way never leaves the links seen so far. */
  lemma {:induction false} CycleStays(g: Graph, e: Exc, chain: seq<Exc>, n: nat)
    requires Walked(g, e, chain) && Orbit(g, e, |chain|).Some? && Orbit(g, e, |chain|).value in chain
    ensures Orbit(g, e, n).Some? && Orbit(g, e, n).value in chain
  {
    if n < |chain| {
      assert Orbit(g, e, n) == Some(chain[n]);
    } else if n > |chain| {
      CycleStays(g, e, chain, n - 1);
      var before := Orbit(g, e, n - 1).value;
      var i :| 0 <= i < |chain| && chain[i] == before;
      assert Orbit(g, e, i) == Some(before);
      assert Orbit(g, e, i + 1) == NextOf(g, before);
      if i + 1 < |chain| {
        assert Orbit(g, e, i + 1) == Some(chain[i + 1]);
      }
    }
  }

  lemma CycleCovers(g: Graph, e: Exc, chain: seq<Exc>)
    requires Walked(g, e, chain) && Orbit(g, e, |chain|).Some? && Orbit(g, e, |chain|).value in chain
    ensures Covers(g, e, chain)
  {
    forall link ensures Reaches(g, e, link) <==> link in chain {
      ReachesByOrbit(g, e, link);
      if Reaches(g, e, link) {
        var n: nat :| Orbit(g, e, n) == Some(link);
        CycleStays(g, e, chain, n);
      }
      if link in chain {
        var i :| 0 <= i < |chain| && chain[i] == link;
        assert Orbit(g, e, i) == Some(link);
      }
    }
  }

  lemma {:induction false} EndStays(g: Graph, e: Exc, m: nat, n: nat)
    requires Orbit(g, e, m).None? && m <= n
    ensures Orbit(g, e, n).None?
  {
    if m < n {
      EndStays(g, e, m, n - 1);
    }
  }

  lemma EndCovers(g: Graph, e: Exc, chain: seq<Exc>)
    requires Walked(g, e, chain) && Orbit(g, e, |chain|).None?
    ensures Covers(g, e, chain)
  {
    forall link ensures Reaches(g, e, link) <==> link in chain {
      ReachesByOrbit(g, e, link);
      if Reaches(g, e, link) {
        var n: nat :| Orbit(g, e, n) == Some(link);
        if n >= |chain| {
          EndStays(g, e, |chain|, n);
        }
        assert chain[n] == link;
      }
      if link in chain {
        var i :| 0 <= i < |chain| && chain[i] == link;
        assert Orbit(g, e, i) == Some(link);
      }
    }
  }

  /** Different elements, all taken from `b`, are no more than `b` has. */
  lemma {:induction false} DistinctFit(a: seq<Exc>, b: seq<Exc>)
    requires forall i, j :: 0 <= i < j < |a| ==> a[i] != a[j]
    requires forall i :: 0 <= i < |a| ==> a[i] in b
    ensures |a| <= |b|
  {
    if a != [] {
      var k :| 0 <= k < |b| && b[k] == a[0];
      var rest := b[..k] + b[k + 1..];
      forall i | 0 <= i < |a[1..]| ensures a[1..][i] in rest {
        var m :| 0 <= m < |b| && b[m] == a[i + 1];
        assert m != k;
        assert rest[if m < k then m else m - 1] == a[i + 1];
      }
      DistinctFit(a[1..], rest);
    }
  }

  /** Eleven different links in a row cannot be covered by ten. */
  lemma TooLong(g: Graph, e: Exc, chain: seq<Exc>)
    requires Walked(g, e, chain) && |chain| == MAX_CHAIN_DEPTH
    requires Orbit(g, e, MAX_CHAIN_DEPTH).Some? && Orbit(g, e, MAX_CHAIN_DEPTH).value !in chain
    ensures !Clean(g, e)
  {
    var longer := chain + [Orbit(g, e, MAX_CHAIN_DEPTH).value];
    forall other | Covers(g, e, other) ensures |other| > MAX_CHAIN_DEPTH {
      forall i | 0 <= i < |longer| ensures longer[i] in other {
        assert Orbit(g, e, i) == Some(longer[i]);
        ReachesByOrbit(g, e, longer[i]);
        assert Reaches(g, e, longer[i]);
      }
      DistinctFit(longer, other);
    }
  }

  lemma CoveredIsClean(g: Graph, e: Exc, chain: seq<Exc>)
    requires Covers(g, e, chain) && |chain| <= MAX_CHAIN_DEPTH
    ensures Clean(g, e) <==> DriverFree(g, chain)
  {
    if Clean(g, e) {
      var other :| |other| <= MAX_CHAIN_DEPTH && Covers(g, e, other) && DriverFree(g, other);
      forall i | 0 <= i < |chain| ensures !g(chain[i]).driver {
        assert chain[i] in chain;
        assert Reaches(g, e, chain[i]);
        assert chain[i] in other;
      }
    }
  }
}
