/** Cleanup is invisible: no request of any run can tell whether `cleanup_expired` ran before it. */
module OAuthCleanup {
  import opened Prelude
  import opened OAuthModel

  // ------------------------------------------------------------------
  // The invariant every run keeps
  // ------------------------------------------------------------------

  ghost predicate RowsWellFormed(t: Tables) {
    && (forall c :: c in t.codes ==> t.codes[c] == CodeRow(t.codes[c].data))
    && (forall a :: a in t.access ==> t.access[a] == AccessRow(t.access[a].data) && t.access[a].expires.Some?)
    && (forall r :: r in t.refresh ==> t.refresh[r] == RefreshRow(t.refresh[r].data) && t.refresh[r].expires.Some?)
  }

  /** Everything stored was drawn from the generator. */
  ghost predicate Known(t: Tables, used: set<Token>) {
    && t.codes.Keys <= used
    && t.access.Keys <= used
    && t.refresh.Keys <= used
    && (forall p :: p in t.pairs ==> p.access in used && p.refresh in used)
    && "" !in used
  }

  ghost predicate PairsFunctional(ps: seq<Pair>) {
    forall p, q :: p in ps && q in ps && p.access == q.access ==> p == q
  }

  /** Every stored access token still has its pairing row. */
  ghost predicate AccessPaired(t: Tables) {
    forall a :: a in t.access ==> PairedRefresh(t.pairs, a).Some?
  }

  /** An access token never outlives the refresh token it is paired with. */
  ghost predicate AccessNeverOutlives(t: Tables) {
    forall p :: p in t.pairs && p.access in t.access && p.refresh in t.refresh
      && t.access[p.access].expires.Some? && t.refresh[p.refresh].expires.Some?
      ==> t.access[p.access].expires.value <= t.refresh[p.refresh].expires.value
  }

  ghost predicate Inv(t: Tables, used: set<Token>) {
    && RowsWellFormed(t)
    && Known(t, used)
    && PairsFunctional(t.pairs)
    && AccessPaired(t)
    && AccessNeverOutlives(t)
  }

  lemma LoadCodeKeepsInv(t: Tables, now: real, client: Client, code: Token, used: set<Token>)
    requires Inv(t, used)
    ensures Inv(LoadCode(t, now, client, code).0, used)
  {
  }

  lemma LoadRefreshKeepsInv(t: Tables, now: real, client: Client, token: Token, used: set<Token>)
    requires Inv(t, used)
    ensures Inv(LoadRefresh(t, now, client, token).0, used)
  {
  }

  lemma LoadAccessKeepsInv(t: Tables, now: real, token: Token, used: set<Token>)
    requires Inv(t, used)
    ensures Inv(LoadAccess(t, now, token).0, used)
  {
  }

  lemma IssueKeepsPaired(t: Tables, a: Token, access: AccessToken, r: Token, refresh: RefreshToken)
    requires AccessPaired(t)
    ensures AccessPaired(SaveIssuedPair(t, a, access, r, refresh))
  {
    var t1 := SaveIssuedPair(t, a, access, r, refresh);
    forall x | x in t1.access ensures PairedRefresh(t1.pairs, x).Some? {
      if x == a {
        assert Pair(a, r) in t1.pairs;
      } else {
        assert Pair(x, PairedRefresh(t.pairs, x).value) in t1.pairs;
      }
    }
  }

  lemma IssueKeepsOutlives(t: Tables, a: Token, access: AccessToken, r: Token, refresh: RefreshToken, used: set<Token>)
    requires AccessNeverOutlives(t) && Known(t, used) && a !in used && r !in used
    requires access.expiresAt.Some? && refresh.expiresAt.Some? && access.expiresAt.value <= refresh.expiresAt.value
    ensures AccessNeverOutlives(SaveIssuedPair(t, a, access, r, refresh))
  {
    var t1 := SaveIssuedPair(t, a, access, r, refresh);
    forall p | p in t1.pairs ensures p == Pair(a, r) || (p in t.pairs && p.access != a && p.refresh != r) {
    }
  }

  lemma IssueKeepsInv(t: Tables, a: Token, access: AccessToken, r: Token, refresh: RefreshToken, used: set<Token>)
    requires Inv(t, used)
    requires a !in used && r !in used && a != "" && r != ""
    requires access.expiresAt.Some? && refresh.expiresAt.Some? && access.expiresAt.value <= refresh.expiresAt.value
    ensures Inv(SaveIssuedPair(t, a, access, r, refresh), used + {a, r})
  {
    IssueKeepsPaired(t, a, access, r, refresh);
    IssueKeepsOutlives(t, a, access, r, refresh, used);
    IssueKeepsRest(t, a, access, r, refresh, used);
  }

  lemma IssueKeepsRest(t: Tables, a: Token, access: AccessToken, r: Token, refresh: RefreshToken, used: set<Token>)
    requires RowsWellFormed(t) && Known(t, used) && PairsFunctional(t.pairs)
    requires a !in used && a != "" && r != "" && access.expiresAt.Some? && refresh.expiresAt.Some?
    ensures RowsWellFormed(SaveIssuedPair(t, a, access, r, refresh))
    ensures Known(SaveIssuedPair(t, a, access, r, refresh), used + {a, r})
    ensures PairsFunctional(SaveIssuedPair(t, a, access, r, refresh).pairs)
  {
  }

  lemma RevokeRefreshKeepsInv(t: Tables, token: Token, used: set<Token>)
    requires Inv(t, used)
    ensures Inv(RevokeRefresh(t, token), used)
  {
    var t1 := RevokeRefresh(t, token);
    forall x | x in t1.access ensures PairedRefresh(t1.pairs, x).Some? {
      assert Pair(x, PairedRefresh(t.pairs, x).value) in t1.pairs;
    }
  }

  lemma RevokeAccessKeepsPaired(t: Tables, token: Token)
    requires AccessPaired(t)
    ensures AccessPaired(RevokeAccess(t, token))
  {
    var t1 := RevokeAccess(t, token);
    forall x | x in t1.access ensures PairedRefresh(t1.pairs, x).Some? {
      assert Pair(x, PairedRefresh(t.pairs, x).value) in t1.pairs;
    }
  }

  lemma RevokeAccessKeepsRest(t: Tables, token: Token, used: set<Token>)
    requires RowsWellFormed(t) && Known(t, used) && PairsFunctional(t.pairs) && AccessNeverOutlives(t)
    ensures var t1 := RevokeAccess(t, token);
      RowsWellFormed(t1) && Known(t1, used) && PairsFunctional(t1.pairs) && AccessNeverOutlives(t1)
  {
  }

  lemma RevokeAccessKeepsInv(t: Tables, token: Token, used: set<Token>)
    requires Inv(t, used)
    ensures Inv(RevokeAccess(t, token), used)
  {
    RevokeAccessKeepsPaired(t, token);
    RevokeAccessKeepsRest(t, token, used);
  }

  lemma CleanupKeepsInv(t: Tables, now: int, used: set<Token>)
    requires Inv(t, used)
    ensures Inv(Cleanup(t, now), used)
  {
    var t1 := Cleanup(t, now);
    forall x | x in t1.access ensures PairedRefresh(t1.pairs, x).Some? {
      assert Pair(x, PairedRefresh(t.pairs, x).value) in t1.pairs;
    }
  }

  lemma RedeemKeepsInv(t: Tables, now: real, client: Client, code: Token, a: Token, r: Token, used: set<Token>)
    requires Inv(t, used) && a !in used && r !in used && a != "" && r != ""
    ensures Inv(ServeRedeem(t, now, client, code, a, r).0, used + {a, r})
  {
    LoadCodeKeepsInv(t, now, client, code, used);
    var (t1, loaded) := LoadCode(t, now, client, code);
    if loaded.Some? {
      var t2 := t1.(codes := t1.codes - {code});
      assert Inv(t2, used);
      IssueKeepsInv(t2, a, NewAccess(client, loaded.value.scopes, now, loaded.value.resource),
                    r, NewRefresh(client, loaded.value.scopes, now), used);
    } else {
      InvWidens(t1, used, {a, r});
    }
  }

  lemma RotateKeepsInv(t: Tables, now: real, client: Client, prev: Token, scopes: seq<string>, a: Token, r: Token, used: set<Token>)
    requires Inv(t, used) && a !in used && r !in used && a != "" && r != ""
    ensures Inv(ServeRotate(t, now, client, prev, scopes, a, r).0, used + {a, r})
  {
    LoadRefreshKeepsInv(t, now, client, prev, used);
    var (t1, loaded) := LoadRefresh(t, now, client, prev);
    if loaded.Some? {
      var effective := if scopes != [] then scopes else loaded.value.scopes;
      RevokeRefreshKeepsInv(t1, prev, used);
      IssueKeepsInv(RevokeRefresh(t1, prev), a, NewAccess(client, effective, now, None),
                    r, NewRefresh(client, effective, now), used);
    } else {
      InvWidens(t1, used, {a, r});
    }
  }

  lemma InvWidens(t: Tables, used: set<Token>, more: set<Token>)
    requires Inv(t, used) && "" !in more
    ensures Inv(t, used + more)
  {
  }

  /** Every event of a run, cleanup included, keeps the invariant. */
  lemma StepKeepsInv(t: Tables, e: Event, used: set<Token>)
    requires Inv(t, used) && DrawsFresh(e, used)
    ensures Inv(Step(t, e).0, used + Drawn(e))
  {
    if e.Cleaning? {
      CleanupKeepsInv(t, Seconds(e.now), used);
      assert used + Drawn(e) == used;
    } else {
      ServeKeepsInv(t, e.now, e.req, used);
    }
  }

  lemma ServeKeepsInv(t: Tables, now: real, req: Request, used: set<Token>)
    requires Inv(t, used) && DrawsFresh(Serving(now, req), used)
    ensures Inv(Serve(t, now, req).0, used + Drawn(Serving(now, req)))
  {
    var drawn := Drawn(Serving(now, req));
    match req
    case SaveCode(code, data) =>
      InvWidens(t, used, drawn);
    case Redeem(client, code, access, refresh) =>
      RedeemKeepsInv(t, now, client, code, access, refresh, used);
    case Rotate(client, prev, scopes, access, refresh) =>
      RotateKeepsInv(t, now, client, prev, scopes, access, refresh, used);
    case RevokeAccessToken(token) =>
      assert used + drawn == used;
      LoadAccessKeepsInv(t, now, token, used);
      RevokeAccessKeepsInv(LoadAccess(t, now, token).0, token, used);
    case RevokeRefreshToken(client, token) =>
      assert used + drawn == used;
      LoadRefreshKeepsInv(t, now, client, token, used);
      RevokeRefreshKeepsInv(LoadRefresh(t, now, client, token).0, token, used);
    case Introspect(token) =>
      assert used + drawn == used;
      LoadAccessKeepsInv(t, now, token, used);
    case Validate(token) =>
      assert used + drawn == used;
  }

  // ------------------------------------------------------------------
  // The simulation: `s` has been cleaned, `t` has not
  // ------------------------------------------------------------------

  /** `s` holds a subset of the rows of `t`, and every row it misses is one that no request at
      `now` or later can use. */
  ghost predicate Cleaned(s: Tables, t: Tables, now: real) {
    && (forall c :: c in s.codes ==> c in t.codes && s.codes[c] == t.codes[c])
    && (forall c :: c in t.codes && c !in s.codes ==> t.codes[c].data.expiresAt < now)
    && (forall a :: a in s.access ==> a in t.access && s.access[a] == t.access[a])
    && (forall a :: a in t.access && a !in s.access ==> Expired(t.access[a], Seconds(now)))
    && (forall r :: r in s.refresh ==> r in t.refresh && s.refresh[r] == t.refresh[r])
    && (forall r :: r in t.refresh && r !in s.refresh ==> Expired(t.refresh[r], Seconds(now)))
    && (forall p :: p in s.pairs ==> p in t.pairs)
    && (forall p :: p in t.pairs && p !in s.pairs ==> p.access !in s.access)
  }

  lemma PyIntMonotone(x: real, y: real)
    requires x <= y
    ensures PyInt(x) <= PyInt(y)
  {
  }

  lemma CleanedLater(s: Tables, t: Tables, now: real, later: real)
    requires Cleaned(s, t, now) && now <= later
    ensures Cleaned(s, t, later)
  {
    PyIntMonotone(now, later);
  }

  /** Cleaning the cleaned side once more loses nothing a later request could use. In particular a code
      whose whole-second expiry has passed is no longer loadable, and the cascade only removes
      access tokens that have expired themselves. */
  lemma CleanupKeepsCleaned(s: Tables, t: Tables, now: real, used: set<Token>)
    requires Cleaned(s, t, now) && Inv(s, used) && Inv(t, used)
    ensures Cleaned(Cleanup(s, Seconds(now)), t, now)
  {
    var s1 := Cleanup(s, Seconds(now));
    forall c | c in t.codes && c !in s1.codes ensures t.codes[c].data.expiresAt < now {
      if t.codes[c].data.expiresAt >= now {
        PyIntMonotone(now, t.codes[c].data.expiresAt);
      }
    }
    forall a | a in t.access && a !in s1.access ensures Expired(t.access[a], Seconds(now)) {
      CascadeOnlyExpired(s, Seconds(now), a, used);
    }
  }

  lemma CascadeOnlyExpired(s: Tables, now: int, a: Token, used: set<Token>)
    requires Inv(s, used)
    ensures a in s.access && a !in Cleanup(s, now).access ==> Expired(s.access[a], now)
  {
  }

  lemma LoadCodeAgrees(s: Tables, t: Tables, now: real, client: Client, code: Token)
    requires Cleaned(s, t, now)
    ensures LoadCode(s, now, client, code).1 == LoadCode(t, now, client, code).1
    ensures Cleaned(LoadCode(s, now, client, code).0, LoadCode(t, now, client, code).0, now)
  {
  }

  lemma LoadRefreshAgrees(s: Tables, t: Tables, now: real, client: Client, token: Token)
    requires Cleaned(s, t, now) && RowsWellFormed(t)
    ensures LoadRefresh(s, now, client, token).1 == LoadRefresh(t, now, client, token).1
    ensures Cleaned(LoadRefresh(s, now, client, token).0, LoadRefresh(t, now, client, token).0, now)
  {
  }

  lemma LoadAccessAgrees(s: Tables, t: Tables, now: real, token: Token)
    requires Cleaned(s, t, now) && RowsWellFormed(t)
    ensures LoadAccess(s, now, token).1 == LoadAccess(t, now, token).1
    ensures Cleaned(LoadAccess(s, now, token).0, LoadAccess(t, now, token).0, now)
  {
  }

  lemma IssueKeepsCleaned(s: Tables, t: Tables, now: real, a: Token, access: AccessToken, r: Token, refresh: RefreshToken)
    requires Cleaned(s, t, now)
    requires forall p :: p in t.pairs ==> p.access != a
    ensures Cleaned(SaveIssuedPair(s, a, access, r, refresh), SaveIssuedPair(t, a, access, r, refresh), now)
  {
  }

  lemma RevokeRefreshKeepsCleaned(s: Tables, t: Tables, now: real, token: Token)
    requires Cleaned(s, t, now)
    ensures Cleaned(RevokeRefresh(s, token), RevokeRefresh(t, token), now)
  {
  }

  lemma RevokeAccessKeepsCleaned(s: Tables, t: Tables, now: real, token: Token)
    requires Cleaned(s, t, now) && AccessPaired(s) && PairsFunctional(t.pairs)
    requires token in s.access
    ensures Cleaned(RevokeAccess(s, token), RevokeAccess(t, token), now)
  {
    var r := PairedRefresh(s.pairs, token).value;
    assert Pair(token, r) in t.pairs;
    assert PairedRefresh(t.pairs, token) == Some(r);
  }

  lemma RedeemAgrees(s: Tables, t: Tables, now: real, client: Client, code: Token, a: Token, r: Token, used: set<Token>)
    requires Cleaned(s, t, now) && Known(t, used) && a !in used
    ensures ServeRedeem(s, now, client, code, a, r).1 == ServeRedeem(t, now, client, code, a, r).1
    ensures Cleaned(ServeRedeem(s, now, client, code, a, r).0, ServeRedeem(t, now, client, code, a, r).0, now)
  {
    LoadCodeAgrees(s, t, now, client, code);
    var (s1, loaded) := LoadCode(s, now, client, code);
    var (t1, _) := LoadCode(t, now, client, code);
    if loaded.Some? {
      IssueKeepsCleaned(s1.(codes := s1.codes - {code}), t1.(codes := t1.codes - {code}), now,
                        a, NewAccess(client, loaded.value.scopes, now, loaded.value.resource),
                        r, NewRefresh(client, loaded.value.scopes, now));
    }
  }

  lemma RotateAgrees(s: Tables, t: Tables, now: real, client: Client, prev: Token, scopes: seq<string>, a: Token, r: Token, used: set<Token>)
    requires Cleaned(s, t, now) && RowsWellFormed(t) && Known(t, used) && a !in used
    ensures ServeRotate(s, now, client, prev, scopes, a, r).1 == ServeRotate(t, now, client, prev, scopes, a, r).1
    ensures Cleaned(ServeRotate(s, now, client, prev, scopes, a, r).0, ServeRotate(t, now, client, prev, scopes, a, r).0, now)
  {
    LoadRefreshAgrees(s, t, now, client, prev);
    var (s1, loaded) := LoadRefresh(s, now, client, prev);
    var (t1, _) := LoadRefresh(t, now, client, prev);
    if loaded.Some? {
      var effective := if scopes != [] then scopes else loaded.value.scopes;
      RevokeRefreshKeepsCleaned(s1, t1, now, prev);
      IssueKeepsCleaned(RevokeRefresh(s1, prev), RevokeRefresh(t1, prev), now,
                        a, NewAccess(client, effective, now, None), r, NewRefresh(client, effective, now));
    }
  }

  lemma SaveCodeAgrees(s: Tables, t: Tables, now: real, code: Token, data: AuthCode)
    requires Cleaned(s, t, now)
    ensures Cleaned(Serve(s, now, SaveCode(code, data)).0, Serve(t, now, SaveCode(code, data)).0, now)
  {
  }

  lemma RevokeAccessAgrees(s: Tables, t: Tables, now: real, token: Token, used: set<Token>)
    requires Cleaned(s, t, now) && Inv(s, used) && Inv(t, used)
    ensures Serve(s, now, RevokeAccessToken(token)).1 == Serve(t, now, RevokeAccessToken(token)).1
    ensures Cleaned(Serve(s, now, RevokeAccessToken(token)).0, Serve(t, now, RevokeAccessToken(token)).0, now)
  {
    LoadAccessAgrees(s, t, now, token);
    if LoadAccess(s, now, token).1.Some? {
      RevokeAccessKeepsCleaned(s, t, now, token);
    }
  }

  lemma RevokeRefreshAgrees(s: Tables, t: Tables, now: real, client: Client, token: Token)
    requires Cleaned(s, t, now) && RowsWellFormed(t)
    ensures Serve(s, now, RevokeRefreshToken(client, token)).1 == Serve(t, now, RevokeRefreshToken(client, token)).1
    ensures Cleaned(Serve(s, now, RevokeRefreshToken(client, token)).0, Serve(t, now, RevokeRefreshToken(client, token)).0, now)
  {
    LoadRefreshAgrees(s, t, now, client, token);
    RevokeRefreshKeepsCleaned(s, t, now, token);
  }

  /** Serving the same request on both sides gives the same answer and keeps the relation. */
  lemma ServeAgrees(s: Tables, t: Tables, now: real, req: Request, used: set<Token>)
    requires Cleaned(s, t, now) && Inv(s, used) && Inv(t, used)
    requires DrawsFresh(Serving(now, req), used)
    ensures Serve(s, now, req).1 == Serve(t, now, req).1
    ensures Cleaned(Serve(s, now, req).0, Serve(t, now, req).0, now)
  {
    match req
    case SaveCode(code, data) => SaveCodeAgrees(s, t, now, code, data);
    case Redeem(client, code, access, refresh) => RedeemAgrees(s, t, now, client, code, access, refresh, used);
    case Rotate(client, prev, scopes, access, refresh) => RotateAgrees(s, t, now, client, prev, scopes, access, refresh, used);
    case RevokeAccessToken(token) => RevokeAccessAgrees(s, t, now, token, used);
    case RevokeRefreshToken(client, token) => RevokeRefreshAgrees(s, t, now, client, token);
    case Introspect(token) => LoadAccessAgrees(s, t, now, token);
    case Validate(token) =>
  }

  /** What the cleaned side and the uncleaned side of a run share. */
  ghost predicate Related(s: Tables, t: Tables, now: real, used: set<Token>) {
    Cleaned(s, t, now) && Inv(s, used) && Inv(t, used)
  }

  lemma CleaningStep(s: Tables, t: Tables, now: real, e: Event, used: set<Token>)
    requires Related(s, t, now, used) && e.Cleaning? && now <= e.now
    ensures Related(Step(s, e).0, t, e.now, used + Drawn(e))
  {
    assert DrawsFresh(e, used) && used + Drawn(e) == used;
    CleanedLater(s, t, now, e.now);
    StepKeepsInv(s, e, used);
    CleanupKeepsCleaned(s, t, e.now, used);
  }

  lemma ServingStep(s: Tables, t: Tables, now: real, e: Event, used: set<Token>)
    requires Related(s, t, now, used) && e.Serving? && now <= e.now && DrawsFresh(e, used)
    ensures Related(Step(s, e).0, Step(t, e).0, e.now, used + Drawn(e))
    ensures Step(s, e).1 == Step(t, e).1
  {
    CleanedLater(s, t, now, e.now);
    StepKeepsInv(s, e, used);
    StepKeepsInv(t, e, used);
    ServeAgrees(s, t, e.now, e.req, used);
  }

  lemma AnswersStep(t: Tables, e: Event, rest: seq<Event>)
    ensures Answers(t, [e] + rest) == (var a := Step(t, e).1; if a.Some? then [a.value] else []) + Answers(Step(t, e).0, rest)
  {
    assert ([e] + rest)[1..] == rest;
  }

  lemma {:induction false} Simulation(s: Tables, t: Tables, es: seq<Event>, now: real, used: set<Token>)
    requires Related(s, t, now, used)
    requires Admissible(es, now, used)
    ensures Answers(s, es) == Answers(t, WithoutCleanups(es))
    decreases |es|
  {
    if es != [] {
      var e, rest := es[0], es[1..];
      assert es == [e] + rest;
      AnswersStep(s, e, rest);
      if e.Cleaning? {
        CleaningStep(s, t, now, e, used);
        Simulation(Step(s, e).0, t, rest, e.now, used + Drawn(e));
      } else {
        ServingStep(s, t, now, e, used);
        Simulation(Step(s, e).0, Step(t, e).0, rest, e.now, used + Drawn(e));
        AnswersStep(t, e, WithoutCleanups(rest));
      }
    }
  }

  /** Every request of a run gets the answer it would have got had `cleanup_expired` never run,
      wherever and however often it did run. */
  lemma CleanupIsInvisible(es: seq<Event>, start: real)
    requires Admissible(es, start, {})
    ensures Answers(EMPTY, es) == Answers(EMPTY, WithoutCleanups(es))
  {
    Simulation(EMPTY, EMPTY, es, start, {});
  }

  // ------------------------------------------------------------------
  // What a cleanup removes
  // ------------------------------------------------------------------

  lemma {:induction false} RunKeepsInv(t: Tables, es: seq<Event>, now: real, used: set<Token>) returns (all: set<Token>)
    requires Inv(t, used) && Admissible(es, now, used)
    ensures Inv(Run(t, es), all)
    decreases |es|
  {
    if es == [] {
      all := used;
    } else {
      StepKeepsInv(t, es[0], used);
      all := RunKeepsInv(Step(t, es[0]).0, es[1..], es[0].now, used + Drawn(es[0]));
    }
  }

  /** Something with this lifetime has ended at `now`. */
  predicate Over(expiresAt: Option<int>, now: int) { expiresAt.Some? && expiresAt.value < now }

  lemma RowsRemoved(t: Tables, now: int, used: set<Token>)
    requires Inv(t, used)
    ensures var t1 := Cleanup(t, now);
      && (forall c :: c in t1.codes <==> c in t.codes && !(PyInt(t.codes[c].data.expiresAt) < now))
      && (forall a :: a in t1.access <==> a in t.access && !Over(t.access[a].data.expiresAt, now))
      && (forall r :: r in t1.refresh <==> r in t.refresh && !Over(t.refresh[r].data.expiresAt, now))
  {
    forall a ensures a in Cleanup(t, now).access <==> a in t.access && !Over(t.access[a].data.expiresAt, now) {
      CascadeOnlyExpired(t, now, a, used);
    }
  }

  lemma RowsUnchanged(t: Tables, now: int)
    ensures var t1 := Cleanup(t, now);
      && (forall c :: c in t1.codes ==> c in t.codes && t1.codes[c] == t.codes[c])
      && (forall a :: a in t1.access ==> a in t.access && t1.access[a] == t.access[a])
      && (forall r :: r in t1.refresh ==> r in t.refresh && t1.refresh[r] == t.refresh[r])
  {
  }

  lemma PairsRemoved(t: Tables, now: int, used: set<Token>, p: Pair)
    requires Inv(t, used)
    ensures p in Cleanup(t, now).pairs <==>
      && p in t.pairs && !(p.access in t.access && Over(t.access[p.access].data.expiresAt, now))
      && !(p.refresh in t.refresh && Over(t.refresh[p.refresh].data.expiresAt, now))
  {
  }

  /** After any run a cleanup leaves exactly the codes and tokens whose lifetime is not over, and the pairing rows that
      name no token whose lifetime is. */
  lemma CleanupRemovesExactly(es: seq<Event>, start: real, now: real)
    requires Admissible(es, start, {})
    ensures var t, t1 := Run(EMPTY, es), Run(EMPTY, es + [Cleaning(now)]);
      && (forall c :: c in t1.codes <==> c in t.codes && !(PyInt(t.codes[c].data.expiresAt) < PyInt(now)))
      && (forall a :: a in t1.access <==> a in t.access && !Over(t.access[a].data.expiresAt, PyInt(now)))
      && (forall r :: r in t1.refresh <==> r in t.refresh && !Over(t.refresh[r].data.expiresAt, PyInt(now)))
      && (forall p :: p in t1.pairs <==>
            && p in t.pairs && !(p.access in t.access && Over(t.access[p.access].data.expiresAt, PyInt(now)))
            && !(p.refresh in t.refresh && Over(t.refresh[p.refresh].data.expiresAt, PyInt(now))))
      && (forall c :: c in t1.codes ==> t1.codes[c] == t.codes[c])
      && (forall a :: a in t1.access ==> t1.access[a] == t.access[a])
      && (forall r :: r in t1.refresh ==> t1.refresh[r] == t.refresh[r])
  {
    var t := Run(EMPTY, es);
    var used := RunKeepsInv(EMPTY, es, start, {});
    RunPush(EMPTY, es, Cleaning(now));
    RowsRemoved(t, PyInt(now), used);
    RowsUnchanged(t, PyInt(now));
    forall p ensures p in Cleanup(t, PyInt(now)).pairs <==>
      && p in t.pairs && !(p.access in t.access && Over(t.access[p.access].data.expiresAt, PyInt(now)))
      && !(p.refresh in t.refresh && Over(t.refresh[p.refresh].data.expiresAt, PyInt(now)))
    {
      PairsRemoved(t, PyInt(now), used, p);
    }
  }
}
