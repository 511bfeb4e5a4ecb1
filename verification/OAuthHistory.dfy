/** What every request is answered, said in terms of the earlier requests alone: who saved which code, who has tried it,
    what was issued to whom and when, and what has ended it. Neither tables nor loaders occur in it. */
module OAuthHistory {
  import opened Prelude
  import opened OAuthModel

  // ------------------------------------------------------------------
  // The history
  // ------------------------------------------------------------------

  /** A pair of tokens: whom it was issued to, with which scopes, in which second. */
  datatype Issue = Issue(client: Client, scopes: seq<string>, at: int, access: Token, refresh: Token, resource: Option<string>)

  predicate SavesAt(es: seq<Event>, i: nat, code: Token, data: AuthCode) {
    i < |es| && es[i].Serving? && es[i].req == SaveCode(code, data)
  }

  predicate Tries(e: Event, code: Token) { e.Serving? && e.req.Redeem? && e.req.code == code }

  /** Nobody has tried the code between `i` and `n`, whether in vain or not. */
  predicate Untried(es: seq<Event>, i: nat, n: nat, code: Token)
    requires n <= |es|
  {
    forall k :: i < k < n ==> !Tries(es[k], code)
  }

  /** The pair is rotated or revoked by its own client, or its access token is revoked in time. */
  predicate Ends(e: Event, iss: Issue) {
    e.Serving? &&
      match e.req
      case Rotate(client, prev, _, _, _) => client == iss.client && prev == iss.refresh
      case RevokeRefreshToken(client, token) => client == iss.client && token == iss.refresh
      case RevokeAccessToken(token) => token == iss.access && Seconds(e.now) <= iss.at + 3600
      case _ => false
  }

  predicate Standing(es: seq<Event>, i: nat, n: nat, iss: Issue)
    requires n <= |es|
  {
    forall k :: i < k < n ==> !Ends(es[k], iss)
  }

  /** The code saved at `i` can be redeemed at `n`: by the client it was saved for, not after its expiry, untried. */
  predicate Redeemable(es: seq<Event>, n: nat, i: nat, client: Client, code: Token, data: AuthCode)
    requires n < |es|
  {
    i < n && SavesAt(es, i, code, data) && data.client == client && data.expiresAt >= es[n].now && Untried(es, i, n, code)
  }

  /** The refresh token issued at `i` can be used at `n`: by the client it was issued to, within thirty days, and not
      ended. */
  predicate Usable(es: seq<Event>, n: nat, i: nat, client: Client, token: Token, was: Issue)
    requires n < |es|
  {
    i < n && was.refresh == token && was.client == client && Seconds(es[n].now) <= was.at + 2592000 && Standing(es, i, n, was)
  }

  /** The access token issued at `i` is good for one hour at `n`, `spare` seconds before the end, and not ended. */
  predicate Good(es: seq<Event>, n: nat, i: nat, token: Token, iss: Issue, spare: nat)
    requires n < |es|
  {
    i < n && iss.access == token && Seconds(es[n].now) + spare <= iss.at + 3600 && Standing(es, i, n, iss)
  }

  /** What event `n` issues. */
  ghost predicate Issues(es: seq<Event>, n: nat, iss: Issue)
    requires n < |es|
    decreases n
  {
    es[n].Serving? &&
      match es[n].req
      case Redeem(client, code, a, r) =>
        exists i: nat, data ::
          Redeemable(es, n, i, client, code, data) && iss == Issue(client, data.scopes, Seconds(es[n].now), a, r, data.resource)
      case Rotate(client, prev, scopes, a, r) =>
        exists i: nat, was ::
          && i < n && Issues(es, i, was) && Usable(es, n, i, client, prev, was)
          && iss == Issue(client, if scopes != [] then scopes else was.scopes, Seconds(es[n].now), a, r, None)
      case _ => false
  }

  // ------------------------------------------------------------------
  // Tokens are drawn once
  // ------------------------------------------------------------------

  predicate WellDrawn(e: Event) {
    && "" !in Drawn(e)
    && (e.Serving? && e.req.Redeem? ==> e.req.access != e.req.refresh)
    && (e.Serving? && e.req.Rotate? ==> e.req.access != e.req.refresh)
  }

  /** The clock never goes back, and no string is drawn twice. */
  ghost predicate Fresh(es: seq<Event>) {
    && (forall i, j :: 0 <= i < j < |es| ==> Drawn(es[i]) !! Drawn(es[j]) && es[i].now <= es[j].now)
    && (forall i :: 0 <= i < |es| ==> WellDrawn(es[i]))
  }

  lemma {:induction false} AdmissibleDraws(es: seq<Event>, now: real, used: set<Token>, i: nat)
    requires Admissible(es, now, used) && i < |es|
    ensures Drawn(es[i]) !! used && es[i].now >= now && WellDrawn(es[i])
    decreases |es|
  {
    if i > 0 {
      AdmissibleDraws(es[1..], es[0].now, used + Drawn(es[0]), i - 1);
    }
  }

  lemma {:induction false} AdmissibleIsFresh(es: seq<Event>, now: real, used: set<Token>)
    requires Admissible(es, now, used)
    ensures Fresh(es)
    decreases |es|
  {
    if es != [] {
      AdmissibleIsFresh(es[1..], es[0].now, used + Drawn(es[0]));
      forall i, j | 0 <= i < j < |es| ensures Drawn(es[i]) !! Drawn(es[j]) && es[i].now <= es[j].now {
        if i == 0 {
          AdmissibleDraws(es[1..], es[0].now, used + Drawn(es[0]), j - 1);
        } else {
          assert es[i] == es[1..][i - 1] && es[j] == es[1..][j - 1];
        }
      }
      forall i | 0 <= i < |es| ensures WellDrawn(es[i]) {
        AdmissibleDraws(es, now, used, i);
      }
    }
  }

  lemma DrawnOnce(es: seq<Event>, i: nat, j: nat, x: Token)
    requires Fresh(es) && i < |es| && j < |es| && x in Drawn(es[i]) && x in Drawn(es[j])
    ensures i == j
  {
  }

  lemma IssueDraws(es: seq<Event>, i: nat, iss: Issue)
    requires i < |es| && Issues(es, i, iss)
    ensures Drawn(es[i]) == {iss.access, iss.refresh} && iss.at == Seconds(es[i].now)
  {
  }

  /** Two issues with a token in common are the same event's. */
  lemma SharedToken(es: seq<Event>, i: nat, x: Issue, j: nat, y: Issue)
    requires Fresh(es) && i < |es| && j < |es| && Issues(es, i, x) && Issues(es, j, y)
    requires {x.access, x.refresh} * {y.access, y.refresh} != {}
    ensures i == j && x.access == y.access && x.refresh == y.refresh && x.access != x.refresh
    ensures x.access != "" && x.refresh != ""
  {
    IssueDraws(es, i, x);
    IssueDraws(es, j, y);
    assert WellDrawn(es[i]);
    var shared :| shared in {x.access, x.refresh} * {y.access, y.refresh};
    DrawnOnce(es, i, j, shared);
  }

  lemma SavedOnce(es: seq<Event>, i: nat, j: nat, code: Token, c: AuthCode, d: AuthCode)
    requires Fresh(es) && SavesAt(es, i, code, c) && SavesAt(es, j, code, d)
    ensures i == j && c == d
  {
    assert code in Drawn(es[i]) && code in Drawn(es[j]);
    DrawnOnce(es, i, j, code);
  }

  /** An event issues at most one pair. */
  lemma {:induction false} IssuesOne(es: seq<Event>, n: nat, x: Issue, y: Issue)
    requires Fresh(es) && n < |es| && Issues(es, n, x) && Issues(es, n, y)
    ensures x == y
    decreases n
  {
    match es[n].req
    case Redeem(client, code, _, _) =>
      var i: nat, c :| Redeemable(es, n, i, client, code, c) && x == Issue(client, c.scopes, Seconds(es[n].now), es[n].req.access, es[n].req.refresh, c.resource);
      var j: nat, d :| Redeemable(es, n, j, client, code, d) && y == Issue(client, d.scopes, Seconds(es[n].now), es[n].req.access, es[n].req.refresh, d.resource);
      SavedOnce(es, i, j, code, c, d);
    case Rotate(client, prev, scopes, a, r) =>
      var i: nat, o :| i < n && Issues(es, i, o) && Usable(es, n, i, client, prev, o) && x == Issue(client, if scopes != [] then scopes else o.scopes, Seconds(es[n].now), a, r, None);
      var j: nat, p :| j < n && Issues(es, j, p) && Usable(es, n, j, client, prev, p) && y == Issue(client, if scopes != [] then scopes else p.scopes, Seconds(es[n].now), a, r, None);
      assert prev in {o.access, o.refresh} * {p.access, p.refresh};
      SharedToken(es, i, o, j, p);
      IssuesOne(es, i, o, p);
  }

  // ------------------------------------------------------------------
  // The tables tell the history
  // ------------------------------------------------------------------

  function RefreshOf(iss: Issue): RefreshToken { RefreshToken(iss.client, iss.scopes, Some(iss.at + 2592000)) }
  function AccessOf(iss: Issue): AccessToken { AccessToken(iss.client, iss.scopes, Some(iss.at + 3600), iss.resource) }

  /** The stored codes are those saved and untried; one may be missing only when it has expired. */
  ghost predicate CodesTold(es: seq<Event>, n: nat, t: Tables, clock: real)
    requires n <= |es|
  {
    && (forall c :: c in t.codes ==>
          t.codes[c] == CodeRow(t.codes[c].data) && exists i: nat :: i < n && SavesAt(es, i, c, t.codes[c].data) && Untried(es, i, n, c))
    && (forall i: nat, c, d :: i < n && SavesAt(es, i, c, d) && Untried(es, i, n, c) && d.expiresAt >= clock ==>
          c in t.codes && t.codes[c].data == d)
  }

  /** What the tables hold of one issued pair: its refresh token while it stands, its access token while it stands or
      once it is too old to matter. */
  ghost predicate Kept(es: seq<Event>, i: nat, n: nat, t: Tables, clock: real, iss: Issue)
    requires n <= |es|
  {
    && (iss.refresh in t.refresh ==> Standing(es, i, n, iss) && t.refresh[iss.refresh] == RefreshRow(RefreshOf(iss)))
    && (iss.access in t.access ==>
          (Standing(es, i, n, iss) || Seconds(clock) > iss.at + 3600) && t.access[iss.access] == AccessRow(AccessOf(iss)))
    && (Standing(es, i, n, iss) && Seconds(clock) <= iss.at + 2592000 ==> iss.refresh in t.refresh)
    && (Standing(es, i, n, iss) && Seconds(clock) <= iss.at + 3600 ==>
          iss.access in t.access && Pair(iss.access, iss.refresh) in t.pairs)
  }

  ghost predicate IssuedBefore(es: seq<Event>, m: nat, iss: Issue)
    requires m <= |es|
  {
    exists i: nat :: i < m && Issues(es, i, iss)
  }

  /** Whatever is stored was issued. */
  ghost predicate Sourced(es: seq<Event>, m: nat, t: Tables)
    requires m <= |es|
  {
    && (forall r :: r in t.refresh ==> exists iss :: IssuedBefore(es, m, iss) && iss.refresh == r)
    && (forall a :: a in t.access ==> exists iss :: IssuedBefore(es, m, iss) && iss.access == a)
    && (forall p :: p in t.pairs ==> exists iss :: IssuedBefore(es, m, iss) && p == Pair(iss.access, iss.refresh))
  }

  /** The issues before `m`, as they stand at `n`. */
  ghost predicate TokensTold(es: seq<Event>, m: nat, n: nat, t: Tables, clock: real)
    requires m <= n <= |es|
  {
    && Sourced(es, m, t)
    && (forall i: nat, iss :: i < m && Issues(es, i, iss) ==> Kept(es, i, n, t, clock, iss))
  }

  /** The pair of an issued token is the issue's own. */
  lemma OwnPair(es: seq<Event>, m: nat, i: nat, t: Tables, iss: Issue, p: Pair)
    requires Fresh(es) && i < m <= |es| && Sourced(es, m, t) && Issues(es, i, iss) && p in t.pairs
    requires p.access == iss.access || p.refresh == iss.refresh
    ensures p == Pair(iss.access, iss.refresh)
  {
    var other :| IssuedBefore(es, m, other) && p == Pair(other.access, other.refresh);
    var j: nat :| j < m && Issues(es, j, other);
    assert p.access in {iss.access, iss.refresh} * {other.access, other.refresh} || p.refresh in {iss.access, iss.refresh} * {other.access, other.refresh};
    SharedToken(es, i, iss, j, other);
  }

  // ------------------------------------------------------------------
  // Codes
  // ------------------------------------------------------------------

  lemma PyIntGrows(x: real, y: real)
    requires x <= y
    ensures PyInt(x) <= PyInt(y)
  {
  }

  lemma UntriedOneMore(es: seq<Event>, i: nat, n: nat, code: Token)
    requires i < n < |es|
    ensures Untried(es, i, n + 1, code) <==> Untried(es, i, n, code) && !Tries(es[n], code)
  {
  }

  function CodesAfter(t: Tables, e: Event): map<Token, Row<AuthCode>> {
    match e
    case Cleaning(now) => LiveCodes(t.codes, Seconds(now))
    case Serving(_, SaveCode(code, data)) => t.codes[code := CodeRow(data)]
    case Serving(_, Redeem(_, code, _, _)) => t.codes - {code}
    case _ => t.codes
  }

  lemma StepCodes(t: Tables, e: Event)
    ensures Step(t, e).0.codes == CodesAfter(t, e)
  {
  }

  lemma CodesStayTold(es: seq<Event>, n: nat, t: Tables, clock: real)
    requires Fresh(es) && n < |es| && CodesTold(es, n, t, clock) && clock <= es[n].now
    ensures CodesTold(es, n + 1, Step(t, es[n]).0, es[n].now)
  {
    var e, t1 := es[n], Step(t, es[n]).0;
    StepCodes(t, e);
    forall c | c in t1.codes
      ensures t1.codes[c] == CodeRow(t1.codes[c].data)
      ensures exists i: nat :: i < n + 1 && SavesAt(es, i, c, t1.codes[c].data) && Untried(es, i, n + 1, c)
    {
      if e.Serving? && e.req.SaveCode? && e.req.code == c {
        assert SavesAt(es, n, c, t1.codes[c].data) && Untried(es, n, n + 1, c);
      } else {
        var i: nat :| i < n && SavesAt(es, i, c, t.codes[c].data) && Untried(es, i, n, c);
        UntriedOneMore(es, i, n, c);
      }
    }
    forall i: nat, c, d | i < n + 1 && SavesAt(es, i, c, d) && Untried(es, i, n + 1, c) && d.expiresAt >= e.now
      ensures c in t1.codes && t1.codes[c].data == d
    {
      if i < n {
        UntriedOneMore(es, i, n, c);
        assert c in t.codes && t.codes[c].data == d;
        PyIntGrows(e.now, d.expiresAt);
        assert Drawn(es[i]) == {c} && Drawn(es[i]) !! Drawn(es[n]);
      }
    }
  }

  // ------------------------------------------------------------------
  // Tokens
  // ------------------------------------------------------------------

  lemma StandingOneMore(es: seq<Event>, i: nat, n: nat, iss: Issue)
    requires i < n < |es|
    ensures Standing(es, i, n + 1, iss) <==> Standing(es, i, n, iss) && !Ends(es[n], iss)
  {
  }

  /** No new tokens, rows or pairs. */
  ghost predicate Fewer(t: Tables, t1: Tables) {
    && (forall r :: r in t1.refresh ==> r in t.refresh && t1.refresh[r] == t.refresh[r])
    && (forall a :: a in t1.access ==> a in t.access && t1.access[a] == t.access[a])
    && (forall p :: p in t1.pairs ==> p in t.pairs)
  }

  /** The event ends the pair if it should and otherwise leaves what still matters of it. */
  ghost predicate Treats(e: Event, t: Tables, t1: Tables, iss: Issue) {
    if Ends(e, iss) then
      iss.refresh !in t1.refresh && (Seconds(e.now) <= iss.at + 3600 ==> iss.access !in t1.access)
    else
      && (Seconds(e.now) <= iss.at + 2592000 && iss.refresh in t.refresh ==> iss.refresh in t1.refresh)
      && (Seconds(e.now) <= iss.at + 3600 && iss.access in t.access ==> iss.access in t1.access)
      && (Seconds(e.now) <= iss.at + 3600 && Pair(iss.access, iss.refresh) in t.pairs ==> Pair(iss.access, iss.refresh) in t1.pairs)
  }

  lemma TreatedIsKept(es: seq<Event>, i: nat, n: nat, t: Tables, clock: real, t1: Tables, iss: Issue)
    requires i < n < |es| && clock <= es[n].now && Kept(es, i, n, t, clock, iss) && Fewer(t, t1) && Treats(es[n], t, t1, iss)
    ensures Kept(es, i, n + 1, t1, es[n].now, iss)
  {
    StandingOneMore(es, i, n, iss);
    PyIntGrows(clock, es[n].now);
  }

  lemma FewerToldOn(es: seq<Event>, n: nat, t: Tables, clock: real, t1: Tables)
    requires n < |es| && clock <= es[n].now && TokensTold(es, n, n, t, clock) && Fewer(t, t1)
    requires forall i: nat, iss :: i < n && Issues(es, i, iss) ==> Treats(es[n], t, t1, iss)
    ensures TokensTold(es, n, n + 1, t1, es[n].now)
  {
    forall i: nat, iss | i < n && Issues(es, i, iss) ensures Kept(es, i, n + 1, t1, es[n].now, iss) {
      TreatedIsKept(es, i, n, t, clock, t1, iss);
    }
  }

  /** What is known of one issued pair when event `n` comes. */
  ghost predicate Known(es: seq<Event>, n: nat, t: Tables, clock: real, i: nat, iss: Issue) {
    && Fresh(es) && i < n < |es| && clock <= es[n].now && Issues(es, i, iss)
    && Sourced(es, n, t) && Kept(es, i, n, t, clock, iss) && Seconds(clock) <= Seconds(es[n].now)
  }

  /** The tables after presenting a refresh token and revoking it when it loads. */
  function AfterRefresh(t: Tables, now: real, client: Client, token: Token): Tables {
    var (t1, loaded) := LoadRefresh(t, now, client, token);
    if loaded.None? then t1 else RevokeRefresh(t1, token)
  }

  lemma RefreshTreats(es: seq<Event>, n: nat, t: Tables, clock: real, i: nat, iss: Issue, client: Client, token: Token)
    requires Known(es, n, t, clock, i, iss) && es[n].Serving?
    requires Ends(es[n], iss) <==> client == iss.client && token == iss.refresh
    ensures Treats(es[n], t, AfterRefresh(t, es[n].now, client, token), iss)
  {
    if LoadRefresh(t, es[n].now, client, token).1.Some? {
      forall p | p in t.pairs && (p == Pair(iss.access, token) || p == Pair(iss.access, iss.refresh))
        ensures p == Pair(iss.access, iss.refresh)
      {
        OwnPair(es, n, i, t, iss, p);
      }
    }
  }

  /** The tables after presenting an access token and revoking it when it loads. */
  function AfterAccess(t: Tables, now: real, token: Token): Tables {
    var (t1, loaded) := LoadAccess(t, now, token);
    if loaded.None? then t1 else RevokeAccess(t1, token)
  }

  /** An access token that does not load may leave the table, and ends nothing that still matters. */
  lemma UnloadedTreats(es: seq<Event>, n: nat, t: Tables, clock: real, i: nat, iss: Issue, token: Token)
    requires Known(es, n, t, clock, i, iss) && es[n].Serving? && LoadAccess(t, es[n].now, token).1.None?
    requires es[n].req == Introspect(token) || es[n].req == RevokeAccessToken(token)
    ensures Treats(es[n], t, LoadAccess(t, es[n].now, token).0, iss)
  {
    var t1 := LoadAccess(t, es[n].now, token).0;
    assert t1 == t.(access := t1.access) && (t1.access == t.access || t1.access == t.access - {token});
    if Ends(es[n], iss) {
      assert iss.access !in t.access;
    }
  }

  lemma AccessTreats(es: seq<Event>, n: nat, t: Tables, clock: real, i: nat, iss: Issue, token: Token)
    requires Known(es, n, t, clock, i, iss) && es[n].Serving? && es[n].req == RevokeAccessToken(token)
    ensures Treats(es[n], t, AfterAccess(t, es[n].now, token), iss)
  {
    if LoadAccess(t, es[n].now, token).1.None? {
      UnloadedTreats(es, n, t, clock, i, iss, token);
    } else if token == iss.access {
      OwnAccessRevoked(es, n, t, clock, i, iss);
    } else {
      OtherAccessRevoked(es, n, t, clock, i, iss, token);
    }
  }

  lemma PairRevoked(t: Tables, a: Token, r: Token)
    requires PairedRefresh(t.pairs, a) == Some(r) && r != ""
    ensures RevokeAccess(t, a).access == t.access - {a} && RevokeAccess(t, a).refresh == t.refresh - {r}
  {
  }

  lemma PairFound(es: seq<Event>, n: nat, i: nat, t: Tables, iss: Issue)
    requires Fresh(es) && i < n <= |es| && Sourced(es, n, t) && Issues(es, i, iss) && Pair(iss.access, iss.refresh) in t.pairs
    ensures PairedRefresh(t.pairs, iss.access) == Some(iss.refresh)
  {
    OwnPair(es, n, i, t, iss, Pair(iss.access, PairedRefresh(t.pairs, iss.access).value));
  }

  lemma OwnAccessGone(e: Event, t: Tables, iss: Issue)
    requires e.Serving? && e.req == RevokeAccessToken(iss.access) && Seconds(e.now) <= iss.at + 3600
    requires PairedRefresh(t.pairs, iss.access) == Some(iss.refresh) && iss.refresh != ""
    ensures Treats(e, t, RevokeAccess(t, iss.access), iss)
  {
    PairRevoked(t, iss.access, iss.refresh);
  }

  lemma OwnAccessRevoked(es: seq<Event>, n: nat, t: Tables, clock: real, i: nat, iss: Issue)
    requires Known(es, n, t, clock, i, iss) && es[n].Serving? && es[n].req == RevokeAccessToken(iss.access)
    requires iss.access in t.access && Seconds(es[n].now) <= iss.at + 3600
    ensures Treats(es[n], t, RevokeAccess(t, iss.access), iss)
  {
    SharedToken(es, i, iss, i, iss);
    PairFound(es, n, i, t, iss);
    OwnAccessGone(es[n], t, iss);
  }

  lemma OtherAccessRevoked(es: seq<Event>, n: nat, t: Tables, clock: real, i: nat, iss: Issue, token: Token)
    requires Known(es, n, t, clock, i, iss) && es[n].Serving? && es[n].req == RevokeAccessToken(token) && token != iss.access
    ensures Treats(es[n], t, RevokeAccess(t, token), iss)
  {
    var paired := PairedRefresh(t.pairs, token);
    if paired == Some(iss.refresh) {
      OwnPair(es, n, i, t, iss, Pair(token, iss.refresh));
      assert false;
    }
  }

  lemma IntrospectTreats(es: seq<Event>, n: nat, t: Tables, clock: real, i: nat, iss: Issue, token: Token)
    requires Known(es, n, t, clock, i, iss) && es[n].Serving? && es[n].req == Introspect(token)
    ensures Treats(es[n], t, LoadAccess(t, es[n].now, token).0, iss)
  {
    if LoadAccess(t, es[n].now, token).1.None? {
      UnloadedTreats(es, n, t, clock, i, iss, token);
    }
  }

  lemma CleanupSpares(t: Tables, now: int, r: Token, a: Token)
    requires forall p :: p in t.pairs && (p.access == a || p.refresh == r) ==> p == Pair(a, r)
    ensures r in t.refresh && !Expired(t.refresh[r], now) ==> r in Cleanup(t, now).refresh
    ensures a in t.access && !Expired(t.access[a], now) && (r in t.refresh ==> !Expired(t.refresh[r], now)) ==> a in Cleanup(t, now).access
    ensures Pair(a, r) in t.pairs && (a in t.access ==> !Expired(t.access[a], now)) && (r in t.refresh ==> !Expired(t.refresh[r], now)) ==>
      Pair(a, r) in Cleanup(t, now).pairs
  {
  }

  lemma CleanupTreats(es: seq<Event>, n: nat, t: Tables, clock: real, i: nat, iss: Issue)
    requires Known(es, n, t, clock, i, iss) && es[n].Cleaning?
    ensures Treats(es[n], t, Cleanup(t, Seconds(es[n].now)), iss)
  {
    forall p | p in t.pairs && (p.access == iss.access || p.refresh == iss.refresh) ensures p == Pair(iss.access, iss.refresh) {
      OwnPair(es, n, i, t, iss, p);
    }
    CleanupSpares(t, Seconds(es[n].now), iss.refresh, iss.access);
  }

  /** The tables after an event, but for the code it redeems or saves and the pair it issues. */
  function Thinned(t: Tables, e: Event): Tables {
    match e
    case Cleaning(now) => Cleanup(t, Seconds(now))
    case Serving(now, Rotate(client, prev, _, _, _)) => AfterRefresh(t, now, client, prev)
    case Serving(now, RevokeRefreshToken(client, token)) => AfterRefresh(t, now, client, token)
    case Serving(now, RevokeAccessToken(token)) => AfterAccess(t, now, token)
    case Serving(now, Introspect(token)) => LoadAccess(t, now, token).0
    case _ => t
  }

  lemma ThinnedIsFewer(t: Tables, e: Event)
    ensures Fewer(t, Thinned(t, e))
  {
  }

  lemma ThinnedTreats(es: seq<Event>, n: nat, t: Tables, clock: real, i: nat, iss: Issue)
    requires Known(es, n, t, clock, i, iss)
    ensures Treats(es[n], t, Thinned(t, es[n]), iss)
  {
    if es[n].Cleaning? {
      CleanupTreats(es, n, t, clock, i, iss);
    } else {
      match es[n].req
      case Rotate(client, prev, _, _, _) => RefreshTreats(es, n, t, clock, i, iss, client, prev);
      case RevokeRefreshToken(client, token) => RefreshTreats(es, n, t, clock, i, iss, client, token);
      case RevokeAccessToken(token) => AccessTreats(es, n, t, clock, i, iss, token);
      case Introspect(token) => IntrospectTreats(es, n, t, clock, i, iss, token);
      case _ => QuietTreats(es[n], t, iss);
    }
  }

  lemma QuietTreats(e: Event, t: Tables, iss: Issue)
    requires e.Serving? && (e.req.SaveCode? || e.req.Redeem? || e.req.Validate?)
    ensures Treats(e, t, Thinned(t, e), iss)
  {
  }

  lemma ThinnedTold(es: seq<Event>, n: nat, t: Tables, clock: real)
    requires Fresh(es) && n < |es| && clock <= es[n].now && TokensTold(es, n, n, t, clock)
    ensures TokensTold(es, n, n + 1, Thinned(t, es[n]), es[n].now)
  {
    ThinnedIsFewer(t, es[n]);
    PyIntGrows(clock, es[n].now);
    forall i: nat, iss | i < n && Issues(es, i, iss) ensures Treats(es[n], t, Thinned(t, es[n]), iss) {
      ThinnedTreats(es, n, t, clock, i, iss);
    }
    FewerToldOn(es, n, t, clock, Thinned(t, es[n]));
  }

  // ------------------------------------------------------------------
  // What loads
  // ------------------------------------------------------------------

  lemma CodeLoads(es: seq<Event>, n: nat, t: Tables, clock: real, client: Client, code: Token, c: AuthCode)
    requires n < |es| && clock <= es[n].now && CodesTold(es, n, t, clock)
    ensures LoadCode(t, es[n].now, client, code).1 == Some(c) <==> exists i: nat :: Redeemable(es, n, i, client, code, c)
  {
    if LoadCode(t, es[n].now, client, code).1 == Some(c) {
      var i: nat :| i < n && SavesAt(es, i, code, t.codes[code].data) && Untried(es, i, n, code);
      assert Redeemable(es, n, i, client, code, c);
    }
  }

  lemma StoredIsIssued(es: seq<Event>, n: nat, t: Tables, clock: real, token: Token)
    requires n <= |es| && TokensTold(es, n, n, t, clock)
    ensures token in t.refresh ==> exists i: nat, iss :: i < n && Issues(es, i, iss) && iss.refresh == token && Kept(es, i, n, t, clock, iss)
    ensures token in t.access ==> exists i: nat, iss :: i < n && Issues(es, i, iss) && iss.access == token && Kept(es, i, n, t, clock, iss)
  {
    if token in t.refresh {
      var iss :| IssuedBefore(es, n, iss) && iss.refresh == token;
      var i: nat :| i < n && Issues(es, i, iss);
      assert Kept(es, i, n, t, clock, iss);
    }
    if token in t.access {
      var iss :| IssuedBefore(es, n, iss) && iss.access == token;
      var i: nat :| i < n && Issues(es, i, iss);
      assert Kept(es, i, n, t, clock, iss);
    }
  }

  lemma RefreshLoads(es: seq<Event>, n: nat, t: Tables, clock: real, client: Client, token: Token, r: RefreshToken)
    requires n < |es| && clock <= es[n].now && TokensTold(es, n, n, t, clock)
    ensures LoadRefresh(t, es[n].now, client, token).1 == Some(r) <==>
      exists i: nat, iss :: i < n && Issues(es, i, iss) && Usable(es, n, i, client, token, iss) && r == RefreshOf(iss)
  {
    PyIntGrows(clock, es[n].now);
    if LoadRefresh(t, es[n].now, client, token).1 == Some(r) {
      StoredIsIssued(es, n, t, clock, token);
    }
    if exists i: nat, iss :: i < n && Issues(es, i, iss) && Usable(es, n, i, client, token, iss) && r == RefreshOf(iss) {
      var i: nat, iss :| i < n && Issues(es, i, iss) && Usable(es, n, i, client, token, iss) && r == RefreshOf(iss);
      assert Kept(es, i, n, t, clock, iss);
    }
  }

  lemma AccessStored(es: seq<Event>, n: nat, t: Tables, clock: real, token: Token, a: AccessToken, spare: nat)
    requires n < |es| && clock <= es[n].now && TokensTold(es, n, n, t, clock)
    ensures token in t.access && t.access[token].data == a && a.expiresAt.Some? && a.expiresAt.value >= Seconds(es[n].now) + spare <==>
      exists i: nat, iss :: i < n && Issues(es, i, iss) && Good(es, n, i, token, iss, spare) && a == AccessOf(iss)
  {
    PyIntGrows(clock, es[n].now);
    if token in t.access {
      StoredIsIssued(es, n, t, clock, token);
    }
    if exists i: nat, iss :: i < n && Issues(es, i, iss) && Good(es, n, i, token, iss, spare) && a == AccessOf(iss) {
      var i: nat, iss :| i < n && Issues(es, i, iss) && Good(es, n, i, token, iss, spare) && a == AccessOf(iss);
      assert Kept(es, i, n, t, clock, iss);
    }
  }

  // ------------------------------------------------------------------
  // Issuing
  // ------------------------------------------------------------------

  function WithIssue(s: Tables, iss: Issue): Tables {
    SaveIssuedPair(s, iss.access, AccessOf(iss), iss.refresh, RefreshOf(iss))
  }

  lemma IssuedBeforeMore(es: seq<Event>, n: nat, t: Tables)
    requires n < |es| && Sourced(es, n, t)
    ensures Sourced(es, n + 1, t)
  {
    forall iss | IssuedBefore(es, n, iss) ensures IssuedBefore(es, n + 1, iss) {
      var i: nat :| i < n && Issues(es, i, iss);
    }
  }

  lemma NothingIssuedTold(es: seq<Event>, n: nat, t: Tables, clock: real)
    requires n < |es| && TokensTold(es, n, n + 1, t, clock) && forall iss :: !Issues(es, n, iss)
    ensures TokensTold(es, n + 1, n + 1, t, clock)
  {
    IssuedBeforeMore(es, n, t);
  }

  lemma PairIsSourced(es: seq<Event>, n: nat, s: Tables, iss: Issue, p: Pair)
    requires n < |es| && Sourced(es, n + 1, s) && IssuedBefore(es, n + 1, iss) && p in WithIssue(s, iss).pairs
    ensures exists o :: IssuedBefore(es, n + 1, o) && p == Pair(o.access, o.refresh)
  {
    if p !in s.pairs {
      assert p == Pair(iss.access, iss.refresh);
    }
  }

  lemma IssueIsSourced(es: seq<Event>, n: nat, s: Tables, iss: Issue)
    requires n < |es| && Sourced(es, n, s) && Issues(es, n, iss)
    ensures Sourced(es, n + 1, WithIssue(s, iss))
  {
    IssuedBeforeMore(es, n, s);
    assert IssuedBefore(es, n + 1, iss);
    var t := WithIssue(s, iss);
    forall r | r in t.refresh ensures exists o :: IssuedBefore(es, n + 1, o) && o.refresh == r {
      assert r == iss.refresh || r in s.refresh;
    }
    forall a | a in t.access ensures exists o :: IssuedBefore(es, n + 1, o) && o.access == a {
      assert a == iss.access || a in s.access;
    }
    forall p | p in t.pairs ensures exists o :: IssuedBefore(es, n + 1, o) && p == Pair(o.access, o.refresh) {
      PairIsSourced(es, n, s, iss, p);
    }
  }

  lemma IssueTold(es: seq<Event>, n: nat, s: Tables, iss: Issue)
    requires Fresh(es) && n < |es| && TokensTold(es, n, n + 1, s, es[n].now) && Issues(es, n, iss)
    ensures TokensTold(es, n + 1, n + 1, WithIssue(s, iss), es[n].now)
  {
    var t := WithIssue(s, iss);
    IssueIsSourced(es, n, s, iss);
    IssueDraws(es, n, iss);
    forall i: nat, o | i < n + 1 && Issues(es, i, o) ensures Kept(es, i, n + 1, t, es[n].now, o) {
      if i == n {
        IssuesOne(es, n, iss, o);
        assert Pair(iss.access, iss.refresh) in t.pairs;
      } else {
        assert Kept(es, i, n + 1, s, es[n].now, o);
        OtherIssueKept(es, n, i, s, iss, o);
      }
    }
  }

  lemma OtherIssueKept(es: seq<Event>, n: nat, i: nat, s: Tables, iss: Issue, o: Issue)
    requires Fresh(es) && i < n < |es| && Issues(es, n, iss) && Issues(es, i, o) && Kept(es, i, n + 1, s, es[n].now, o)
    ensures Kept(es, i, n + 1, WithIssue(s, iss), es[n].now, o)
  {
    IssueDraws(es, n, iss);
    IssueDraws(es, i, o);
    if o.refresh == iss.refresh {
      DrawnOnce(es, i, n, o.refresh);
      assert false;
    }
    if o.access == iss.access {
      DrawnOnce(es, i, n, o.access);
      assert false;
    }
  }

  /** What the event adds to the thinned tables. */
  ghost predicate Adds(es: seq<Event>, n: nat, s: Tables, t1: Tables)
    requires n < |es|
  {
    || ((forall iss :: !Issues(es, n, iss)) && t1.(codes := s.codes) == s)
    || (exists iss :: Issues(es, n, iss) && t1.(codes := s.codes) == WithIssue(s, iss))
  }

  lemma RedeemRefused(es: seq<Event>, n: nat, t: Tables, clock: real)
    requires n < |es| && clock <= es[n].now && CodesTold(es, n, t, clock) && es[n].Serving? && es[n].req.Redeem?
    requires LoadCode(t, es[n].now, es[n].req.client, es[n].req.code).1.None?
    ensures forall iss :: !Issues(es, n, iss)
  {
    var req := es[n].req;
    forall iss ensures !Issues(es, n, iss) {
      if Issues(es, n, iss) {
        var i: nat, data :| Redeemable(es, n, i, req.client, req.code, data);
        CodeLoads(es, n, t, clock, req.client, req.code, data);
      }
    }
  }

  lemma RedeemIssues(es: seq<Event>, n: nat, t: Tables, clock: real, c: AuthCode) returns (iss: Issue)
    requires n < |es| && clock <= es[n].now && CodesTold(es, n, t, clock) && es[n].Serving? && es[n].req.Redeem?
    requires LoadCode(t, es[n].now, es[n].req.client, es[n].req.code).1 == Some(c)
    ensures Issues(es, n, iss)
    ensures iss == Issue(es[n].req.client, c.scopes, Seconds(es[n].now), es[n].req.access, es[n].req.refresh, c.resource)
  {
    CodeLoads(es, n, t, clock, es[n].req.client, es[n].req.code, c);
    iss := Issue(es[n].req.client, c.scopes, Seconds(es[n].now), es[n].req.access, es[n].req.refresh, c.resource);
  }

  lemma RedeemAdds(es: seq<Event>, n: nat, t: Tables, clock: real)
    requires n < |es| && clock <= es[n].now && CodesTold(es, n, t, clock) && es[n].Serving? && es[n].req.Redeem?
    ensures Adds(es, n, Thinned(t, es[n]), Step(t, es[n]).0)
  {
    var loaded := LoadCode(t, es[n].now, es[n].req.client, es[n].req.code).1;
    if loaded.Some? {
      var iss := RedeemIssues(es, n, t, clock, loaded.value);
      assert Step(t, es[n]).0.(codes := t.codes) == WithIssue(t, iss);
    } else {
      RedeemRefused(es, n, t, clock);
    }
  }

  lemma RotateRefused(es: seq<Event>, n: nat, t: Tables, clock: real)
    requires n < |es| && clock <= es[n].now && TokensTold(es, n, n, t, clock) && es[n].Serving? && es[n].req.Rotate?
    requires LoadRefresh(t, es[n].now, es[n].req.client, es[n].req.prev).1.None?
    ensures forall iss :: !Issues(es, n, iss)
  {
    var req := es[n].req;
    forall iss ensures !Issues(es, n, iss) {
      if Issues(es, n, iss) {
        var i: nat, was :| i < n && Issues(es, i, was) && Usable(es, n, i, req.client, req.prev, was);
        RefreshLoads(es, n, t, clock, req.client, req.prev, RefreshOf(was));
      }
    }
  }

  lemma RotateIssues(es: seq<Event>, n: nat, t: Tables, clock: real, r: RefreshToken) returns (iss: Issue)
    requires n < |es| && clock <= es[n].now && TokensTold(es, n, n, t, clock) && es[n].Serving? && es[n].req.Rotate?
    requires LoadRefresh(t, es[n].now, es[n].req.client, es[n].req.prev).1 == Some(r)
    ensures Issues(es, n, iss)
    ensures iss == Issue(es[n].req.client, if es[n].req.scopes != [] then es[n].req.scopes else r.scopes, Seconds(es[n].now),
                         es[n].req.access, es[n].req.refresh, None)
  {
    var req := es[n].req;
    RefreshLoads(es, n, t, clock, req.client, req.prev, r);
    var i: nat, was :| i < n && Issues(es, i, was) && Usable(es, n, i, req.client, req.prev, was) && r == RefreshOf(was);
    iss := Issue(req.client, if req.scopes != [] then req.scopes else was.scopes, Seconds(es[n].now), req.access, req.refresh, None);
  }

  lemma RotateAdds(es: seq<Event>, n: nat, t: Tables, clock: real)
    requires n < |es| && clock <= es[n].now && TokensTold(es, n, n, t, clock) && es[n].Serving? && es[n].req.Rotate?
    ensures Adds(es, n, Thinned(t, es[n]), Step(t, es[n]).0)
  {
    var (t1, loaded) := LoadRefresh(t, es[n].now, es[n].req.client, es[n].req.prev);
    if loaded.Some? {
      var iss := RotateIssues(es, n, t, clock, loaded.value);
      RotationIsIssue(t1, es[n].now, es[n].req.prev, iss);
    } else {
      RotateRefused(es, n, t, clock);
    }
  }

  lemma RotationIsIssue(t: Tables, now: real, prev: Token, iss: Issue)
    requires iss.at == Seconds(now) && iss.resource == None
    ensures RotateRefresh(t, prev, iss.access, NewAccess(iss.client, iss.scopes, now, None), iss.refresh, NewRefresh(iss.client, iss.scopes, now))
         == WithIssue(RevokeRefresh(t, prev), iss)
  {
  }

  lemma StepAdds(es: seq<Event>, n: nat, t: Tables, clock: real)
    requires n < |es| && clock <= es[n].now && CodesTold(es, n, t, clock) && TokensTold(es, n, n, t, clock)
    ensures Adds(es, n, Thinned(t, es[n]), Step(t, es[n]).0)
  {
    if es[n].Serving? && es[n].req.Redeem? {
      RedeemAdds(es, n, t, clock);
    } else if es[n].Serving? && es[n].req.Rotate? {
      RotateAdds(es, n, t, clock);
    } else {
      OthersAdd(es, n, t);
    }
  }

  lemma OthersAdd(es: seq<Event>, n: nat, t: Tables)
    requires n < |es| && !(es[n].Serving? && (es[n].req.Redeem? || es[n].req.Rotate?))
    ensures Adds(es, n, Thinned(t, es[n]), Step(t, es[n]).0)
  {
  }

  /** Codes do not matter to what is told of tokens. */
  lemma TokensOnly(es: seq<Event>, m: nat, n: nat, t: Tables, t1: Tables, clock: real)
    requires m <= n <= |es| && TokensTold(es, m, n, t, clock) && t1.(codes := t.codes) == t
    ensures TokensTold(es, m, n, t1, clock)
  {
    forall i: nat, iss | i < m && Issues(es, i, iss) ensures Kept(es, i, n, t1, clock, iss) {
      assert Kept(es, i, n, t, clock, iss);
    }
  }

  lemma TokensStayTold(es: seq<Event>, n: nat, t: Tables, clock: real)
    requires Fresh(es) && n < |es| && clock <= es[n].now && CodesTold(es, n, t, clock) && TokensTold(es, n, n, t, clock)
    ensures TokensTold(es, n + 1, n + 1, Step(t, es[n]).0, es[n].now)
  {
    var s, t1 := Thinned(t, es[n]), Step(t, es[n]).0;
    ThinnedTold(es, n, t, clock);
    StepAdds(es, n, t, clock);
    AddedTold(es, n, s, t1);
  }

  lemma AddedTold(es: seq<Event>, n: nat, s: Tables, t1: Tables)
    requires Fresh(es) && n < |es| && TokensTold(es, n, n + 1, s, es[n].now) && Adds(es, n, s, t1)
    ensures TokensTold(es, n + 1, n + 1, t1, es[n].now)
  {
    if exists iss :: Issues(es, n, iss) && t1.(codes := s.codes) == WithIssue(s, iss) {
      var iss :| Issues(es, n, iss) && t1.(codes := s.codes) == WithIssue(s, iss);
      IssueTold(es, n, s, iss);
      TokensOnly(es, n + 1, n + 1, WithIssue(s, iss), t1, es[n].now);
    } else {
      NothingIssuedTold(es, n, s, es[n].now);
      TokensOnly(es, n + 1, n + 1, s, t1, es[n].now);
    }
  }

  // ------------------------------------------------------------------
  // Every answer
  // ------------------------------------------------------------------

  function AnswerAt(es: seq<Event>, n: nat): Option<Answer>
    requires n < |es|
  {
    Step(Run(EMPTY, es[..n]), es[n]).1
  }

  function ClockAt(es: seq<Event>, n: nat): real
    requires n < |es|
  {
    if n == 0 then es[0].now else es[n - 1].now
  }

  lemma {:induction false} RunIsTold(es: seq<Event>, n: nat)
    requires Fresh(es) && n < |es|
    ensures ClockAt(es, n) <= es[n].now
    ensures CodesTold(es, n, Run(EMPTY, es[..n]), ClockAt(es, n)) && TokensTold(es, n, n, Run(EMPTY, es[..n]), ClockAt(es, n))
  {
    if n > 0 {
      RunIsTold(es, n - 1);
      var t := Run(EMPTY, es[..n - 1]);
      assert es[..n] == es[..n - 1] + [es[n - 1]];
      RunPush(EMPTY, es[..n - 1], es[n - 1]);
      CodesStayTold(es, n - 1, t, ClockAt(es, n - 1));
      TokensStayTold(es, n - 1, t, ClockAt(es, n - 1));
    }
  }

  /** In every run a code is exchanged for tokens if and only if it was saved for this very client, has not expired, and
      nobody has tried it since; the tokens then carry the scopes it was saved with. */
  lemma RedeemedExactly(es: seq<Event>, start: real, n: nat, scopes: seq<string>)
    requires Admissible(es, start, {}) && n < |es| && es[n].Serving? && es[n].req.Redeem?
    ensures var q := es[n].req;
      && (AnswerAt(es, n) == Some(Issued(q.access, q.refresh, scopes)) <==>
            exists i: nat, data :: Redeemable(es, n, i, q.client, q.code, data) && data.scopes == scopes)
      && (AnswerAt(es, n) == Some(Denied) <==> !exists i: nat, data :: Redeemable(es, n, i, q.client, q.code, data))
  {
    AdmissibleIsFresh(es, start, {});
    RunIsTold(es, n);
    var q, t := es[n].req, Run(EMPTY, es[..n]);
    var loaded := LoadCode(t, es[n].now, q.client, q.code).1;
    if loaded.Some? {
      CodeLoads(es, n, t, ClockAt(es, n), q.client, q.code, loaded.value);
    }
    forall i: nat, data | Redeemable(es, n, i, q.client, q.code, data) ensures loaded == Some(data) {
      CodeLoads(es, n, t, ClockAt(es, n), q.client, q.code, data);
    }
  }

  /** In every run a refresh token is exchanged for a new pair if and only if it was issued to this very client at most
      thirty days ago and neither rotated nor revoked since. */
  lemma RotatedExactly(es: seq<Event>, start: real, n: nat, scopes: seq<string>)
    requires Admissible(es, start, {}) && n < |es| && es[n].Serving? && es[n].req.Rotate?
    ensures var q := es[n].req;
      && (AnswerAt(es, n) == Some(Issued(q.access, q.refresh, scopes)) <==>
            exists i: nat, was :: i < n && Issues(es, i, was) && Usable(es, n, i, q.client, q.prev, was)
                               && scopes == if q.scopes != [] then q.scopes else was.scopes)
      && (AnswerAt(es, n) == Some(Denied) <==>
            !exists i: nat, was :: i < n && Issues(es, i, was) && Usable(es, n, i, q.client, q.prev, was))
  {
    RefreshLoadsExactly(es, start, n, es[n].req.client, es[n].req.prev);
  }

  /** A refresh token is revoked exactly when it could be used. */
  lemma RefreshRevokedExactly(es: seq<Event>, start: real, n: nat)
    requires Admissible(es, start, {}) && n < |es| && es[n].Serving? && es[n].req.RevokeRefreshToken?
    ensures AnswerAt(es, n) == Some(
      if exists i: nat, was :: i < n && Issues(es, i, was) && Usable(es, n, i, es[n].req.client, es[n].req.token, was) then Revoked else Denied)
  {
    RefreshLoadsExactly(es, start, n, es[n].req.client, es[n].req.token);
  }

  lemma RefreshLoadsExactly(es: seq<Event>, start: real, n: nat, client: Client, token: Token)
    requires Admissible(es, start, {}) && n < |es|
    ensures LoadRefresh(Run(EMPTY, es[..n]), es[n].now, client, token).1.Some? <==>
      exists i: nat, was :: i < n && Issues(es, i, was) && Usable(es, n, i, client, token, was)
    ensures forall i: nat, was :: i < n && Issues(es, i, was) && Usable(es, n, i, client, token, was) ==>
      LoadRefresh(Run(EMPTY, es[..n]), es[n].now, client, token).1 == Some(RefreshOf(was))
  {
    AdmissibleIsFresh(es, start, {});
    RunIsTold(es, n);
    var loaded := LoadRefresh(Run(EMPTY, es[..n]), es[n].now, client, token).1;
    if loaded.Some? {
      RefreshLoads(es, n, Run(EMPTY, es[..n]), ClockAt(es, n), client, token, loaded.value);
    }
    forall i: nat, was | i < n && Issues(es, i, was) && Usable(es, n, i, client, token, was) ensures loaded == Some(RefreshOf(was)) {
      RefreshLoads(es, n, Run(EMPTY, es[..n]), ClockAt(es, n), client, token, RefreshOf(was));
    }
  }

  lemma AccessLoads(es: seq<Event>, start: real, n: nat, token: Token, a: AccessToken)
    requires Admissible(es, start, {}) && n < |es|
    ensures LoadAccess(Run(EMPTY, es[..n]), es[n].now, token).1 == Some(a) <==>
      exists i: nat, iss :: i < n && Issues(es, i, iss) && Good(es, n, i, token, iss, 0) && a == AccessOf(iss)
  {
    AdmissibleIsFresh(es, start, {});
    RunIsTold(es, n);
    var t := Run(EMPTY, es[..n]);
    AccessStored(es, n, t, ClockAt(es, n), token, a, 0);
    if token in t.access {
      StoredIsIssued(es, n, t, ClockAt(es, n), token);
    }
  }

  /** An access token is loaded, with what it was issued with, exactly for the hour after its issue and until its pair is
      rotated or revoked. */
  lemma IntrospectedExactly(es: seq<Event>, start: real, n: nat, a: AccessToken)
    requires Admissible(es, start, {}) && n < |es| && es[n].Serving? && es[n].req.Introspect?
    ensures AnswerAt(es, n) == Some(Loaded(a)) <==>
      exists i: nat, iss :: i < n && Issues(es, i, iss) && Good(es, n, i, es[n].req.token, iss, 0) && a == AccessOf(iss)
  {
    AccessLoads(es, start, n, es[n].req.token, a);
  }

  lemma Valid(es: seq<Event>, n: nat, t: Tables, clock: real, token: Token)
    requires n < |es| && clock <= es[n].now && TokensTold(es, n, n, t, clock)
    ensures Validates(t, es[n].now, token) <==> exists i: nat, iss :: i < n && Issues(es, i, iss) && Good(es, n, i, token, iss, 1)
  {
    if token in t.access {
      StoredIsIssued(es, n, t, clock, token);
      AccessStored(es, n, t, clock, token, t.access[token].data, 1);
    }
    forall i: nat, iss | i < n && Issues(es, i, iss) && Good(es, n, i, token, iss, 1) ensures Validates(t, es[n].now, token) {
      AccessStored(es, n, t, clock, token, AccessOf(iss), 1);
    }
  }

  /** The validator grants it for the same time less its last second. */
  lemma ValidatedExactly(es: seq<Event>, start: real, n: nat)
    requires Admissible(es, start, {}) && n < |es| && es[n].Serving? && es[n].req.Validate?
    ensures AnswerAt(es, n) == Some(
      if exists i: nat, iss :: i < n && Issues(es, i, iss) && Good(es, n, i, es[n].req.token, iss, 1) then Granted else Denied)
  {
    AdmissibleIsFresh(es, start, {});
    RunIsTold(es, n);
    Valid(es, n, Run(EMPTY, es[..n]), ClockAt(es, n), es[n].req.token);
  }

  /** An access token is revoked exactly when it loads. */
  lemma AccessRevokedExactly(es: seq<Event>, start: real, n: nat)
    requires Admissible(es, start, {}) && n < |es| && es[n].Serving? && es[n].req.RevokeAccessToken?
    ensures AnswerAt(es, n) == Some(
      if exists i: nat, iss :: i < n && Issues(es, i, iss) && Good(es, n, i, es[n].req.token, iss, 0) then Revoked else Denied)
  {
    var loaded := LoadAccess(Run(EMPTY, es[..n]), es[n].now, es[n].req.token).1;
    if loaded.Some? {
      AccessLoads(es, start, n, es[n].req.token, loaded.value);
    }
    forall i: nat, iss | i < n && Issues(es, i, iss) && Good(es, n, i, es[n].req.token, iss, 0) ensures loaded == Some(AccessOf(iss)) {
      AccessLoads(es, start, n, es[n].req.token, AccessOf(iss));
    }
  }
}
