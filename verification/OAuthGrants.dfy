/** Grant families: the tokens that descend from one authorization code. */
module OAuthGrants {
  import opened Prelude
  import opened OAuthModel
  import opened OAuthCleanup

  /** The tables, plus a record of which authorization code each issued token descends from.
      The record is not part of the program; it is what the word "family" means. */
  datatype World = World(tables: Tables, owner: map<Token, Token>)

  const START := World(EMPTY, map[])

  function Adopt(owner: map<Token, Token>, answer: Option<Answer>, grant: Token): map<Token, Token> {
    if answer.Some? && answer.value.Issued?
    then owner[answer.value.access := grant][answer.value.refresh := grant]
    else owner
  }

  function Advance(w: World, e: Event): World {
    var (t1, answer) := Step(w.tables, e);
    var owner1 :=
      match e
      case Serving(_, Redeem(_, code, _, _)) => Adopt(w.owner, answer, code)
      case Serving(_, Rotate(_, prev, _, _, _)) =>
        if prev in w.owner then Adopt(w.owner, answer, w.owner[prev]) else w.owner
      case _ => w.owner;
    World(t1, owner1)
  }

  function Play(w: World, es: seq<Event>): World
    decreases |es|
  {
    if es == [] then w else Play(Advance(w, es[0]), es[1..])
  }

  /** The record does not influence the tables. */
  lemma {:induction false} PlayIsRun(w: World, es: seq<Event>)
    ensures Play(w, es).tables == Run(w.tables, es)
    decreases |es|
  {
    if es != [] {
      PlayIsRun(Advance(w, es[0]), es[1..]);
    }
  }

  // ------------------------------------------------------------------
  // The family invariant
  // ------------------------------------------------------------------

  ghost predicate SameGrant(owner: map<Token, Token>, x: Token, y: Token) {
    x in owner && y in owner && owner[x] == owner[y]
  }

  ghost predicate Owned(w: World, used: set<Token>) {
    && w.tables.access.Keys <= w.owner.Keys
    && w.tables.refresh.Keys <= w.owner.Keys
    && (forall p :: p in w.tables.pairs ==> SameGrant(w.owner, p.access, p.refresh))
    && w.owner.Keys <= used
    && (forall x :: x in w.owner ==> w.owner[x] in used && w.owner[x] !in w.tables.codes)
  }

  ghost predicate OneAccess(w: World) {
    forall a, b :: a in w.tables.access && b in w.tables.access && SameGrant(w.owner, a, b) ==> a == b
  }

  ghost predicate OneRefresh(w: World) {
    forall r, q :: r in w.tables.refresh && q in w.tables.refresh && SameGrant(w.owner, r, q) ==> r == q
  }

  /** A grant's stored access token and stored refresh token are paired with each other. */
  ghost predicate PairedWithinGrant(w: World) {
    forall a, r :: a in w.tables.access && r in w.tables.refresh && SameGrant(w.owner, a, r) ==> Pair(a, r) in w.tables.pairs
  }

  ghost predicate Families(w: World, used: set<Token>) {
    Owned(w, used) && OneAccess(w) && OneRefresh(w) && PairedWithinGrant(w)
  }

  /** A step that issues nothing, forgets no pairing row of a token it keeps, and stores no new code. */
  ghost predicate Shrinks(t: Tables, t1: Tables) {
    && t1.codes.Keys <= t.codes.Keys
    && t1.access.Keys <= t.access.Keys
    && t1.refresh.Keys <= t.refresh.Keys
    && (forall p :: p in t1.pairs ==> p in t.pairs)
    && (forall p :: p in t.pairs && p.access in t1.access && p.refresh in t1.refresh ==> p in t1.pairs)
  }

  lemma ShrinkingKeepsFamilies(w: World, t1: Tables, used: set<Token>)
    requires Families(w, used) && Shrinks(w.tables, t1)
    ensures Families(World(t1, w.owner), used)
  {
  }

  lemma LoadsShrink(t: Tables, now: real, client: Client, token: Token)
    ensures Shrinks(t, LoadCode(t, now, client, token).0)
    ensures Shrinks(t, LoadRefresh(t, now, client, token).0)
    ensures Shrinks(t, LoadAccess(t, now, token).0)
  {
  }

  lemma RevokeRefreshShrinks(t: Tables, token: Token)
    ensures Shrinks(t, RevokeRefresh(t, token))
  {
  }

  lemma RevokeAccessShrinks(t: Tables, token: Token)
    ensures Shrinks(t, RevokeAccess(t, token))
  {
  }

  lemma CleanupShrinks(t: Tables, now: int)
    ensures Shrinks(t, Cleanup(t, now))
  {
  }

  lemma ShrinksTransitive(t: Tables, t1: Tables, t2: Tables)
    requires Shrinks(t, t1) && Shrinks(t1, t2)
    ensures Shrinks(t, t2)
  {
  }

  /** Every event other than saving a code, a successful redemption and a successful rotation shrinks the tables. */
  lemma OtherEventsShrink(t: Tables, e: Event)
    requires !(e.Serving? && e.req.SaveCode?)
    requires e.Serving? && (e.req.Redeem? || e.req.Rotate?) ==> Step(t, e).1 == Some(Denied)
    ensures Shrinks(t, Step(t, e).0)
  {
    match e
    case Cleaning(now) => CleanupShrinks(t, Seconds(now));
    case Serving(now, Redeem(client, code, _, _)) => LoadsShrink(t, now, client, code);
    case Serving(now, Rotate(client, prev, _, _, _)) => LoadsShrink(t, now, client, prev);
    case Serving(now, RevokeAccessToken(token)) =>
      LoadsShrink(t, now, "", token);
      RevokeAccessShrinks(LoadAccess(t, now, token).0, token);
      ShrinksTransitive(t, LoadAccess(t, now, token).0, RevokeAccess(LoadAccess(t, now, token).0, token));
    case Serving(now, RevokeRefreshToken(client, token)) =>
      LoadsShrink(t, now, client, token);
      RevokeRefreshShrinks(LoadRefresh(t, now, client, token).0, token);
      ShrinksTransitive(t, LoadRefresh(t, now, client, token).0, RevokeRefresh(LoadRefresh(t, now, client, token).0, token));
    case Serving(now, Introspect(token)) => LoadsShrink(t, now, "", token);
    case Serving(now, Validate(token)) =>
  }

  /** Issuing a pair to a grant that has nothing stored keeps the family invariant. */
  lemma IssueKeepsFamilies(w: World, a: Token, access: AccessToken, r: Token, refresh: RefreshToken, g: Token, used: set<Token>)
    requires Families(w, used)
    requires a !in used && r !in used && g in used && g !in w.tables.codes
    requires NothingStored(w, g)
    ensures Families(World(SaveIssuedPair(w.tables, a, access, r, refresh), w.owner[a := g][r := g]), used + {a, r})
  {
    var t1 := SaveIssuedPair(w.tables, a, access, r, refresh);
    var w1 := World(t1, w.owner[a := g][r := g]);
    assert Pair(a, r) in t1.pairs;
    assert Owned(w1, used + {a, r}) by {
      forall p | p in t1.pairs ensures SameGrant(w1.owner, p.access, p.refresh) {
        assert p == Pair(a, r) || p in w.tables.pairs;
      }
    }
    assert OneAccess(w1);
    assert OneRefresh(w1);
    assert PairedWithinGrant(w1);
  }

  /** The grant has no stored token. */
  ghost predicate NothingStored(w: World, g: Token) {
    && (forall a :: a in w.tables.access && a in w.owner ==> w.owner[a] != g)
    && (forall r :: r in w.tables.refresh && r in w.owner ==> w.owner[r] != g)
  }

  /** Revoking the stored refresh token of a grant empties the family. */
  lemma RevokeRefreshEmptiesGrant(w: World, token: Token, used: set<Token>)
    requires Families(w, used) && token in w.tables.refresh
    ensures NothingStored(World(RevokeRefresh(w.tables, token), w.owner), w.owner[token])
  {
  }

  /** Revoking the stored access token of a grant empties the family. */
  lemma RevokeAccessEmptiesGrant(w: World, token: Token)
    requires OneAccess(w) && PairedWithinGrant(w) && PairsFunctional(w.tables.pairs)
    requires "" !in w.tables.refresh && token in w.tables.access && token in w.owner
    ensures NothingStored(World(RevokeAccess(w.tables, token), w.owner), w.owner[token])
  {
    forall r | r in w.tables.refresh && SameGrant(w.owner, token, r)
      ensures PairedRefresh(w.tables.pairs, token) == Some(r)
    {
      assert Pair(token, r) in w.tables.pairs;
    }
    assert RevokeAccess(w.tables, token).access == w.tables.access - {token};
  }

  lemma RedeemKeepsFamilies(w: World, now: real, client: Client, code: Token, a: Token, r: Token, used: set<Token>)
    requires Families(w, used) && Inv(w.tables, used)
    requires DrawsFresh(Serving(now, Redeem(client, code, a, r)), used)
    requires Step(w.tables, Serving(now, Redeem(client, code, a, r))).1 != Some(Denied)
    ensures Families(Advance(w, Serving(now, Redeem(client, code, a, r))), used + {a, r})
  {
    var (t1, loaded) := LoadCode(w.tables, now, client, code);
    var t2 := t1.(codes := t1.codes - {code});
    assert code in w.tables.codes && t1 == w.tables;
    ShrinkingKeepsFamilies(w, t2, used);
    IssueKeepsFamilies(World(t2, w.owner), a, NewAccess(client, loaded.value.scopes, now, loaded.value.resource),
                       r, NewRefresh(client, loaded.value.scopes, now), code, used);
  }

  lemma RotateKeepsFamilies(w: World, now: real, client: Client, prev: Token, scopes: seq<string>, a: Token, r: Token, used: set<Token>)
    requires Families(w, used) && Inv(w.tables, used)
    requires DrawsFresh(Serving(now, Rotate(client, prev, scopes, a, r)), used)
    requires Step(w.tables, Serving(now, Rotate(client, prev, scopes, a, r))).1 != Some(Denied)
    ensures Families(Advance(w, Serving(now, Rotate(client, prev, scopes, a, r))), used + {a, r})
  {
    var (t1, loaded) := LoadRefresh(w.tables, now, client, prev);
    assert t1 == w.tables && prev in w.tables.refresh;
    var effective := if scopes != [] then scopes else loaded.value.scopes;
    RevokeRefreshShrinks(t1, prev);
    ShrinkingKeepsFamilies(w, RevokeRefresh(t1, prev), used);
    RevokeRefreshEmptiesGrant(w, prev, used);
    IssueKeepsFamilies(World(RevokeRefresh(t1, prev), w.owner), a, NewAccess(client, effective, now, None),
                       r, NewRefresh(client, effective, now), w.owner[prev], used);
  }

  lemma SaveCodeKeepsFamilies(w: World, now: real, code: Token, data: AuthCode, used: set<Token>)
    requires Families(w, used) && code !in used
    ensures Families(Advance(w, Serving(now, SaveCode(code, data))), used + {code})
  {
  }

  lemma FamiliesWiden(w: World, used: set<Token>, more: set<Token>)
    requires Families(w, used)
    ensures Families(w, used + more)
  {
  }

  /** Every event of a run keeps the family invariant. */
  lemma AdvanceKeepsFamilies(w: World, e: Event, used: set<Token>)
    requires Families(w, used) && Inv(w.tables, used) && DrawsFresh(e, used)
    ensures Families(Advance(w, e), used + Drawn(e))
  {
    if e.Serving? && e.req.SaveCode? {
      SaveCodeKeepsFamilies(w, e.now, e.req.code, e.req.data, used);
    } else if e.Serving? && e.req.Redeem? && Step(w.tables, e).1 != Some(Denied) {
      RedeemKeepsFamilies(w, e.now, e.req.client, e.req.code, e.req.access, e.req.refresh, used);
    } else if e.Serving? && e.req.Rotate? && Step(w.tables, e).1 != Some(Denied) {
      RotateKeepsFamilies(w, e.now, e.req.client, e.req.prev, e.req.scopes, e.req.access, e.req.refresh, used);
    } else {
      OtherEventsShrink(w.tables, e);
      ShrinkingKeepsFamilies(w, Step(w.tables, e).0, used);
      FamiliesWiden(Advance(w, e), used, Drawn(e));
    }
  }

  /** What every reachable world satisfies. */
  ghost predicate Sound(w: World, used: set<Token>) {
    Inv(w.tables, used) && Families(w, used)
  }

  lemma AdvanceKeepsSound(w: World, e: Event, used: set<Token>)
    requires Sound(w, used) && DrawsFresh(e, used)
    ensures Sound(Advance(w, e), used + Drawn(e))
  {
    StepKeepsInv(w.tables, e, used);
    AdvanceKeepsFamilies(w, e, used);
  }

  function UsedAfter(es: seq<Event>, used: set<Token>): set<Token> {
    if es == [] then used else UsedAfter(es[1..], used + Drawn(es[0]))
  }

  function ClockAfter(es: seq<Event>, now: real): real {
    if es == [] then now else es[|es| - 1].now
  }

  lemma {:induction false} RunsKeepSound(w: World, es: seq<Event>, now: real, used: set<Token>)
    requires Sound(w, used) && Admissible(es, now, used)
    ensures Sound(Play(w, es), UsedAfter(es, used))
    decreases |es|
  {
    if es != [] {
      AdvanceKeepsSound(w, es[0], used);
      RunsKeepSound(Advance(w, es[0]), es[1..], es[0].now, used + Drawn(es[0]));
    }
  }

  /** In every run each authorization-code grant has at most one stored refresh token and at most one
      stored access token, and every stored access token still has its pairing row. */
  lemma OneLiveFamilyPerGrant(es: seq<Event>, start: real)
    requires Admissible(es, start, {})
    ensures var w := Play(START, es);
      && w.tables == Run(EMPTY, es)
      && (forall a :: a in w.tables.access ==> a in w.owner && PairedRefresh(w.tables.pairs, a).Some?)
      && (forall r :: r in w.tables.refresh ==> r in w.owner)
      && OneAccess(w) && OneRefresh(w) && PairedWithinGrant(w)
  {
    PlayIsRun(START, es);
    RunsKeepSound(START, es, start, {});
  }

  // ------------------------------------------------------------------
  // Revocation is for ever
  // ------------------------------------------------------------------

  /** The grant's code is spent and none of its tokens is stored. */
  ghost predicate Ended(w: World, g: Token, used: set<Token>) {
    g in used && g !in w.tables.codes && NothingStored(w, g)
  }

  lemma EndedStaysEnded(w: World, e: Event, g: Token, used: set<Token>)
    requires Sound(w, used) && DrawsFresh(e, used) && Ended(w, g, used)
    ensures Ended(Advance(w, e), g, used + Drawn(e))
    ensures forall x :: x in w.owner ==> x in Advance(w, e).owner && Advance(w, e).owner[x] == w.owner[x]
  {
    if e.Serving? && e.req.SaveCode? {
    } else if e.Serving? && e.req.Redeem? && Step(w.tables, e).1 != Some(Denied) {
      assert e.req.code in w.tables.codes;
    } else if e.Serving? && e.req.Rotate? && Step(w.tables, e).1 != Some(Denied) {
      assert e.req.prev in w.tables.refresh;
    } else {
      OtherEventsShrink(w.tables, e);
    }
  }

  lemma {:induction false} EndedForEver(w: World, es: seq<Event>, now: real, g: Token, used: set<Token>)
    requires Sound(w, used) && Admissible(es, now, used) && Ended(w, g, used)
    ensures Ended(Play(w, es), g, UsedAfter(es, used))
    ensures forall x :: x in w.owner ==> x in Play(w, es).owner && Play(w, es).owner[x] == w.owner[x]
    decreases |es|
  {
    if es != [] {
      EndedStaysEnded(w, es[0], g, used);
      AdvanceKeepsSound(w, es[0], used);
      EndedForEver(Advance(w, es[0]), es[1..], es[0].now, g, used + Drawn(es[0]));
    }
  }

  /** The token a request presents, and what counts as accepting it. */
  ghost predicate Rejects(t: Tables, now: real, x: Token) {
    && !Validates(t, now, x)
    && LoadAccess(t, now, x).1.None?
    && forall client :: LoadRefresh(t, now, client, x).1.None?
  }

  /** A revocation that succeeds ends the grant of the token it names. */
  lemma RevocationEndsGrant(w: World, e: Event, x: Token, used: set<Token>)
    requires Sound(w, used)
    requires e.Serving? && (e.req == RevokeAccessToken(x) || (e.req.RevokeRefreshToken? && e.req.token == x))
    requires Step(w.tables, e).1 == Some(Revoked)
    ensures x in w.owner && Ended(Advance(w, e), w.owner[x], used) && Advance(w, e).owner == w.owner
  {
    if e.req.RevokeAccessToken? {
      RevokeAccessEmptiesGrant(w, x);
      RevokeAccessShrinks(w.tables, x);
    } else {
      RevokeRefreshEmptiesGrant(w, x, used);
      RevokeRefreshShrinks(w.tables, x);
    }
  }

  /** After either live token of a grant is revoked, no token of that grant is accepted in any
      continuation of the run: not by the validator, not by the access-token loader, and not by
      the refresh-token loader for any client. */
  lemma RevokedGrantIsNeverAccepted(before: seq<Event>, e: Event, after: seq<Event>, start: real, x: Token, y: Token, later: real)
    requires Admissible(before + [e] + after, start, {})
    requires e.Serving? && (e.req == RevokeAccessToken(x) || (e.req.RevokeRefreshToken? && e.req.token == x))
    requires Step(Run(EMPTY, before), e).1 == Some(Revoked)
    requires var w := Play(START, before + [e] + after); SameGrant(w.owner, x, y)
    ensures Rejects(Run(EMPTY, before + [e] + after), later, y)
  {
    var w, used, rest := Play(START, before), UsedAfter(before, {}), [e] + after;
    assert before + [e] + after == before + rest;
    PlayIsRun(START, before);
    PlayIsRun(START, before + rest);
    AdmissibleSplits(before, rest, start, {});
    RunsKeepSound(START, before, start, {});
    PlaySplits(START, before, rest);
    RevocationEndsGrant(w, e, x, used);
    AdvanceKeepsSound(w, e, used);
    assert rest[1..] == after;
    EndedForEver(Advance(w, e), after, e.now, w.owner[x], used + Drawn(e));
    assert Play(w, rest) == Play(Advance(w, e), after);
  }

  /** A redeemed code is never redeemed again. */
  lemma CodeRedeemedAtMostOnce(before: seq<Event>, e: Event, after: seq<Event>, start: real, later: real, client: Client)
    requires Admissible(before + [e] + after, start, {})
    requires e.Serving? && e.req.Redeem? && Step(Run(EMPTY, before), e).1 != Some(Denied)
    ensures LoadCode(Run(EMPTY, before + [e] + after), later, client, e.req.code).1.None?
  {
    var w, used, rest := Play(START, before), UsedAfter(before, {}), [e] + after;
    assert before + [e] + after == before + rest;
    PlayIsRun(START, before);
    PlayIsRun(START, before + rest);
    AdmissibleSplits(before, rest, start, {});
    RunsKeepSound(START, before, start, {});
    PlaySplits(START, before, rest);
    AdvanceKeepsSound(w, e, used);
    assert rest[1..] == after;
    CodeStaysSpent(Advance(w, e), after, e.now, e.req.code, used + Drawn(e));
    assert Play(w, rest) == Play(Advance(w, e), after);
  }

  lemma SpentCodeStaysSpent(w: World, e: Event, g: Token, used: set<Token>)
    requires DrawsFresh(e, used) && g in used && g !in w.tables.codes
    ensures g !in Advance(w, e).tables.codes
  {
    if e.Serving? && e.req.SaveCode? {
    } else if e.Serving? && (e.req.Redeem? || e.req.Rotate?) && Step(w.tables, e).1 != Some(Denied) {
    } else {
      OtherEventsShrink(w.tables, e);
    }
  }

  lemma {:induction false} CodeStaysSpent(w: World, es: seq<Event>, now: real, g: Token, used: set<Token>)
    requires Admissible(es, now, used) && g in used && g !in w.tables.codes
    ensures g !in Play(w, es).tables.codes
    decreases |es|
  {
    if es != [] {
      SpentCodeStaysSpent(w, es[0], g, used);
      CodeStaysSpent(Advance(w, es[0]), es[1..], es[0].now, g, used + Drawn(es[0]));
    }
  }

  lemma {:induction false} PlaySplits(w: World, before: seq<Event>, after: seq<Event>)
    ensures Play(w, before + after) == Play(Play(w, before), after)
    decreases |before|
  {
    if before == [] {
      assert before + after == after;
    } else {
      assert (before + after)[1..] == before[1..] + after;
      PlaySplits(Advance(w, before[0]), before[1..], after);
    }
  }

  lemma {:induction false} AdmissibleSplits(before: seq<Event>, after: seq<Event>, now: real, used: set<Token>)
    requires Admissible(before + after, now, used)
    ensures Admissible(before, now, used)
    ensures Admissible(after, ClockAfter(before, now), UsedAfter(before, used))
    decreases |before|
  {
    if before == [] {
      assert before + after == after;
    } else {
      assert (before + after)[1..] == before[1..] + after;
      AdmissibleSplits(before[1..], after, before[0].now, used + Drawn(before[0]));
      assert ClockAfter(before, now) == ClockAfter(before[1..], before[0].now);
    }
  }
}
