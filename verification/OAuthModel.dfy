/** The OAuth tables as values, and what one whole request does to them.
    Models gubbi/oauth/storage.py, gubbi/oauth/provider.py and the token validator of
    gubbi/oauth/selfhost.py. */
module OAuthModel {
  import opened Prelude

  type Token = string
  type Client = string

  const ACCESS_TTL_SECS := 3600
  const REFRESH_TTL_SECS := 2592000

  datatype AuthCode = AuthCode(client: Client, scopes: seq<string>, expiresAt: real, resource: Option<string>)
  datatype AccessToken = AccessToken(client: Client, scopes: seq<string>, expiresAt: Option<int>, resource: Option<string>)
  datatype RefreshToken = RefreshToken(client: Client, scopes: seq<string>, expiresAt: Option<int>)

  /** A stored row: the JSON blob, and the indexed `expires_at` column the cleanup reads. */
  datatype Row<T> = Row(data: T, expires: Option<int>)

  /** A row of `token_pairs`. The table has no key, so it is a sequence. */
  datatype Pair = Pair(access: Token, refresh: Token)

  datatype Tables = Tables(
    codes: map<Token, Row<AuthCode>>,
    access: map<Token, Row<AccessToken>>,
    refresh: map<Token, Row<RefreshToken>>,
    pairs: seq<Pair>)

  const EMPTY := Tables(map[], map[], map[], [])

  /** Python's `int(x)` on a float: truncation toward zero. */
  function PyInt(x: real): int {
    if x >= 0.0 then x.Floor else -((-x).Floor)
  }

  /** The whole-second reading of the clock. */
  function Seconds(now: real): int { PyInt(now) }

  // ------------------------------------------------------------------
  // Rows
  // ------------------------------------------------------------------

  function CodeRow(c: AuthCode): Row<AuthCode> { Row(c, Some(PyInt(c.expiresAt))) }
  function AccessRow(a: AccessToken): Row<AccessToken> { Row(a, a.expiresAt) }
  function RefreshRow(r: RefreshToken): Row<RefreshToken> { Row(r, r.expiresAt) }

  /** `expires_at IS NOT NULL AND expires_at < now` */
  predicate Expired<T>(row: Row<T>, now: int) { row.expires.Some? && row.expires.value < now }

  /** Authorization codes treat a missing expiry as expired. */
  predicate CodeExpired(row: Row<AuthCode>, now: int) { row.expires.None? || row.expires.value < now }

  // ------------------------------------------------------------------
  // Pair queries
  // ------------------------------------------------------------------

  function WithoutAccess(ps: seq<Pair>, a: Token): (r: seq<Pair>) { Filter(ps, (p: Pair) => p.access != a) }
  function WithoutRefresh(ps: seq<Pair>, t: Token): (r: seq<Pair>) { Filter(ps, (p: Pair) => p.refresh != t) }

  /** The first pairing row of an access token, if there is one. */
  function PairedRefresh(ps: seq<Pair>, a: Token): (r: Option<Token>)
    ensures r.Some? ==> Pair(a, r.value) in ps
    ensures r.None? ==> forall p :: p in ps ==> p.access != a
  {
    if ps == [] then None
    else if ps[0].access == a then Some(ps[0].refresh)
    else PairedRefresh(ps[1..], a)
  }

  /** Every access token paired with a refresh token, in row order. */
  function PairedAccess(ps: seq<Pair>, t: Token): (r: seq<Token>)
    ensures forall a :: a in r <==> Pair(a, t) in ps
  {
    if ps == [] then []
    else
      assert ps == [ps[0]] + ps[1..];
      if ps[0].refresh == t then [ps[0].access] + PairedAccess(ps[1..], t) else PairedAccess(ps[1..], t)
  }

  function Elements(s: seq<Token>): set<Token> { set x | x in s }

  // ------------------------------------------------------------------
  // Storage operations
  // ------------------------------------------------------------------

  function SaveIssuedPair(t: Tables, a: Token, access: AccessToken, r: Token, refresh: RefreshToken): Tables {
    t.(access := t.access[a := AccessRow(access)],
       refresh := t.refresh[r := RefreshRow(refresh)],
       pairs := t.pairs + [Pair(a, r)])
  }

  /** Revoke the old refresh token and all access tokens paired with it, then issue the new pair. */
  function RotateRefresh(t: Tables, prev: Token, a: Token, access: AccessToken, r: Token, refresh: RefreshToken): Tables {
    SaveIssuedPair(
      t.(access := t.access - Elements(PairedAccess(t.pairs, prev)),
         pairs := WithoutRefresh(t.pairs, prev),
         refresh := t.refresh - {prev}),
      a, access, r, refresh)
  }

  function LiveCodes(codes: map<Token, Row<AuthCode>>, now: int): map<Token, Row<AuthCode>> {
    map c | c in codes && !CodeExpired(codes[c], now) :: codes[c]
  }

  function ExpiredKeys<T>(m: map<Token, Row<T>>, now: int): set<Token> {
    set k | k in m && Expired(m[k], now)
  }

  function WithoutAnyAccess(ps: seq<Pair>, dead: set<Token>): seq<Pair> { Filter(ps, (p: Pair) => p.access !in dead) }
  function WithoutAnyRefresh(ps: seq<Pair>, dead: set<Token>): seq<Pair> { Filter(ps, (p: Pair) => p.refresh !in dead) }

  function AccessOfRefreshes(ps: seq<Pair>, refreshes: set<Token>): set<Token> {
    set p | p in ps && p.refresh in refreshes :: p.access
  }

  /** `cleanup_expired`, statement by statement. */
  function Cleanup(t: Tables, now: int): Tables {
    var dead := ExpiredKeys(t.access, now);
    var deadRefresh := ExpiredKeys(t.refresh, now);
    var pairs := WithoutAnyAccess(t.pairs, dead);
    Tables(LiveCodes(t.codes, now),
           t.access - dead - AccessOfRefreshes(pairs, deadRefresh),
           t.refresh - deadRefresh,
           WithoutAnyRefresh(pairs, deadRefresh))
  }

  // ------------------------------------------------------------------
  // Loading
  // ------------------------------------------------------------------

  function LoadCode(t: Tables, now: real, client: Client, code: Token): (Tables, Option<AuthCode>) {
    if code !in t.codes then (t, None)
    else if t.codes[code].data.client != client then (t.(codes := t.codes - {code}), None)
    else if t.codes[code].data.expiresAt < now then (t.(codes := t.codes - {code}), None)
    else (t, Some(t.codes[code].data))
  }

  function LoadRefresh(t: Tables, now: real, client: Client, token: Token): (Tables, Option<RefreshToken>) {
    if token !in t.refresh then (t, None)
    else
      var data := t.refresh[token].data;
      if data.client != client then (t, None)
      else if data.expiresAt.Some? && data.expiresAt.value < Seconds(now) then (t.(refresh := t.refresh - {token}), None)
      else (t, Some(data))
  }

  function LoadAccess(t: Tables, now: real, token: Token): (Tables, Option<AccessToken>) {
    if token !in t.access then (t, None)
    else
      var data := t.access[token].data;
      if data.expiresAt.Some? && data.expiresAt.value < Seconds(now) then (t.(access := t.access - {token}), None)
      else (t, Some(data))
  }

  /** The self-host validator: it reads, never deletes, and needs strictly remaining lifetime. */
  predicate Validates(t: Tables, now: real, token: Token) {
    token in t.access &&
    (t.access[token].data.expiresAt.None? || t.access[token].data.expiresAt.value > Seconds(now))
  }

  // ------------------------------------------------------------------
  // Revoking
  // ------------------------------------------------------------------

  function RevokeAccess(t: Tables, token: Token): Tables {
    var paired := PairedRefresh(t.pairs, token);
    var t1 := t.(access := t.access - {token}, pairs := WithoutAccess(t.pairs, token));
    if paired.Some? && paired.value != "" then t1.(refresh := t1.refresh - {paired.value}) else t1
  }

  function RevokeRefresh(t: Tables, token: Token): Tables {
    t.(refresh := t.refresh - {token},
       pairs := WithoutRefresh(t.pairs, token),
       access := t.access - Elements(PairedAccess(t.pairs, token)))
  }

  // ------------------------------------------------------------------
  // Whole requests
  // ------------------------------------------------------------------

  /** One request, served at one clock reading. `access` and `refresh` are the strings the
      random generator will hand out if the request issues tokens. */
  datatype Request =
    | SaveCode(code: Token, data: AuthCode)
    | Redeem(client: Client, code: Token, access: Token, refresh: Token)
    | Rotate(client: Client, prev: Token, scopes: seq<string>, access: Token, refresh: Token)
    | RevokeAccessToken(token: Token)
    | RevokeRefreshToken(client: Client, token: Token)
    | Introspect(token: Token)
    | Validate(token: Token)

  datatype Answer =
    | Saved
    | Denied
    | Issued(access: Token, refresh: Token, scopes: seq<string>)
    | Revoked
    | Loaded(data: AccessToken)
    | Granted

  function NewAccess(client: Client, scopes: seq<string>, now: real, resource: Option<string>): AccessToken {
    AccessToken(client, scopes, Some(Seconds(now) + ACCESS_TTL_SECS), resource)
  }

  function NewRefresh(client: Client, scopes: seq<string>, now: real): RefreshToken {
    RefreshToken(client, scopes, Some(Seconds(now) + REFRESH_TTL_SECS))
  }

  function ServeRedeem(t: Tables, now: real, client: Client, code: Token, access: Token, refresh: Token): (Tables, Answer) {
    var (t1, loaded) := LoadCode(t, now, client, code);
    if loaded.None? then (t1, Denied)
    else
      var c := loaded.value;
      (SaveIssuedPair(t1.(codes := t1.codes - {code}),
                      access, NewAccess(client, c.scopes, now, c.resource),
                      refresh, NewRefresh(client, c.scopes, now)),
       Issued(access, refresh, c.scopes))
  }

  function ServeRotate(t: Tables, now: real, client: Client, prev: Token, scopes: seq<string>, access: Token, refresh: Token): (Tables, Answer) {
    var (t1, loaded) := LoadRefresh(t, now, client, prev);
    if loaded.None? then (t1, Denied)
    else
      var effective := if scopes != [] then scopes else loaded.value.scopes;
      (RotateRefresh(t1, prev,
                     access, NewAccess(client, effective, now, None),
                     refresh, NewRefresh(client, effective, now)),
       Issued(access, refresh, effective))
  }

  function Serve(t: Tables, now: real, req: Request): (Tables, Answer) {
    match req
    case SaveCode(code, data) => (t.(codes := t.codes[code := CodeRow(data)]), Saved)
    case Redeem(client, code, access, refresh) => ServeRedeem(t, now, client, code, access, refresh)
    case Rotate(client, prev, scopes, access, refresh) => ServeRotate(t, now, client, prev, scopes, access, refresh)
    case RevokeAccessToken(token) =>
      var (t1, loaded) := LoadAccess(t, now, token);
      if loaded.None? then (t1, Denied) else (RevokeAccess(t1, token), Revoked)
    case RevokeRefreshToken(client, token) =>
      var (t1, loaded) := LoadRefresh(t, now, client, token);
      if loaded.None? then (t1, Denied) else (RevokeRefresh(t1, token), Revoked)
    case Introspect(token) =>
      var (t1, loaded) := LoadAccess(t, now, token);
      if loaded.None? then (t1, Denied) else (t1, Loaded(loaded.value))
    case Validate(token) =>
      (t, if Validates(t, now, token) then Granted else Denied)
  }

  // ------------------------------------------------------------------
  // Runs
  // ------------------------------------------------------------------

  datatype Event = Serving(now: real, req: Request) | Cleaning(now: real)

  function Step(t: Tables, e: Event): (Tables, Option<Answer>) {
    match e
    case Serving(now, req) => var (t1, a) := Serve(t, now, req); (t1, Some(a))
    case Cleaning(now) => (Cleanup(t, Seconds(now)), None)
  }

  function Run(t: Tables, es: seq<Event>): Tables
    decreases |es|
  {
    if es == [] then t else Run(Step(t, es[0]).0, es[1..])
  }

  lemma {:induction false} RunPush(t: Tables, es: seq<Event>, e: Event)
    ensures Run(t, es + [e]) == Step(Run(t, es), e).0
    decreases |es|
  {
    if es == [] {
      assert es + [e] == [e];
    } else {
      assert (es + [e])[1..] == es[1..] + [e];
      RunPush(Step(t, es[0]).0, es[1..], e);
    }
  }

  /** The answers of a run, in order; a cleanup answers nothing. */
  function Answers(t: Tables, es: seq<Event>): seq<Answer>
    decreases |es|
  {
    if es == [] then []
    else
      var (t1, a) := Step(t, es[0]);
      (if a.Some? then [a.value] else []) + Answers(t1, es[1..])
  }

  /** The same requests at the same times, without the cleanups. */
  function WithoutCleanups(es: seq<Event>): seq<Event> {
    if es == [] then []
    else if es[0].Cleaning? then WithoutCleanups(es[1..])
    else [es[0]] + WithoutCleanups(es[1..])
  }

  /** The strings a request draws from the generator. */
  function Drawn(e: Event): set<Token> {
    match e
    case Serving(_, SaveCode(code, _)) => {code}
    case Serving(_, Redeem(_, _, access, refresh)) => {access, refresh}
    case Serving(_, Rotate(_, _, _, access, refresh)) => {access, refresh}
    case _ => {}
  }

  predicate DrawsFresh(e: Event, used: set<Token>) {
    && Drawn(e) !! used
    && "" !in Drawn(e)
    && (e.Serving? && e.req.Redeem? ==> e.req.access != e.req.refresh)
    && (e.Serving? && e.req.Rotate? ==> e.req.access != e.req.refresh)
  }

  /** The clock never goes back and the generator never repeats itself. */
  predicate Admissible(es: seq<Event>, now: real, used: set<Token>) {
    es == [] ||
    (es[0].now >= now && DrawsFresh(es[0], used) && Admissible(es[1..], es[0].now, used + Drawn(es[0])))
  }
}
