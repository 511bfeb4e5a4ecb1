/** The storage layer: the four tables, changed in place one SQL statement at a time.
    A method without a transaction in the source is one statement here; `_atomic` blocks and
    `cleanup_expired` hold the connection lock, so each is one method. */
module OAuthStore {
  import opened Prelude
  import opened OAuthModel
  import opened RateLimit

  /** Deleting the listed access tokens one by one. */
  lemma DeleteOneMore<T>(m: map<Token, T>, done: seq<Token>, next: Token)
    ensures (m - Elements(done)) - {next} == m - Elements(done + [next])
  {
    assert Elements(done + [next]) == Elements(done) + {next};
  }

  class OAuthStorage {
    const rateLimits: RateLimitStorage
    var codes: map<Token, Row<AuthCode>>
    var access: map<Token, Row<AccessToken>>
    var refresh: map<Token, Row<RefreshToken>>
    var pairs: seq<Pair>

    function View(): Tables
      reads this
    {
      Tables(codes, access, refresh, pairs)
    }

    constructor ()
      ensures View() == EMPTY && fresh(rateLimits) && rateLimits.events == []
    {
      rateLimits := new RateLimitStorage();
      codes, access, refresh, pairs := map[], map[], map[], [];
    }

    method SaveAuthCode(code: Token, data: AuthCode)
      modifies this
      ensures View() == old(View()).(codes := old(codes)[code := CodeRow(data)])
    {
      codes := codes[code := Row(data, Some(PyInt(data.expiresAt)))];
    }

    method GetAuthCode(code: Token) returns (r: Option<AuthCode>)
      ensures r == if code in codes then Some(codes[code].data) else None
    {
      r := if code in codes then Some(codes[code].data) else None;
    }

    method DeleteAuthCode(code: Token)
      modifies this
      ensures View() == old(View()).(codes := old(codes) - {code})
    {
      codes := codes - {code};
    }

    method GetAccessToken(token: Token) returns (r: Option<AccessToken>)
      ensures r == if token in access then Some(access[token].data) else None
    {
      r := if token in access then Some(access[token].data) else None;
    }

    method DeleteAccessToken(token: Token)
      modifies this
      ensures View() == old(View()).(access := old(access) - {token})
    {
      access := access - {token};
    }

    method GetRefreshToken(token: Token) returns (r: Option<RefreshToken>)
      ensures r == if token in refresh then Some(refresh[token].data) else None
    {
      r := if token in refresh then Some(refresh[token].data) else None;
    }

    method DeleteRefreshToken(token: Token)
      modifies this
      ensures View() == old(View()).(refresh := old(refresh) - {token})
    {
      refresh := refresh - {token};
    }

    method GetPairedRefreshToken(token: Token) returns (r: Option<Token>)
      ensures r == PairedRefresh(pairs, token)
    {
      r := PairedRefresh(pairs, token);
    }

    method GetPairedAccessTokens(token: Token) returns (r: seq<Token>)
      ensures r == PairedAccess(pairs, token)
    {
      r := PairedAccess(pairs, token);
    }

    method DeleteTokenPairByAccess(token: Token)
      modifies this
      ensures View() == old(View()).(pairs := WithoutAccess(old(pairs), token))
    {
      pairs := WithoutAccess(pairs, token);
    }

    method DeleteTokenPairByRefresh(token: Token)
      modifies this
      ensures View() == old(View()).(pairs := WithoutRefresh(old(pairs), token))
    {
      pairs := WithoutRefresh(pairs, token);
    }

    /** The two inserts and the pairing row, in one transaction. */
    method SaveIssuedTokenPair(a: Token, accessToken: AccessToken, r: Token, refreshToken: RefreshToken)
      modifies this
      ensures View() == SaveIssuedPair(old(View()), a, accessToken, r, refreshToken)
    {
      access := access[a := Row(accessToken, accessToken.expiresAt)];
      refresh := refresh[r := Row(refreshToken, refreshToken.expiresAt)];
      pairs := pairs + [Pair(a, r)];
    }

    /** Revoke the old refresh token with its access tokens and insert the new pair, in one transaction. */
    method RotateRefreshToken(prev: Token, a: Token, accessToken: AccessToken, r: Token, refreshToken: RefreshToken)
      modifies this
      ensures View() == RotateRefresh(old(View()), prev, a, accessToken, r, refreshToken)
    {
      var paired := PairedAccess(pairs, prev);
      var i := 0;
      while i < |paired|
        invariant 0 <= i <= |paired|
        invariant View() == old(View()).(access := old(access) - Elements(paired[..i]))
      {
        DeleteOneMore(old(access), paired[..i], paired[i]);
        assert paired[..i + 1] == paired[..i] + [paired[i]];
        access := access - {paired[i]};
        i := i + 1;
      }
      assert paired[..i] == paired;
      pairs := WithoutRefresh(pairs, prev);
      refresh := refresh - {prev};
      access := access[a := Row(accessToken, accessToken.expiresAt)];
      refresh := refresh[r := Row(refreshToken, refreshToken.expiresAt)];
      pairs := pairs + [Pair(a, r)];
    }

    /** The transaction of `cleanup_expired`, its statements in order; returns the number of code and token rows deleted. */
    method DeleteExpired(now: int) returns (deleted: int)
      modifies this
      ensures View() == Cleanup(old(View()), now)
      ensures deleted == |old(codes)| + |old(access)| + |old(refresh)| - |codes| - |access| - |refresh|
    {
      var before := |codes|;
      codes := LiveCodes(codes, now);
      deleted := before - |codes|;

      var dead := ExpiredKeys(access, now);
      pairs := WithoutAnyAccess(pairs, dead);
      before := |access|;
      access := access - dead;
      deleted := deleted + before - |access|;

      before := |access|;
      access := access - AccessOfRefreshes(pairs, ExpiredKeys(refresh, now));
      deleted := deleted + before - |access|;

      pairs := WithoutAnyRefresh(pairs, ExpiredKeys(refresh, now));
      before := |refresh|;
      refresh := refresh - ExpiredKeys(refresh, now);
      deleted := deleted + before - |refresh|;
    }

    /** `cleanup_expired`: that transaction, then the pruning of old rate-limit events, which reads the clock again.
        Returns how many rows went in all. */
    method CleanupExpired(now: int, later: int) returns (deleted: int)
      modifies this, rateLimits
      ensures View() == Cleanup(old(View()), now)
      ensures rateLimits.events == Pruned(old(rateLimits.events), later - RATE_LIMIT_EVENT_RETENTION_SECS)
      ensures KeepsRecent(old(rateLimits.events), rateLimits.events, later - RATE_LIMIT_EVENT_RETENTION_SECS)
      ensures deleted == |old(codes)| + |old(access)| + |old(refresh)| + |old(rateLimits.events)|
                       - |codes| - |access| - |refresh| - |rateLimits.events|
    {
      deleted := DeleteExpired(now);
      var pruned := rateLimits.Prune(RATE_LIMIT_EVENT_RETENTION_SECS, later);
      deleted := deleted + pruned;
    }
  }

  /** The authorization server: ordered storage calls for each request. */
  class JournalOAuthProvider {
    const storage: OAuthStorage

    constructor (storage: OAuthStorage)
      ensures this.storage == storage
    {
      this.storage := storage;
    }

    method LoadAuthorizationCode(client: Client, code: Token, now: real) returns (r: Option<AuthCode>)
      modifies storage
      ensures (storage.View(), r) == LoadCode(old(storage.View()), now, client, code)
    {
      r := storage.GetAuthCode(code);
      if r.None? {
        return None;
      }
      if r.value.client != client {
        storage.DeleteAuthCode(code);
        return None;
      }
      if r.value.expiresAt < now {
        storage.DeleteAuthCode(code);
        return None;
      }
    }

    method IssueTokenPair(client: Client, scopes: seq<string>, resource: Option<string>, now: real, a: Token, r: Token)
      modifies storage
      ensures storage.View() == SaveIssuedPair(old(storage.View()), a, NewAccess(client, scopes, now, resource), r, NewRefresh(client, scopes, now))
    {
      var issuedAt := Seconds(now);
      var accessToken := AccessToken(client, scopes, Some(issuedAt + ACCESS_TTL_SECS), resource);
      var refreshToken := RefreshToken(client, scopes, Some(issuedAt + REFRESH_TTL_SECS));
      storage.SaveIssuedTokenPair(a, accessToken, r, refreshToken);
    }

    /** The token endpoint's authorization-code grant: load, then exchange. */
    method RedeemCode(client: Client, code: Token, now: real, a: Token, r: Token) returns (answer: Answer)
      modifies storage
      ensures (storage.View(), answer) == Serve(old(storage.View()), now, Redeem(client, code, a, r))
    {
      var loaded := LoadAuthorizationCode(client, code, now);
      if loaded.None? {
        return Denied;
      }
      storage.DeleteAuthCode(code);
      IssueTokenPair(client, loaded.value.scopes, loaded.value.resource, now, a, r);
      answer := Issued(a, r, loaded.value.scopes);
    }

    method LoadRefreshToken(client: Client, token: Token, now: real) returns (r: Option<RefreshToken>)
      modifies storage
      ensures (storage.View(), r) == LoadRefresh(old(storage.View()), now, client, token)
    {
      r := storage.GetRefreshToken(token);
      if r.None? {
        return None;
      }
      if r.value.client != client {
        return None;
      }
      if r.value.expiresAt.Some? && r.value.expiresAt.value < Seconds(now) {
        storage.DeleteRefreshToken(token);
        return None;
      }
    }

    /** The token endpoint's refresh grant: load, then rotate. */
    method ExchangeRefreshToken(client: Client, token: Token, scopes: seq<string>, now: real, a: Token, r: Token) returns (answer: Answer)
      modifies storage
      ensures (storage.View(), answer) == Serve(old(storage.View()), now, Rotate(client, token, scopes, a, r))
    {
      var loaded := LoadRefreshToken(client, token, now);
      if loaded.None? {
        return Denied;
      }
      var effective := if scopes != [] then scopes else loaded.value.scopes;
      var issuedAt := Seconds(now);
      storage.RotateRefreshToken(
        token,
        a, AccessToken(client, effective, Some(issuedAt + ACCESS_TTL_SECS), None),
        r, RefreshToken(client, effective, Some(issuedAt + REFRESH_TTL_SECS)));
      answer := Issued(a, r, effective);
    }

    method LoadAccessToken(token: Token, now: real) returns (r: Option<AccessToken>)
      modifies storage
      ensures (storage.View(), r) == LoadAccess(old(storage.View()), now, token)
    {
      r := storage.GetAccessToken(token);
      if r.None? {
        return None;
      }
      if r.value.expiresAt.Some? && r.value.expiresAt.value < Seconds(now) {
        storage.DeleteAccessToken(token);
        return None;
      }
    }

    /** Load an access token and, if it is live, revoke it with its paired refresh token. */
    method RevokeByAccess(token: Token, now: real) returns (answer: Answer)
      modifies storage
      ensures (storage.View(), answer) == Serve(old(storage.View()), now, RevokeAccessToken(token))
    {
      var loaded := LoadAccessToken(token, now);
      if loaded.None? {
        return Denied;
      }
      var paired := storage.GetPairedRefreshToken(token);
      storage.DeleteAccessToken(token);
      storage.DeleteTokenPairByAccess(token);
      if paired.Some? && paired.value != "" {
        storage.DeleteRefreshToken(paired.value);
      }
      answer := Revoked;
    }

    /** Load a refresh token and, if it is live, revoke it with its paired access tokens. */
    method RevokeByRefresh(client: Client, token: Token, now: real) returns (answer: Answer)
      modifies storage
      ensures (storage.View(), answer) == Serve(old(storage.View()), now, RevokeRefreshToken(client, token))
    {
      var loaded := LoadRefreshToken(client, token, now);
      if loaded.None? {
        return Denied;
      }
      var paired := storage.GetPairedAccessTokens(token);
      storage.DeleteRefreshToken(token);
      storage.DeleteTokenPairByRefresh(token);
      ghost var start := storage.View();
      var i := 0;
      while i < |paired|
        invariant 0 <= i <= |paired|
        invariant storage.View() == start.(access := start.access - Elements(paired[..i]))
      {
        DeleteOneMore(start.access, paired[..i], paired[i]);
        assert paired[..i + 1] == paired[..i] + [paired[i]];
        storage.DeleteAccessToken(paired[i]);
        i := i + 1;
      }
      assert paired[..i] == paired;
      answer := Revoked;
    }

    /** The self-host token validator. */
    method ValidateToken(token: Token, now: real) returns (granted: bool)
      ensures granted <==> Serve(storage.View(), now, Validate(token)).1 == Granted
    {
      var at := storage.GetAccessToken(token);
      granted := at.Some? && (at.value.expiresAt.None? || at.value.expiresAt.value > Seconds(now));
    }
  }
}
