/**
 * The short-lived WebSocket tokens of the management web app: issued to a
 * logged-in session, valid for 60 seconds, and consumed by their first
 * successful validation. Times are whole seconds.
 */
module Tokens {
  import opened Wrappers

  /** What a token entry records. */
  datatype TokenInfo = TokenInfo(username: string, expires: int, created: int)

  /** The store: whether it exists yet (it is created by the first issue)
      and its entries. */
  datatype Store = Store(initialized: bool, tokens: map<string, TokenInfo>)

  /** The answer of a validation. */
  datatype Validation = Accepted(username: string) | Rejected(reason: string)

  /** How long a token lives. */
  const TokenLifetime := 60

  /** The token handed out: the first 32 characters of the digest of
      `<username>:<login time>:<random hex>`; the digest and the random
      part are parameters. */
  function TokenFor(digest: string -> string, username: string, loginTime: string, random: string): (token: string)
    ensures |token| <= 32
    ensures token <= digest(username + ":" + loginTime + ":" + random)
  {
    var h := digest(username + ":" + loginTime + ":" + random);
    if |h| <= 32 then h else h[..32]
  }

  /** The entries still valid at `now`: those expiring strictly later. */
  function Purge(tokens: map<string, TokenInfo>, now: int): (r: map<string, TokenInfo>)
    ensures forall k :: k in r <==> k in tokens && tokens[k].expires > now
    ensures forall k :: k in r ==> r[k] == tokens[k]
  {
    map k | k in tokens && tokens[k].expires > now :: tokens[k]
  }

  /** Issuing `token` to `username` at `now`: expired entries dropped, the new
      one stored with 60 seconds of validity. */
  function Issue(s: Store, token: string, username: string, now: int): (r: Store)
    ensures r.initialized
    ensures token in r.tokens && r.tokens[token] == TokenInfo(username, now + TokenLifetime, now)
    ensures forall k :: k != token ==> (k in r.tokens <==> s.initialized && k in s.tokens && s.tokens[k].expires > now)
    ensures forall k :: k != token && k in r.tokens ==> r.tokens[k] == s.tokens[k]
  {
    var existing := if s.initialized then s.tokens else map[];
    Store(true, Purge(existing, now)[token := TokenInfo(username, now + TokenLifetime, now)])
  }

  /** Validating the token given in the request body (`None` when the body
      has none) at `now`. */
  function Validate(s: Store, token: Option<string>, now: int): (r: (Validation, Store))
    ensures r.0.Accepted? <==> (token.Some? && s.initialized && token.value in s.tokens
                                && s.tokens[token.value].expires >= now)
    ensures r.0.Accepted? ==> r.0.username == s.tokens[token.value].username
    ensures token.None? ==> r == (Rejected("missing token"), s)
    ensures token.Some? && !s.initialized ==> r == (Rejected("no tokens"), s)
    ensures token.Some? && s.initialized && token.value !in s.tokens ==> r == (Rejected("invalid token"), s)
    ensures token.Some? && s.initialized && token.value in s.tokens ==>
              r.1 == s.(tokens := s.tokens - {token.value})
    ensures r.0 == Rejected("expired") <==> (token.Some? && s.initialized && token.value in s.tokens
                                             && s.tokens[token.value].expires < now)
  {
    match token
    case None => (Rejected("missing token"), s)
    case Some(t) =>
      if !s.initialized then (Rejected("no tokens"), s)
      else if t !in s.tokens then (Rejected("invalid token"), s)
      else if s.tokens[t].expires < now then (Rejected("expired"), s.(tokens := s.tokens - {t}))
      else (Accepted(s.tokens[t].username), s.(tokens := s.tokens - {t}))
  }

  /** A token is good for one validation only: whatever the first answer,
      asking again fails. */
  lemma ValidateTwiceFails(s: Store, token: string, now: int, later: int)
    requires s.initialized && token in s.tokens
    ensures Validate(Validate(s, Some(token), now).1, Some(token), later).0 == Rejected("invalid token")
  {
  }

  /** A token issued at `now` is accepted, for its user, by a validation up
      to 60 seconds later, and rejected as expired after that. */
  lemma IssuedTokenLifetime(s: Store, token: string, username: string, now: int, at: int)
    requires now <= at
    ensures var v := Validate(Issue(s, token, username, now), Some(token), at).0;
      (at <= now + TokenLifetime ==> v == Accepted(username))
      && (at > now + TokenLifetime ==> v == Rejected("expired"))
  {
  }

  /** Issuing a token leaves every other unexpired token valid. */
  lemma IssueKeepsOthers(s: Store, token: string, other: string, username: string, now: int, at: int)
    requires s.initialized && other != token && other in s.tokens && at <= now < s.tokens[other].expires
    ensures Validate(Issue(s, token, username, now), Some(other), at).0 == Accepted(s.tokens[other].username)
  {
  }

  /** At the instant a token expires, validation still accepts it while the
      purge of a concurrent issue already drops it. */
  lemma ExpiryInstant(s: Store, token: string, other: string, username: string, now: int)
    requires s.initialized && token in s.tokens && s.tokens[token].expires == now && other != token
    ensures Validate(s, Some(token), now).0.Accepted?
    ensures token !in Issue(s, other, username, now).tokens
  {
  }

  /** The store as the web app holds it. */
  class TokenStore {
    var initialized: bool
    var tokens: map<string, TokenInfo>

    function Snapshot(): Store
      reads this
    {
      Store(initialized, tokens)
    }

    /** The store before the first token is issued. */
    constructor()
      ensures Snapshot() == Store(false, map[])
    {
      initialized, tokens := false, map[];
    }

    /** `api_session_token` once the token is drawn. */
    method IssueToken(token: string, username: string, now: int)
      modifies this
      ensures Snapshot() == Issue(old(Snapshot()), token, username, now)
    {
      if !initialized {
        initialized, tokens := true, map[];
      }
      tokens := map k | k in tokens && tokens[k].expires > now :: tokens[k];
      tokens := tokens[token := TokenInfo(username, now + TokenLifetime, now)];
    }

    /** `api_validate_token`. */
    method ValidateToken(token: Option<string>, now: int) returns (v: Validation)
      modifies this
      ensures (v, Snapshot()) == Validate(old(Snapshot()), token, now)
    {
      if token.None? {
        return Rejected("missing token");
      }
      var t := token.value;
      if !initialized {
        return Rejected("no tokens");
      }
      if t !in tokens {
        return Rejected("invalid token");
      }
      var info := tokens[t];
      if info.expires < now {
        tokens := tokens - {t};
        return Rejected("expired");
      }
      tokens := tokens - {t};
      v := Accepted(info.username);
    }
  }
}
