/**
 Refresh-token rotation (auth.service.ts). A JSON Web Token is a signed payload: `Jwt` holds the signing and checking
 functions, of which only soundness is assumed. Calls run one after the other; a user row may vanish at any time.
 */
module RefreshTokens {
  import opened Wrappers
  import opened Calendar

  datatype Role = SuperAdmin | Client | Staff | Buyer

  datatype User = User(role: Role, id: string)

  /** tokenId stands for everything that tells two tokens of one user apart. */
  datatype Payload = Payload(sub: string, tokenId: string, role: Role)

  datatype Jwt = Jwt(sign: Payload -> string, verify: (string, int) -> Option<Payload>)

  /** Checking a signed token gives what was signed, or fails, for instance because the token has expired. */
  ghost predicate Sound(jwt: Jwt) {
    forall p: Payload, now: int :: jwt.verify(jwt.sign(p), now) == None || jwt.verify(jwt.sign(p), now) == Some(p)
  }

  datatype Owner = Owner(adminId: Option<string>, clientId: Option<string>, staffId: Option<string>,
                         buyerId: Option<string>)

  datatype Token = Token(owner: Owner, expiresAt: int, revokedAt: Option<int>)

  datatype Error = Unauthorized | DuplicateToken

  type Tokens = map<string, Token>

  /** The one foreign key that names the user. */
  function OwnerOf(role: Role, sub: string): Owner {
    match role
    case SuperAdmin => Owner(Some(sub), None, None, None)
    case Client => Owner(None, Some(sub), None, None)
    case Staff => Owner(None, None, Some(sub), None)
    case Buyer => Owner(None, None, None, Some(sub))
  }

  predicate Live(tokens: Tokens, token: string) {
    token in tokens && tokens[token].revokedAt.None?
  }

  function Revoke(tokens: Tokens, token: string, now: int): Tokens {
    if token in tokens then tokens[token := tokens[token].(revokedAt := Some(now))] else tokens
  }

  /** A new row, unless the unique index refuses the token. */
  function Save(tokens: Tokens, token: string, owner: Owner, expiresAt: int): Result<Tokens, Error> {
    if token in tokens then Err(DuplicateToken) else Ok(tokens[token := Token(owner, expiresAt, None)])
  }

  function Login(jwt: Jwt, tokens: Tokens, user: User, tokenId: string, expiresAt: int): Result<Tokens, Error> {
    Save(tokens, jwt.sign(Payload(user.id, tokenId, user.role)), OwnerOf(user.role, user.id), expiresAt)
  }

  /** The checks made before the old token is revoked. */
  predicate Redeemable(jwt: Jwt, tokens: Tokens, token: string, now: int) {
    Live(tokens, token) && !IsPast(tokens[token].expiresAt, now) && jwt.verify(token, now).Some?
  }

  function Successor(jwt: Jwt, token: string, tokenId: string, now: int): Payload
    requires jwt.verify(token, now).Some?
  {
    jwt.verify(token, now).value.(tokenId := tokenId)
  }

  /** What happens after the old token is revoked: the user is looked up and the new token stored, or the call fails. */
  function Reissue(jwt: Jwt, revoked: Tokens, payload: Payload, expiresAt: int, users: set<User>): Result<Tokens, Error>
  {
    if User(payload.role, payload.sub) !in users then Err(Unauthorized)
    else Save(revoked, jwt.sign(payload), OwnerOf(payload.role, payload.sub), expiresAt)
  }

  /** The tokens afterwards, and the new token or an error. The revocation stays also when the rest fails. */
  function Refresh(jwt: Jwt, tokens: Tokens, token: string, tokenId: string, now: int, expiresAt: int, users: set<User>)
    : (Tokens, Result<string, Error>)
  {
    if !Redeemable(jwt, tokens, token, now) then (tokens, Err(Unauthorized))
    else
      var payload := Successor(jwt, token, tokenId, now);
      var revoked := Revoke(tokens, token, now);
      match Reissue(jwt, revoked, payload, expiresAt, users)
      case Ok(saved) => (saved, Ok(jwt.sign(payload)))
      case Err(e) => (revoked, Err(e))
  }

  // ---- When a refresh succeeds ----

  /** The row is there, neither revoked nor expired, and the token checks out. */
  ghost predicate Accepted(jwt: Jwt, tokens: Tokens, token: string, now: int) {
    && token in tokens && tokens[token].revokedAt == None && now <= tokens[token].expiresAt
    && jwt.verify(token, now).Some?
  }

  /** A live row whose only foreign key is the user's, in the column of the role. */
  ghost predicate RowFor(row: Token, role: Role, sub: string, expiresAt: int) {
    && row.revokedAt == None && row.expiresAt == expiresAt
    && row.owner.adminId == (if role == SuperAdmin then Some(sub) else None)
    && row.owner.clientId == (if role == Client then Some(sub) else None)
    && row.owner.staffId == (if role == Staff then Some(sub) else None)
    && row.owner.buyerId == (if role == Buyer then Some(sub) else None)
  }

  /** What a refresh answers and stores. */
  ghost predicate Refreshed(jwt: Jwt, tokens: Tokens, token: string, tokenId: string, now: int, expiresAt: int,
                            users: set<User>, after: Tokens, r: Result<string, Error>)
  {
    if !Accepted(jwt, tokens, token, now) then r == Err(Unauthorized) && after == tokens
    else
      var p := jwt.verify(token, now).value;
      var issued := jwt.sign(Payload(p.sub, tokenId, p.role));
      var revoked := tokens[token := tokens[token].(revokedAt := Some(now))];
      if User(p.role, p.sub) in users && issued !in tokens
      then
        && r == Ok(issued) && issued in after && RowFor(after[issued], p.role, p.sub, expiresAt)
        && after == revoked[issued := after[issued]]
      else r.Err? && after == revoked
  }

  /**
   A refresh succeeds exactly when the old token is accepted, its user still exists and the new token is not stored yet;
   once accepted, the old token is revoked in any case.
   */
  lemma RefreshOutcome(jwt: Jwt, tokens: Tokens, token: string, tokenId: string, now: int, expiresAt: int,
                       users: set<User>)
    ensures var (after, r) := Refresh(jwt, tokens, token, tokenId, now, expiresAt, users);
            Refreshed(jwt, tokens, token, tokenId, now, expiresAt, users, after, r)
  {
    if Redeemable(jwt, tokens, token, now) {
      var p := Successor(jwt, token, tokenId, now);
      assert p == Payload(p.sub, tokenId, p.role);
    }
  }

  // ---- Runs ----

  datatype Event =
    | DoLogin(user: User, tokenId: string, expiresAt: int)
    | DoRefresh(token: string, tokenId: string, now: int, expiresAt: int, users: set<User>)
    | DoLogout(token: string, now: int)

  function Step(jwt: Jwt, tokens: Tokens, e: Event): Tokens {
    match e
    case DoLogin(user, tokenId, expiresAt) =>
      (match Login(jwt, tokens, user, tokenId, expiresAt) case Ok(saved) => saved case Err(_) => tokens)
    case DoRefresh(token, tokenId, now, expiresAt, users) =>
      Refresh(jwt, tokens, token, tokenId, now, expiresAt, users).0
    case DoLogout(token, now) => Revoke(tokens, token, now)
  }

  function Run(jwt: Jwt, events: seq<Event>): Tokens {
    if events == [] then map[] else Step(jwt, Run(jwt, events[..|events| - 1]), events[|events| - 1])
  }

  /** Where a token comes from: the login it goes back to, who logged in, and the number of rotations since. */
  datatype Origin = Origin(root: string, user: User, depth: nat, payload: Payload)

  type Family = map<string, Origin>

  /** The origins after one more event. */
  function Trace(jwt: Jwt, tokens: Tokens, origins: Family, e: Event): Family {
    match e
    case DoLogin(user, tokenId, expiresAt) =>
      var payload := Payload(user.id, tokenId, user.role);
      if Login(jwt, tokens, user, tokenId, expiresAt).Ok?
      then origins[jwt.sign(payload) := Origin(jwt.sign(payload), user, 0, payload)] else origins
    case DoRefresh(token, tokenId, now, expiresAt, users) =>
      (match Refresh(jwt, tokens, token, tokenId, now, expiresAt, users).1
       case Ok(issued) =>
         if token in origins && jwt.verify(token, now).Some?
         then origins[issued := Next(origins[token], Successor(jwt, token, tokenId, now))]
         else origins
       case Err(_) => origins)
    case DoLogout(_, _) => origins
  }

  function Next(o: Origin, payload: Payload): Origin {
    Origin(o.root, o.user, o.depth + 1, payload)
  }

  function Origins(jwt: Jwt, events: seq<Event>): Family {
    if events == [] then map[]
    else
      var before := events[..|events| - 1];
      Trace(jwt, Run(jwt, before), Origins(jwt, before), events[|events| - 1])
  }

  // ---- The invariant ----

  /** Every stored token is a signed payload of the user who logged in, and that user's key is in the row. */
  ghost predicate Owned(jwt: Jwt, tokens: Tokens, origins: Family) {
    && origins.Keys == tokens.Keys
    && forall t :: t in origins ==>
         && t == jwt.sign(origins[t].payload)
         && User(origins[t].payload.role, origins[t].payload.sub) == origins[t].user
         && tokens[t].owner == OwnerOf(origins[t].user.role, origins[t].user.id)
  }

  /** Two tokens of one login: one user, one token per depth, and the shallower one is revoked. */
  predicate Related(tokens: Tokens, origins: Family, t: string, u: string)
    requires t in origins && u in origins
  {
    origins[t].root == origins[u].root ==>
      && origins[t].user == origins[u].user
      && (origins[t].depth == origins[u].depth ==> t == u)
      && (origins[t].depth < origins[u].depth ==> !Live(tokens, t))
  }

  /** The tokens of one login are a chain. */
  ghost predicate Chained(tokens: Tokens, origins: Family) {
    forall t, u :: t in origins && u in origins ==> Related(tokens, origins, t, u)
  }

  predicate IsLogin(origins: Family, root: string) {
    root in origins && origins[root].root == root && origins[root].depth == 0
  }

  ghost predicate Rooted(origins: Family) {
    forall t :: t in origins ==> IsLogin(origins, origins[t].root)
  }

  lemma RevokeKeeps(jwt: Jwt, tokens: Tokens, origins: Family, token: string, now: int)
    requires Owned(jwt, tokens, origins) && Chained(tokens, origins)
    ensures Owned(jwt, Revoke(tokens, token, now), origins) && Chained(Revoke(tokens, token, now), origins)
  {
    forall t, u | t in origins && u in origins ensures Related(Revoke(tokens, token, now), origins, t, u) {
      assert Related(tokens, origins, t, u);
    }
  }

  lemma NewLoginKeeps(jwt: Jwt, tokens: Tokens, origins: Family, user: User, p: Payload, expiresAt: int)
    requires Owned(jwt, tokens, origins) && Chained(tokens, origins) && Rooted(origins)
    requires jwt.sign(p) !in tokens && user == User(p.role, p.sub)
    ensures var t := jwt.sign(p);
            var tokens', origins' := tokens[t := Token(OwnerOf(p.role, p.sub), expiresAt, None)],
              origins[t := Origin(t, user, 0, p)];
            Owned(jwt, tokens', origins') && Chained(tokens', origins') && Rooted(origins')
  {
    var t := jwt.sign(p);
    var tokens', origins' := tokens[t := Token(OwnerOf(p.role, p.sub), expiresAt, None)],
      origins[t := Origin(t, user, 0, p)];
    forall u, v | u in origins' && v in origins' ensures Related(tokens', origins', u, v) {
      assert u != t && v != t ==> Related(tokens, origins, u, v);
    }
  }

  lemma SuccessorKeepsOwned(jwt: Jwt, tokens: Tokens, origins: Family, rotated: string, p: Payload, expiresAt: int)
    requires Owned(jwt, tokens, origins) && rotated in tokens && jwt.sign(p) !in tokens
    requires p.sub == origins[rotated].payload.sub && p.role == origins[rotated].payload.role
    ensures Owned(jwt, tokens[jwt.sign(p) := Token(OwnerOf(p.role, p.sub), expiresAt, None)],
                  origins[jwt.sign(p) := Next(origins[rotated], p)])
  {
  }

  ghost predicate Deepest(origins: Family, t: string)
    requires t in origins
  {
    forall u :: u in origins && origins[u].root == origins[t].root ==> origins[u].depth <= origins[t].depth
  }

  lemma LiveIsDeepest(tokens: Tokens, origins: Family, t: string)
    requires Chained(tokens, origins) && t in origins && Live(tokens, t)
    ensures Deepest(origins, t)
  {
    forall u | u in origins && origins[u].root == origins[t].root ensures origins[u].depth <= origins[t].depth {
      assert Related(tokens, origins, t, u);
    }
  }

  lemma SuccessorKeepsChained(tokens: Tokens, origins: Family, rotated: string, issued: string, token: Token,
                              p: Payload)
    requires Chained(tokens, origins) && Rooted(origins) && origins.Keys == tokens.Keys
    requires rotated in origins && issued !in origins && !Live(tokens, rotated) && Deepest(origins, rotated)
    ensures var tokens', origins' := tokens[issued := token], origins[issued := Next(origins[rotated], p)];
            Chained(tokens', origins') && Rooted(origins')
  {
    var tokens', origins' := tokens[issued := token], origins[issued := Next(origins[rotated], p)];
    forall u, v | u in origins' && v in origins' ensures Related(tokens', origins', u, v) {
      if u != issued && v != issued {
        assert Related(tokens, origins, u, v);
      } else if u != issued {
        assert Related(tokens, origins, u, rotated);
      } else if v != issued {
        assert Related(tokens, origins, v, rotated);
      }
    }
    assert IsLogin(origins, origins[rotated].root);
    forall t | t in origins' ensures IsLogin(origins', origins'[t].root) {
      assert t != issued ==> IsLogin(origins, origins[t].root);
    }
  }

  lemma RefreshKeeps(jwt: Jwt, tokens: Tokens, origins: Family, e: Event)
    requires Sound(jwt) && e.DoRefresh?
    requires Owned(jwt, tokens, origins) && Chained(tokens, origins) && Rooted(origins)
    ensures var tokens', origins' := Step(jwt, tokens, e), Trace(jwt, tokens, origins, e);
            Owned(jwt, tokens', origins') && Chained(tokens', origins') && Rooted(origins')
  {
    if Redeemable(jwt, tokens, e.token, e.now) {
      var t := e.token;
      assert jwt.verify(jwt.sign(origins[t].payload), e.now) == Some(origins[t].payload);
      var p := Successor(jwt, t, e.tokenId, e.now);
      var revoked := Revoke(tokens, t, e.now);
      assert origins.Keys == revoked.Keys;
      hide Chained, Rooted, Deepest;
      LiveIsDeepest(tokens, origins, t);
      RevokeKeeps(jwt, tokens, origins, t, e.now);
      hide Owned;
      if Reissue(jwt, revoked, p, e.expiresAt, e.users).Ok? {
        SuccessorKeepsOwned(jwt, revoked, origins, t, p, e.expiresAt);
        SuccessorKeepsChained(revoked, origins, t, jwt.sign(p), Token(OwnerOf(p.role, p.sub), e.expiresAt, None), p);
      }
    }
  }

  lemma {:induction false} RunsKeepFamilies(jwt: Jwt, events: seq<Event>)
    requires Sound(jwt)
    ensures Owned(jwt, Run(jwt, events), Origins(jwt, events))
    ensures Chained(Run(jwt, events), Origins(jwt, events)) && Rooted(Origins(jwt, events))
  {
    if events != [] {
      var before, e := events[..|events| - 1], events[|events| - 1];
      var tokens, origins := Run(jwt, before), Origins(jwt, before);
      RunsKeepFamilies(jwt, before);
      hide Owned, Chained, Rooted, Redeemable, Reissue, Successor;
      match e
      case DoLogin(user, tokenId, expiresAt) =>
        if Login(jwt, tokens, user, tokenId, expiresAt).Ok? {
          NewLoginKeeps(jwt, tokens, origins, user, Payload(user.id, tokenId, user.role), expiresAt);
        }
      case DoRefresh(_, _, _, _, _) =>
        RefreshKeeps(jwt, tokens, origins, e);
      case DoLogout(token, now) =>
        RevokeKeeps(jwt, tokens, origins, token, now);
    }
  }

  // ---- Main results, over every run ----

  /** The tokens of one login form a chain, of which at most one is live, and that is the latest. */
  lemma AtMostOneLiveTokenPerLogin(jwt: Jwt, events: seq<Event>, t: string, u: string)
    requires Sound(jwt)
    requires t in Origins(jwt, events) && u in Origins(jwt, events)
    requires Origins(jwt, events)[t].root == Origins(jwt, events)[u].root
    ensures Origins(jwt, events)[t].depth == Origins(jwt, events)[u].depth ==> t == u
    ensures Live(Run(jwt, events), t) ==> Origins(jwt, events)[u].depth <= Origins(jwt, events)[t].depth
    ensures Live(Run(jwt, events), t) && Live(Run(jwt, events), u) ==> t == u
  {
    RunsKeepFamilies(jwt, events);
    hide Run, Origins;
    assert Related(Run(jwt, events), Origins(jwt, events), t, u);
    assert Related(Run(jwt, events), Origins(jwt, events), u, t);
  }

  lemma OriginsAreKept(jwt: Jwt, tokens: Tokens, origins: Family, e: Event, p: string)
    requires origins.Keys == tokens.Keys && p in origins
    ensures p in Trace(jwt, tokens, origins, e) && Trace(jwt, tokens, origins, e)[p] == origins[p]
  {
  }

  /** Every token but the first of its chain has a predecessor there. */
  lemma {:induction false} ChainsHaveNoGaps(jwt: Jwt, events: seq<Event>, t: string) returns (p: string)
    requires Sound(jwt) && t in Origins(jwt, events) && Origins(jwt, events)[t].depth > 0
    ensures p in Origins(jwt, events) && Origins(jwt, events)[p].root == Origins(jwt, events)[t].root
    ensures Origins(jwt, events)[p].depth == Origins(jwt, events)[t].depth - 1
  {
    var before, e := events[..|events| - 1], events[|events| - 1];
    var tokens, origins := Run(jwt, before), Origins(jwt, before);
    RunsKeepFamilies(jwt, before);
    hide Chained, Rooted;
    if t in origins {
      OriginsAreKept(jwt, tokens, origins, e, t);
      p := ChainsHaveNoGaps(jwt, before, t);
    } else {
      p := e.token;
    }
    OriginsAreKept(jwt, tokens, origins, e, p);
  }

  /** All along the chain the signed user and role, and the row's foreign key, are those of the login. */
  lemma OwnerAndRoleNeverChange(jwt: Jwt, events: seq<Event>, t: string)
    requires Sound(jwt) && t in Run(jwt, events)
    ensures t in Origins(jwt, events)
    ensures var o := Origins(jwt, events)[t];
            o.root in Run(jwt, events) && o.root in Origins(jwt, events)
            && (var login := Origins(jwt, events)[o.root];
                login.depth == 0 && t == jwt.sign(o.payload) && o.root == jwt.sign(login.payload)
                && o.payload.sub == login.payload.sub && o.payload.role == login.payload.role
                && Run(jwt, events)[t].owner == Run(jwt, events)[o.root].owner
                   == OwnerOf(login.payload.role, login.payload.sub))
  {
    RunsKeepFamilies(jwt, events);
    hide Run, Origins;
    var origins := Origins(jwt, events);
    assert IsLogin(origins, origins[t].root);
    assert Related(Run(jwt, events), origins, t, origins[t].root);
  }

  /** A revoked token stays revoked. */
  lemma {:induction false} RevocationIsFinal(jwt: Jwt, events: seq<Event>, n: nat, t: string)
    requires n <= |events| && t in Run(jwt, events[..n]) && !Live(Run(jwt, events[..n]), t)
    ensures t in Run(jwt, events) && !Live(Run(jwt, events), t)
    decreases |events| - n
  {
    if n < |events| {
      assert events[..n + 1][..n] == events[..n];
      RevocationIsFinal(jwt, events, n + 1, t);
    } else {
      assert events[..n] == events;
    }
  }

  predicate Redeems(jwt: Jwt, events: seq<Event>, i: nat, t: string) {
    i < |events| && events[i].DoRefresh? && events[i].token == t
      && Redeemable(jwt, Run(jwt, events[..i]), t, events[i].now)
  }

  /** No token passes the checks of a refresh twice, whether or not the first refresh went through. */
  lemma TokensAreRedeemedOnce(jwt: Jwt, events: seq<Event>, i: nat, j: nat, t: string)
    requires Redeems(jwt, events, i, t) && Redeems(jwt, events, j, t)
    ensures i == j
  {
    if i < j {
      RedeemedBefore(jwt, events, i, j, t);
    } else if j < i {
      RedeemedBefore(jwt, events, j, i, t);
    }
  }

  lemma RedeemedBefore(jwt: Jwt, events: seq<Event>, i: nat, j: nat, t: string)
    requires Redeems(jwt, events, i, t) && i < j < |events|
    ensures !Live(Run(jwt, events[..j]), t)
  {
    assert events[..i + 1][..i] == events[..i];
    assert events[..j][..i + 1] == events[..i + 1];
    RevocationIsFinal(jwt, events[..j], i + 1, t);
  }

  /** No token of this login is live. */
  ghost predicate SessionOver(tokens: Tokens, origins: Family, root: string) {
    forall t :: t in origins && origins[t].root == root ==> !Live(tokens, t)
  }

  lemma SessionStaysOver(jwt: Jwt, tokens: Tokens, origins: Family, e: Event, root: string)
    requires origins.Keys == tokens.Keys && root in origins && SessionOver(tokens, origins, root)
    ensures root in Trace(jwt, tokens, origins, e)
      && SessionOver(Step(jwt, tokens, e), Trace(jwt, tokens, origins, e), root)
  {
    hide Successor;
    var tokens', origins' := Step(jwt, tokens, e), Trace(jwt, tokens, origins, e);
    forall t | t in origins' && origins'[t].root == root ensures !Live(tokens', t) {
      if t in origins {
        OriginsAreKept(jwt, tokens, origins, e, t);
        assert !Live(tokens, t);
      }
    }
    OriginsAreKept(jwt, tokens, origins, e, root);
  }

  /** Once over, a session is not revived by any further events. */
  lemma {:induction false} SessionsEndForGood(jwt: Jwt, events: seq<Event>, n: nat, root: string)
    requires Sound(jwt) && n <= |events| && root in Origins(jwt, events[..n])
    requires SessionOver(Run(jwt, events[..n]), Origins(jwt, events[..n]), root)
    ensures root in Origins(jwt, events) && SessionOver(Run(jwt, events), Origins(jwt, events), root)
    decreases |events| - n
  {
    if n < |events| {
      var before, after := events[..n], events[..n + 1];
      assert after[..n] == before && after[n] == events[n];
      RunsKeepFamilies(jwt, before);
      assert Run(jwt, after) == Step(jwt, Run(jwt, before), events[n]);
      assert Origins(jwt, after) == Trace(jwt, Run(jwt, before), Origins(jwt, before), events[n]);
      hide SessionOver, Chained, Rooted, Run, Origins, Step, Trace;
      SessionStaysOver(jwt, Run(jwt, before), Origins(jwt, before), events[n], root);
      SessionsEndForGood(jwt, events, n + 1, root);
    } else {
      assert events[..n] == events;
    }
  }

  lemma RevokingTheLiveOne(tokens: Tokens, origins: Family, t: string, now: int)
    requires Chained(tokens, origins) && t in origins && Live(tokens, t)
    ensures SessionOver(Revoke(tokens, t, now), origins, origins[t].root)
  {
    forall u | u in origins && origins[u].root == origins[t].root ensures !Live(Revoke(tokens, t, now), u) {
      assert Related(tokens, origins, t, u);
      assert Related(tokens, origins, u, t);
    }
  }

  /** A refresh whose token passed the checks but which then failed. */
  predicate FailsAfterRevocation(jwt: Jwt, tokens: Tokens, e: Event)
    requires e.DoRefresh?
  {
    Redeemable(jwt, tokens, e.token, e.now)
    && Refresh(jwt, tokens, e.token, e.tokenId, e.now, e.expiresAt, e.users).1.Err?
  }

  /** A logout of the live token ends its session, and so does a refresh that fails after the old token was revoked. */
  lemma LogoutEndsSession(jwt: Jwt, events: seq<Event>, e: Event)
    requires Sound(jwt) && !e.DoLogin? && Live(Run(jwt, events), e.token)
    requires e.DoRefresh? ==> FailsAfterRevocation(jwt, Run(jwt, events), e)
    ensures e.token in Origins(jwt, events)
    ensures SessionOver(Run(jwt, events + [e]), Origins(jwt, events + [e]), Origins(jwt, events)[e.token].root)
  {
    var tokens, origins := Run(jwt, events), Origins(jwt, events);
    RunsKeepFamilies(jwt, events);
    assert (events + [e])[..|events|] == events;
    hide Chained, Rooted, SessionOver;
    RevokingTheLiveOne(tokens, origins, e.token, e.now);
    assert Run(jwt, events + [e]) == Revoke(tokens, e.token, e.now);
    assert Origins(jwt, events + [e]) == origins;
  }

  // ---- The table ----

  class TokenTable {
    const jwt: Jwt
    var tokens: Tokens

    constructor (jwt: Jwt)
      ensures this.jwt == jwt && tokens == map[]
    {
      this.jwt := jwt;
      tokens := map[];
    }

    method SaveRefreshToken(token: string, adminId: Option<string>, clientId: Option<string>, staffId: Option<string>,
                            buyerId: Option<string>, expiresAt: int) returns (r: Result<(), Error>)
      modifies this`tokens
      ensures match Save(old(tokens), token, Owner(adminId, clientId, staffId, buyerId), expiresAt)
              case Ok(saved) => r == Ok(()) && tokens == saved
              case Err(e) => r == Err(e) && tokens == old(tokens)
    {
      if token in tokens {
        return Err(DuplicateToken);
      }
      tokens := tokens[token := Token(Owner(adminId, clientId, staffId, buyerId), expiresAt, None)];
      r := Ok(());
    }

    method IssueAtLogin(user: User, tokenId: string, expiresAt: int) returns (r: Result<string, Error>)
      modifies this`tokens
      ensures tokens == Step(jwt, old(tokens), DoLogin(user, tokenId, expiresAt))
      ensures r.Ok? <==> Login(jwt, old(tokens), user, tokenId, expiresAt).Ok?
      ensures r.Ok? ==> r.value == jwt.sign(Payload(user.id, tokenId, user.role))
      ensures r.Ok? <==> jwt.sign(Payload(user.id, tokenId, user.role)) !in old(tokens)
      ensures r.Ok? ==> r.value in tokens && RowFor(tokens[r.value], user.role, user.id, expiresAt)
    {
      var token := jwt.sign(Payload(user.id, tokenId, user.role));
      var saved := SaveRefreshToken(token,
        if user.role == SuperAdmin then Some(user.id) else None, if user.role == Client then Some(user.id) else None,
        if user.role == Staff then Some(user.id) else None, if user.role == Buyer then Some(user.id) else None,
        expiresAt);
      r := match saved case Ok(_) => Ok(token) case Err(e) => Err(e);
    }

    method RefreshToken(token: string, tokenId: string, now: int, expiresAt: int, users: set<User>)
      returns (r: Result<string, Error>)
      modifies this`tokens
      ensures (tokens, r) == Refresh(jwt, old(tokens), token, tokenId, now, expiresAt, users)
      ensures Refreshed(jwt, old(tokens), token, tokenId, now, expiresAt, users, tokens, r)
    {
      hide Refreshed;
      RefreshOutcome(jwt, tokens, token, tokenId, now, expiresAt, users);
      if token !in tokens || tokens[token].revokedAt.Some? || IsPast(tokens[token].expiresAt, now) {
        return Err(Unauthorized);
      }
      var verified := jwt.verify(token, now);
      if verified.None? {
        return Err(Unauthorized);
      }
      tokens := tokens[token := tokens[token].(revokedAt := Some(now))];
      var sub, role := verified.value.sub, verified.value.role;
      if User(role, sub) !in users {
        return Err(Unauthorized);
      }
      var issued := jwt.sign(Payload(sub, tokenId, role));
      var saved: Result<(), Error>;
      if role == Staff {
        saved := SaveRefreshToken(issued, None, None, Some(sub), None, expiresAt);
      } else {
        saved := SaveRefreshToken(issued, if role == SuperAdmin then Some(sub) else None,
          if role == Client then Some(sub) else None, None, if role == Buyer then Some(sub) else None, expiresAt);
      }
      r := match saved case Ok(_) => Ok(issued) case Err(e) => Err(e);
    }

    method Logout(token: string, now: int)
      modifies this`tokens
      ensures tokens == Step(jwt, old(tokens), DoLogout(token, now))
      ensures tokens.Keys == old(tokens).Keys
      ensures token in tokens ==>
        tokens[token] == Token(old(tokens)[token].owner, old(tokens)[token].expiresAt, Some(now))
      ensures forall t :: t in tokens && t != token ==> tokens[t] == old(tokens)[t]
    {
      if token in tokens {
        tokens := tokens[token := tokens[token].(revokedAt := Some(now))];
      }
    }
  }
}
