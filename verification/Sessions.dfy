/** Operators, their sessions and login: the transactions of the authentication service. */
module Sessions {
  import opened Prelude
  import Limit = LoginRateLimit

  datatype Operator =
    Operator(username: string, passwordHash: string, passwordVersion: nat, isActive: bool, lastLoginAt: Option<int>)

  datatype Session =
    Session(operatorId: string, tokenHash: string, csrfTokenHash: string, expiresAt: int, revokedAt: Option<int>)

  /**
    The three tables, and what no column records: the password version each session was issued under.
   */
  datatype World = World(
    operators: map<string, Operator>,
    sessions: map<string, Session>,
    rates: map<string, Limit.State>,
    issued: map<string, nat>)

  ghost predicate ForeignKeys(w: World)
  {
    w.issued.Keys == w.sessions.Keys && forall id :: id in w.sessions ==> w.sessions[id].operatorId in w.operators
  }

  ghost predicate UniqueTokens(w: World)
  {
    forall a, b :: a in w.sessions && b in w.sessions && w.sessions[a].tokenHash == w.sessions[b].tokenHash ==> a == b
  }

  ghost predicate UniqueUsernames(w: World)
  {
    forall a, b :: a in w.operators && b in w.operators && w.operators[a].username == w.operators[b].username ==> a == b
  }

  /** Every unrevoked session was issued under its operator's current password version. */
  ghost predicate CurrentVersions(w: World)
    requires ForeignKeys(w)
  {
    forall id :: id in w.sessions && w.sessions[id].revokedAt == None ==>
      w.issued[id] == w.operators[w.sessions[id].operatorId].passwordVersion
  }

  ghost predicate Inv(w: World)
  {
    ForeignKeys(w) && UniqueTokens(w) && UniqueUsernames(w) && CurrentVersions(w)
  }

  // ---------------------------------------------------------------- committed effects

  datatype Action =
    | RatesOnly
    | Created(operatorId: string)
    | LoggedIn(operatorId: string, sessionId: string)
    | Revoked(sessionId: string, at: int)
    | PasswordChanged(operatorId: string, sessionId: string, at: int)

  predicate TokenUsed(sessions: map<string, Session>, tokenHash: string)
  {
    exists id :: id in sessions && sessions[id].tokenHash == tokenHash
  }

  predicate UsernameUsed(operators: map<string, Operator>, username: string)
  {
    exists id :: id in operators && operators[id].username == username
  }

  function RevokeAll(sessions: map<string, Session>, operatorId: string, at: int): (r: map<string, Session>)
    ensures r.Keys == sessions.Keys
  {
    map id | id in sessions ::
      if sessions[id].operatorId == operatorId && sessions[id].revokedAt == None
      then sessions[id].(revokedAt := Some(at)) else sessions[id]
  }

  /** A row inserted into `sessions`, issued under the operator's version at that moment. */
  ghost predicate Issues(sessions: map<string, Session>, w: World, v: World, operatorId: string, id: string)
  {
    && id !in sessions && id in v.sessions && operatorId in v.operators
    && v.sessions == sessions[id := v.sessions[id]]
    && v.sessions[id].operatorId == operatorId && v.sessions[id].revokedAt == None
    && !TokenUsed(sessions, v.sessions[id].tokenHash)
    && v.issued == w.issued[id := v.operators[operatorId].passwordVersion]
  }

  /** Only this operator's row changed, and neither its name nor whether it is active. */
  ghost predicate Updates(w: World, v: World, operatorId: string)
  {
    && operatorId in w.operators && operatorId in v.operators
    && v.operators == w.operators[operatorId := v.operators[operatorId]]
    && v.operators[operatorId].username == w.operators[operatorId].username
    && v.operators[operatorId].isActive == w.operators[operatorId].isActive
  }

  ghost predicate Step(w: World, a: Action, v: World)
  {
    match a
    case RatesOnly => v == w.(rates := v.rates)
    case Created(op) =>
      && op !in w.operators && op in v.operators && v == w.(operators := w.operators[op := v.operators[op]])
      && !UsernameUsed(w.operators, v.operators[op].username)
    case LoggedIn(op, id) =>
      && Updates(w, v, op) && v.operators[op].passwordVersion == w.operators[op].passwordVersion
      && Issues(w.sessions, w, v, op, id)
    case Revoked(id, at) =>
      && id in w.sessions && w.sessions[id].revokedAt == None
      && v == w.(sessions := w.sessions[id := w.sessions[id].(revokedAt := Some(at))])
    case PasswordChanged(op, id, at) =>
      && Updates(w, v, op) && v.operators[op].passwordVersion == w.operators[op].passwordVersion + 1
      && Issues(RevokeAll(w.sessions, op, at), w, v, op, id) && v.rates == w.rates
  }

  lemma IssueKeepsTokens(sessions: map<string, Session>, w: World, v: World, op: string, id: string)
    requires Issues(sessions, w, v, op, id)
    requires sessions.Keys == w.sessions.Keys
    requires forall s :: s in sessions ==> sessions[s].tokenHash == w.sessions[s].tokenHash
    requires UniqueTokens(w)
    ensures UniqueTokens(v)
  {
    forall a, b | a in v.sessions && b in v.sessions && v.sessions[a].tokenHash == v.sessions[b].tokenHash
      ensures a == b
    {
      assert a != id ==> a in sessions && v.sessions[a] == sessions[a];
      assert b != id ==> b in sessions && v.sessions[b] == sessions[b];
    }
  }

  lemma CreatedKeepsNames(w: World, v: World, op: string)
    requires Step(w, Created(op), v) && UniqueUsernames(w)
    ensures UniqueUsernames(v)
  {
    forall a, b | a in v.operators && b in v.operators && v.operators[a].username == v.operators[b].username
      ensures a == b
    {
      assert a != op ==> a in w.operators && v.operators[a] == w.operators[a];
      assert b != op ==> b in w.operators && v.operators[b] == w.operators[b];
    }
  }

  lemma UpdateKeepsNames(w: World, v: World, op: string)
    requires Updates(w, v, op) && UniqueUsernames(w)
    ensures UniqueUsernames(v)
  {
  }

  lemma LoggedInKeeps(w: World, op: string, id: string, v: World)
    requires Inv(w) && Step(w, LoggedIn(op, id), v)
    ensures Inv(v)
  {
    hide TokenUsed, UniqueTokens, UniqueUsernames;
    UpdateKeepsNames(w, v, op);
    IssueKeepsTokens(w.sessions, w, v, op, id);
  }

  lemma RevokedAll(w: World, op: string, at: int)
    ensures var revoked := RevokeAll(w.sessions, op, at);
      forall s :: s in revoked ==>
        && revoked[s].operatorId == w.sessions[s].operatorId && revoked[s].tokenHash == w.sessions[s].tokenHash
        && (revoked[s].revokedAt == None <==> w.sessions[s].revokedAt == None && w.sessions[s].operatorId != op)
  {
  }

  lemma ChangedKeeps(w: World, op: string, id: string, at: int, v: World)
    requires Inv(w) && Step(w, PasswordChanged(op, id, at), v)
    ensures Inv(v)
  {
    hide TokenUsed, UniqueTokens, UniqueUsernames, RevokeAll;
    var revoked := RevokeAll(w.sessions, op, at);
    RevokedAll(w, op, at);
    UpdateKeepsNames(w, v, op);
    IssueKeepsTokens(revoked, w, v, op, id);
    forall s | s in v.sessions
      ensures s in v.issued && v.sessions[s].operatorId in v.operators
      ensures v.sessions[s].revokedAt == None ==> v.issued[s] == v.operators[v.sessions[s].operatorId].passwordVersion
    {
      assert s != id ==> s in w.sessions && v.sessions[s] == revoked[s] && v.issued[s] == w.issued[s];
    }
  }

  /** Every committed transaction keeps the invariant. */
  lemma StepKeeps(w: World, a: Action, v: World)
    requires Inv(w) && Step(w, a, v)
    ensures Inv(v)
  {
    match a
    case RatesOnly =>
    case Created(op) =>
      CreatedKeepsNames(w, v, op);
    case LoggedIn(op, id) =>
      LoggedInKeeps(w, op, id, v);
    case Revoked(id, at) =>
    case PasswordChanged(op, id, at) =>
      ChangedKeeps(w, op, id, at, v);
  }

  /** Immediately after a password change, the replacement is the operator's only unrevoked session. */
  lemma OnlyTheReplacement(w: World, op: string, id: string, at: int, v: World, s: string)
    requires Step(w, PasswordChanged(op, id, at), v) && s in v.sessions
    ensures v.sessions[s].operatorId == op && v.sessions[s].revokedAt == None <==> s == id
    ensures s in w.sessions && w.sessions[s].operatorId != op ==> v.sessions[s] == w.sessions[s]
  {
    assert s != id ==> v.sessions[s] == RevokeAll(w.sessions, op, at)[s];
  }

  // ---------------------------------------------------------------- whole runs

  /** What never goes back: rows persist, what identifies them is fixed, revocation is final, versions grow. */
  ghost predicate Later(w: World, v: World)
  {
    && (forall id :: id in w.sessions ==> id in v.sessions && Continues(w.sessions[id], v.sessions[id]))
    && (forall id :: id in w.issued ==> id in v.issued && v.issued[id] == w.issued[id])
    && (forall op :: op in w.operators ==>
          op in v.operators && w.operators[op].passwordVersion <= v.operators[op].passwordVersion)
  }

  predicate Continues(before: Session, after: Session)
  {
    after == before.(revokedAt := after.revokedAt) && (before.revokedAt.Some? ==> after == before)
  }

  lemma StepLater(w: World, a: Action, v: World)
    requires Inv(w) && Step(w, a, v)
    ensures Later(w, v)
  {
    hide TokenUsed, UniqueTokens, UniqueUsernames, RevokeAll;
    match a
    case RatesOnly =>
    case Created(op) =>
    case LoggedIn(op, id) =>
    case Revoked(id, at) =>
    case PasswordChanged(op, id, at) =>
      ChangeLater(w, op, id, at, v);
  }

  lemma ChangeLater(w: World, op: string, id: string, at: int, v: World)
    requires Inv(w) && Step(w, PasswordChanged(op, id, at), v)
    ensures Later(w, v)
  {
    hide TokenUsed, UniqueTokens, UniqueUsernames;
    forall s | s in w.sessions ensures s in v.sessions && Continues(w.sessions[s], v.sessions[s]) {
      assert v.sessions[s] == RevokeAll(w.sessions, op, at)[s];
    }
  }

  lemma LaterTransitive(u: World, v: World, w: World)
    requires Later(u, v) && Later(v, w)
    ensures Later(u, w)
  {
  }

  ghost predicate Run(worlds: seq<World>, actions: seq<Action>)
  {
    && |worlds| == |actions| + 1 && Inv(worlds[0])
    && forall i :: 0 <= i < |actions| ==> Step(worlds[i], actions[i], worlds[i + 1])
  }

  /** The invariant in every reachable state. */
  lemma {:induction false} Reachable(worlds: seq<World>, actions: seq<Action>, i: nat)
    requires Run(worlds, actions) && i < |worlds|
    ensures Inv(worlds[i])
  {
    if i > 0 {
      Reachable(worlds, actions, i - 1);
      StepKeeps(worlds[i - 1], actions[i - 1], worlds[i]);
    }
  }

  lemma {:induction false} RunLater(worlds: seq<World>, actions: seq<Action>, i: nat, j: nat)
    requires Run(worlds, actions) && i <= j < |worlds|
    ensures Later(worlds[i], worlds[j])
    decreases j
  {
    if i < j {
      hide Step, Later, Inv;
      RunLater(worlds, actions, i, j - 1);
      Reachable(worlds, actions, j - 1);
      StepLater(worlds[j - 1], actions[j - 1], worlds[j]);
      LaterTransitive(worlds[i], worlds[j - 1], worlds[j]);
    }
  }

  /** The row a token is looked up by: unrevoked, unexpired, of an active operator. */
  predicate Live(w: World, tokenHash: string, now: int, id: string)
  {
    && id in w.sessions && w.sessions[id].tokenHash == tokenHash && w.sessions[id].revokedAt == None
    && now < w.sessions[id].expiresAt
    && w.sessions[id].operatorId in w.operators && w.operators[w.sessions[id].operatorId].isActive
  }

  /**
    Once a session is revoked or past its expiry, its token opens nothing again, whatever happens
    later: the row stays dead, and no other row can be given the same token.
   */
  lemma DeadForever(worlds: seq<World>, actions: seq<Action>, i: nat, j: nat, id: string, earlier: int, now: int, other: string)
    requires Run(worlds, actions) && i <= j < |worlds| && id in worlds[i].sessions
    requires worlds[i].sessions[id].revokedAt.Some? || worlds[i].sessions[id].expiresAt <= earlier <= now
    ensures !Live(worlds[j], worlds[i].sessions[id].tokenHash, now, other)
  {
    RunLater(worlds, actions, i, j);
    Reachable(worlds, actions, j);
    hide Run, Step;
    assert Continues(worlds[i].sessions[id], worlds[j].sessions[id]);
  }

  /**
    A token that opens a session proves the password has not changed since that session existed:
    at every state in between the operator had the version it has now.
   */
  lemma NoChangeSince(worlds: seq<World>, actions: seq<Action>, i: nat, m: nat, j: nat, id: string, now: int)
    requires Run(worlds, actions) && i <= m <= j < |worlds| && id in worlds[i].sessions
    requires Live(worlds[j], worlds[i].sessions[id].tokenHash, now, id)
    ensures var op := worlds[i].sessions[id].operatorId;
      && op in worlds[m].operators && op in worlds[j].operators
      && worlds[m].operators[op].passwordVersion == worlds[j].operators[op].passwordVersion
  {
    RunLater(worlds, actions, i, m);
    RunLater(worlds, actions, m, j);
    Reachable(worlds, actions, m);
    Reachable(worlds, actions, j);
    hide Run, Step;
    assert Continues(worlds[i].sessions[id], worlds[m].sessions[id]);
    assert Continues(worlds[m].sessions[id], worlds[j].sessions[id]);
    assert worlds[m].issued[id] == worlds[j].issued[id];
  }

  // ---------------------------------------------------------------- the service

  /** Password and token hashing, which the service only calls. */
  datatype Crypto = Crypto(verify: (string, string) -> bool, needsRehash: string -> bool, hashToken: string -> string)

  /** What the randomness, or the caller's replacement tokens, supply for one new session. */
  datatype NewSession = NewSession(id: string, sessionToken: string, csrfToken: string, ttlSeconds: nat)

  datatype Credentials = Credentials(sessionToken: string, csrfCookie: string, csrfHeader: string)

  datatype AuthError = AuthenticationRequired | CsrfInvalid | UniqueViolation | OperatorExists | SessionNotFound

  datatype LoginOutcome = Invalid | RateLimited(retryAfterSeconds: int) | Authenticated(sessionId: string)

  datatype ChangeOutcome = InvalidCurrent | Reused | Changed(sessionId: string)

  predicate CsrfMatches(crypto: Crypto, c: Credentials, expectedHash: string)
  {
    c.csrfCookie != "" && c.csrfHeader != "" && c.csrfCookie == c.csrfHeader && crypto.hashToken(c.csrfHeader) == expectedHash
  }

  function RateKey(crypto: Crypto, username: string): string
  {
    crypto.hashToken("operator-login" + [0 as char] + username)
  }

  function RateRow(rates: map<string, Limit.State>, key: string, now: int): (s: Limit.State)
  {
    if key in rates then rates[key] else Limit.State(0, now, None)
  }

  /** An active operator of that name with that password. */
  predicate Accepts(operators: map<string, Operator>, crypto: Crypto, username: string, password: string, op: string)
  {
    && op in operators && operators[op].username == username && operators[op].isActive
    && crypto.verify(operators[op].passwordHash, password)
  }

  predicate CanInsert(sessions: map<string, Session>, crypto: Crypto, n: NewSession)
  {
    n.id !in sessions && !TokenUsed(sessions, crypto.hashToken(n.sessionToken))
  }

  /** The row of a new session: its operator, the hashes of its two tokens, its expiry, and not revoked. */
  ghost function Opened(crypto: Crypto, op: string, n: NewSession, now: int): (row: Session)
  {
    Session(op, crypto.hashToken(n.sessionToken), crypto.hashToken(n.csrfToken), now + 1000 * n.ttlSeconds, None)
  }

  /** A new session clashes with no row: its id is free, and so is its token. */
  lemma CanInsertIff(sessions: map<string, Session>, crypto: Crypto, n: NewSession)
    ensures CanInsert(sessions, crypto, n) <==>
            n.id !in sessions && forall id :: id in sessions ==> sessions[id].tokenHash != crypto.hashToken(n.sessionToken)
  {
  }

  /** Different names never share a rate row, as long as the hash keeps texts apart. */
  lemma RateKeysDiffer(crypto: Crypto, a: string, b: string)
    requires forall s, t :: crypto.hashToken(s) == crypto.hashToken(t) ==> s == t
    ensures RateKey(crypto, a) == RateKey(crypto, b) <==> a == b
  {
    var prefix := "operator-login" + [0 as char];
    assert (prefix + a)[|prefix|..] == a && (prefix + b)[|prefix|..] == b;
  }

  /** The first failure under a name is let through and opens its window. */
  lemma FirstFailure(rates: map<string, Limit.State>, key: string, now: int, config: Limit.Config)
    requires key !in rates && Limit.ValidConfig(config)
    ensures Limit.FailedAttempt(RateRow(rates, key, now), now, config) == (Limit.State(1, now, None), Limit.LetThrough)
  {
  }

  /** The session of a caller who may change things: its token opens it, and cookie and header agree with its CSRF token. */
  ghost predicate MayAct(w: World, crypto: Crypto, c: Credentials, now: int, id: string)
  {
    && c.sessionToken != "" && Live(w, crypto.hashToken(c.sessionToken), now, id)
    && c.csrfCookie != "" && c.csrfHeader == c.csrfCookie && crypto.hashToken(c.csrfCookie) == w.sessions[id].csrfTokenHash
  }

  class AuthDatabase {
    var operators: map<string, Operator>
    var sessions: map<string, Session>
    var rates: map<string, Limit.State>
    ghost var issued: map<string, nat>

    ghost function Now(): (w: World)
      reads this
    {
      World(operators, sessions, rates, issued)
    }

    /** `insertSession`: the primary key and the unique token hash are the database's own checks. */
    method InsertSession(crypto: Crypto, operatorId: string, n: NewSession, now: int) returns (ok: bool)
      requires operatorId in operators
      modifies this`sessions, this`issued
      ensures ok == CanInsert(old(sessions), crypto, n)
      ensures !ok ==> sessions == old(sessions) && issued == old(issued)
      ensures ok ==> Issues(old(sessions), old(Now()), Now(), operatorId, n.id)
      ensures ok ==> sessions[n.id] == Opened(crypto, operatorId, n, now)
    {
      ok := CanInsert(sessions, crypto, n);
      if ok {
        sessions := sessions[n.id := Session(operatorId, crypto.hashToken(n.sessionToken),
                                             crypto.hashToken(n.csrfToken), now + 1000 * n.ttlSeconds, None)];
        issued := issued[n.id := operators[operatorId].passwordVersion];
      }
    }

    /** `requireMutationSession`: the one live row of the token, if the CSRF tokens agree. */
    method RequireMutationSession(crypto: Crypto, c: Credentials, now: int) returns (r: Result<string, AuthError>)
      requires Inv(Now())
      ensures r == Failure(AuthenticationRequired) <==>
              c.sessionToken == "" || forall id :: id in sessions ==> !Live(Now(), crypto.hashToken(c.sessionToken), now, id)
      ensures r.Success? ==> Live(Now(), crypto.hashToken(c.sessionToken), now, r.value)
      ensures r.Success? ==> CsrfMatches(crypto, c, sessions[r.value].csrfTokenHash)
      ensures forall id :: r == Success(id) <==> MayAct(Now(), crypto, c, now, id)
      ensures r.Failure? && r.error != AuthenticationRequired ==>
        && r.error == CsrfInvalid
        && exists id :: Live(Now(), crypto.hashToken(c.sessionToken), now, id) && !CsrfMatches(crypto, c, sessions[id].csrfTokenHash)
    {
      if c.sessionToken == "" {
        return Failure(AuthenticationRequired);
      }
      ghost var w := Now();
      var hash := crypto.hashToken(c.sessionToken);
      var rows := set id | id in sessions && sessions[id].tokenHash == hash && sessions[id].revokedAt == None
                           && now < sessions[id].expiresAt && sessions[id].operatorId in operators
                           && operators[sessions[id].operatorId].isActive;
      assert forall id :: id in rows <==> Live(w, hash, now, id);
      if rows == {} {
        return Failure(AuthenticationRequired);
      }
      var session :| session in rows;
      if !CsrfMatches(crypto, c, sessions[session].csrfTokenHash) {
        return Failure(CsrfInvalid);
      }
      r := Success(session);
    }

    method CreateOperator(id: string, username: string, passwordHash: string) returns (r: Result<(), AuthError>)
      modifies this`operators
      ensures r.Success? <==> id !in old(operators) && forall op :: op in old(operators) ==> old(operators)[op].username != username
      ensures r.Success? ==> Step(old(Now()), Created(id), Now()) && operators[id] == Operator(username, passwordHash, 1, true, None)
      ensures r.Failure? ==> Now() == old(Now())
    {
      if id in operators || UsernameUsed(operators, username) {
        return Failure(OperatorExists);
      }
      operators := operators[id := Operator(username, passwordHash, 1, true, None)];
      r := Success(());
    }

    /** The successful end of a login: the password may be rehashed, the rate row goes, a session is opened. */
    method OpenSession(crypto: Crypto, key: string, op: string, rehash: string, n: NewSession, now: int) returns (ok: bool)
      requires Inv(Now()) && op in operators
      modifies this
      ensures ok == CanInsert(old(sessions), crypto, n)
      ensures !ok ==> Now() == old(Now())
      ensures ok ==> Step(old(Now()), LoggedIn(op, n.id), Now()) && rates == old(rates) - {key}
      ensures ok ==> operators[op] == old(operators)[op].(lastLoginAt := Some(now), passwordHash :=
                       if crypto.needsRehash(old(operators)[op].passwordHash) then rehash else old(operators)[op].passwordHash)
      ensures ok ==> sessions[n.id] == Opened(crypto, op, n, now)
    {
      var savedOperators, savedRates := operators, rates;
      if crypto.needsRehash(operators[op].passwordHash) {
        operators := operators[op := operators[op].(passwordHash := rehash)];
      }
      rates := rates - {key};
      ok := InsertSession(crypto, op, n, now);
      if !ok {
        operators, rates := savedOperators, savedRates;
        return;
      }
      operators := operators[op := operators[op].(lastLoginAt := Some(now))];
    }

    /**
      `authenticateOperatorOutcome`. A blocked name is refused before its password is looked at; a
      wrong password is a failed attempt of the rate limiter; the right one clears the row and opens
      a session; a clash of tokens rolls everything back.
     */
    method Login(crypto: Crypto, config: Limit.Config, username: string, password: string, rehash: string, n: NewSession, now: int)
      returns (r: Result<LoginOutcome, AuthError>, ghost op: string)
      requires Inv(Now())
      modifies this
      ensures var key := RateKey(crypto, username);
        var row := if key in old(rates) then old(rates)[key] else Limit.State(0, now, None);
        var attempt := Limit.FailedAttempt(row, now, config);
        if attempt.1.Refused? then r == Success(RateLimited(attempt.1.retryAfterSeconds)) && rates == old(rates)[key := attempt.0]
        else if !Accepts(old(operators), crypto, username, password, op) then
          && rates == old(rates)[key := attempt.0]
          && r == Success(match Limit.RetryAfterSeconds(attempt.0, now) case Some(s) => RateLimited(s) case None => Invalid)
        else if CanInsert(old(sessions), crypto, n) then r == Success(Authenticated(n.id)) && rates == old(rates) - {key}
        else r == Failure(UniqueViolation) && rates == old(rates)
      ensures forall other :: Accepts(old(operators), crypto, username, password, other) ==> other == op
      ensures r == Success(Authenticated(n.id)) ==>
        Step(old(Now()), LoggedIn(op, n.id), Now()) && sessions[n.id] == Opened(crypto, op, n, now)
      ensures r != Success(Authenticated(n.id)) ==> Step(old(Now()), RatesOnly, Now())
      ensures Inv(Now())
    {
      ghost var w := Now();
      var key := RateKey(crypto, username);
      var normalized := Limit.Normalize(RateRow(rates, key, now), now, config);
      var existing := Limit.RetryAfterSeconds(normalized, now);
      var rows := set id | id in operators && operators[id].username == username;
      op := if rows == {} then "" else var id :| id in rows; id;
      assert forall other :: other in rows ==> other == op;
      assert forall other :: Accepts(operators, crypto, username, password, other) ==> other in rows;
      if existing.Some? {
        rates := rates[key := normalized];
        StepKeeps(w, RatesOnly, Now());
        return Success(RateLimited(existing.value)), op;
      }
      assert Limit.Normalize(normalized, now, config) == normalized;
      var attempt := Limit.RegisterFailure(normalized, now, config);
      assert RateRow(rates, key, now) == if key in rates then rates[key] else Limit.State(0, now, None);
      assert Limit.FailedAttempt(RateRow(rates, key, now), now, config) == (attempt, Limit.LetThrough);
      hide Limit.FailedAttempt, Limit.RegisterFailure, Limit.RetryAfterSeconds, Limit.Normalize, RateRow, Inv;
      if rows != {} {
        var operator :| operator in rows;
        if operators[operator].isActive && crypto.verify(operators[operator].passwordHash, password) {
          var ok := OpenSession(crypto, key, operator, rehash, n, now);
          if !ok {
            return Failure(UniqueViolation), op;
          }
          StepKeeps(w, LoggedIn(op, n.id), Now());
          return Success(Authenticated(n.id)), op;
        }
      }
      rates := rates[key := attempt];
      StepKeeps(w, RatesOnly, Now());
      var seconds := Limit.RetryAfterSeconds(attempt, now);
      return Success(if seconds.Some? then RateLimited(seconds.value) else Invalid), op;
    }

    method Logout(crypto: Crypto, c: Credentials, now: int) returns (r: Result<string, AuthError>)
      requires Inv(Now())
      modifies this`sessions
      ensures r.Success? ==> Live(old(Now()), crypto.hashToken(c.sessionToken), now, r.value)
      ensures forall id :: r == Success(id) <==> MayAct(old(Now()), crypto, c, now, id)
      ensures r.Success? ==> Step(old(Now()), Revoked(r.value, now), Now())
      ensures r.Failure? ==> Now() == old(Now())
      ensures Inv(Now())
    {
      ghost var w := Now();
      r := RequireMutationSession(crypto, c, now);
      if r.Success? {
        sessions := sessions[r.value := sessions[r.value].(revokedAt := Some(now))];
        StepKeeps(w, Revoked(r.value, now), Now());
      }
    }

    /** `revokeOperatorSession`: another, or the same, live session of the caller's own operator. */
    method RevokeSession(crypto: Crypto, c: Credentials, target: string, now: int) returns (r: Result<bool, AuthError>, ghost caller: string)
      requires Inv(Now())
      modifies this`sessions
      ensures r.Success? ==>
        && Live(old(Now()), crypto.hashToken(c.sessionToken), now, caller)
        && Step(old(Now()), Revoked(target, now), Now()) && now < old(sessions)[target].expiresAt
        && old(sessions)[target].operatorId == old(sessions)[caller].operatorId && r.value == (target == caller)
      ensures r == Failure(SessionNotFound) ==>
        && Live(old(Now()), crypto.hashToken(c.sessionToken), now, caller)
        && (target in old(sessions) && old(sessions)[target].operatorId == old(sessions)[caller].operatorId ==>
              old(sessions)[target].revokedAt.Some? || old(sessions)[target].expiresAt <= now)
      ensures if r.Success? || r.error == SessionNotFound then MayAct(old(Now()), crypto, c, now, caller)
        else forall id :: !MayAct(old(Now()), crypto, c, now, id)
      ensures r.Failure? ==> Now() == old(Now())
      ensures Inv(Now())
    {
      ghost var w := Now();
      var current := RequireMutationSession(crypto, c, now);
      if current.Failure? {
        return Failure(current.error), "";
      }
      caller := current.value;
      if target !in sessions || sessions[target].operatorId != sessions[current.value].operatorId ||
         sessions[target].revokedAt.Some? || sessions[target].expiresAt <= now {
        return Failure(SessionNotFound), current.value;
      }
      sessions := sessions[target := sessions[target].(revokedAt := Some(now))];
      StepKeeps(w, Revoked(target, now), Now());
      r := Success(target == current.value);
    }

    /** The successful end of a password change. */
    method ReplaceSessions(crypto: Crypto, op: string, newHash: string, n: NewSession, now: int) returns (ok: bool)
      requires Inv(Now()) && op in operators
      modifies this
      ensures ok == CanInsert(old(sessions), crypto, n)
      ensures !ok ==> Now() == old(Now())
      ensures ok ==> Step(old(Now()), PasswordChanged(op, n.id, now), Now()) && operators[op].passwordHash == newHash
      ensures ok ==> sessions[n.id] == Opened(crypto, op, n, now)
      ensures Inv(Now())
    {
      ghost var w := Now();
      var savedOperators, savedSessions := operators, sessions;
      operators := operators[op := operators[op].(passwordHash := newHash, passwordVersion := operators[op].passwordVersion + 1)];
      sessions := RevokeAll(sessions, op, now);
      RevokedTokens(savedSessions, op, now, crypto.hashToken(n.sessionToken));
      ghost var revoked := Now();
      assert BumpsVersion(w, revoked, op);
      hide Inv, RevokeAll, TokenUsed, Issues, Step, BumpsVersion;
      ok := InsertSession(crypto, op, n, now);
      if !ok {
        operators, sessions := savedOperators, savedSessions;
        return;
      }
      ReplacedStep(w, revoked, Now(), op, n.id, now);
      StepKeeps(w, PasswordChanged(op, n.id, now), Now());
    }

    /**
      `changeOperatorPasswordOutcome`: the version goes up, every session of the operator is revoked
      and one replacement is opened, all or nothing.
     */
    method ChangePassword(crypto: Crypto, c: Credentials, currentPassword: string, newPassword: string,
                          newHash: string, n: NewSession, now: int)
      returns (r: Result<ChangeOutcome, AuthError>, ghost caller: string)
      requires Inv(Now())
      modifies this
      ensures (r.Success? || r.error == UniqueViolation) ==> Live(old(Now()), crypto.hashToken(c.sessionToken), now, caller)
      ensures (r.Success? || r.error == UniqueViolation) ==>
        var op := old(sessions)[caller].operatorId;
        var hash := old(operators)[op].passwordHash;
        r == (if !crypto.verify(hash, currentPassword) then Success(InvalidCurrent)
              else if crypto.verify(hash, newPassword) then Success(Reused)
              else if CanInsert(old(sessions), crypto, n) then Success(Changed(n.id))
              else Failure(UniqueViolation))
      ensures r == Success(Changed(n.id)) ==>
        var op := old(sessions)[caller].operatorId;
        && Step(old(Now()), PasswordChanged(op, n.id, now), Now()) && operators[op].passwordHash == newHash
        && sessions[n.id] == Opened(crypto, op, n, now)
      ensures if r.Success? || r.error == UniqueViolation then MayAct(old(Now()), crypto, c, now, caller)
        else forall id :: !MayAct(old(Now()), crypto, c, now, id)
      ensures r != Success(Changed(n.id)) ==> Now() == old(Now())
      ensures Inv(Now())
    {
      ghost var w := Now();
      var current := RequireMutationSession(crypto, c, now);
      if current.Failure? {
        return Failure(current.error), "";
      }
      caller := current.value;
      var op := sessions[current.value].operatorId;
      if !crypto.verify(operators[op].passwordHash, currentPassword) {
        return Success(InvalidCurrent), caller;
      }
      if crypto.verify(operators[op].passwordHash, newPassword) {
        return Success(Reused), caller;
      }
      hide Live, CanInsert;
      var ok := ReplaceSessions(crypto, op, newHash, n, now);
      if !ok {
        return Failure(UniqueViolation), caller;
      }
      r := Success(Changed(n.id));
    }
  }

  /** The operator's version is one higher, and no other column than the hash has changed. */
  ghost predicate BumpsVersion(w: World, v: World, op: string)
  {
    Updates(w, v, op) && v.operators[op].passwordVersion == w.operators[op].passwordVersion + 1
  }

  lemma ReplacedStep(w: World, revoked: World, v: World, op: string, id: string, at: int)
    requires BumpsVersion(w, revoked, op) && revoked == w.(operators := revoked.operators, sessions := RevokeAll(w.sessions, op, at))
    requires Issues(revoked.sessions, revoked, v, op, id) && v.operators == revoked.operators && v.rates == revoked.rates
    ensures Step(w, PasswordChanged(op, id, at), v)
  {
    hide TokenUsed, RevokeAll;
  }

  lemma RevokedTokens(sessions: map<string, Session>, op: string, at: int, tokenHash: string)
    ensures TokenUsed(RevokeAll(sessions, op, at), tokenHash) <==> TokenUsed(sessions, tokenHash)
  {
    var revoked := RevokeAll(sessions, op, at);
    assert forall id :: id in sessions ==> revoked[id].tokenHash == sessions[id].tokenHash;
  }
}
