/** Login, refresh-token rotation and reuse handling (internal/auth/service.go, internal/auth/repository.go).
    Hashing is an equality test on the secret, and new row ids are unused. */
module Sessions {
  import opened Wrappers
  import TokenCodec

  datatype Token = Token(user: int, secret: string, expiresAt: int, revoked: bool)

  /** `users` holds each account's active flag. */
  datatype Store = Store(users: map<int, bool>, tokens: map<nat, Token>)

  datatype Reply = Issued(client: string) | Done | InvalidCredentials | Deactivated | BadFormat | NotFound | BadSecret
                 | ReuseDetected | Expired | NoUser | Unauthorized

  /** A fresh row: its unused id, its new secret and its expiry. */
  datatype Fresh = Fresh(id: nat, secret: string, expiresAt: int)

  function Login(s: Store, user: int, password: bool, n: Fresh): (Store, Reply)
  {
    if user !in s.users || !password then (s, InvalidCredentials)
    else if !s.users[user] then (s, Deactivated)
    else (s.(tokens := s.tokens[n.id := Token(user, n.secret, n.expiresAt, false)]),
          Issued(TokenCodec.Format(n.id, n.secret)))
  }

  /** RevokeRefreshToken. */
  function Revoke(tokens: map<nat, Token>, id: nat): map<nat, Token>
  {
    if id in tokens then tokens[id := tokens[id].(revoked := true)] else tokens
  }

  /** RevokeAllUserTokens. */
  function RevokeAll(tokens: map<nat, Token>, user: int): map<nat, Token>
  {
    map id | id in tokens :: if tokens[id].user == user then tokens[id].(revoked := true) else tokens[id]
  }

  function Refresh(s: Store, client: string, now: int, n: Fresh): (Store, Reply)
  {
    var parsed := TokenCodec.Parse(client);
    if parsed.None? then (s, BadFormat)
    else
      var (id, secret) := parsed.value;
      if id !in s.tokens then (s, NotFound)
      else
        var token := s.tokens[id];
        if token.secret != secret then (s, BadSecret)
        else if token.revoked then (s.(tokens := RevokeAll(s.tokens, token.user)), ReuseDetected)
        else if token.expiresAt < now then (s, Expired)
        else if token.user !in s.users then (s, NoUser)
        else
          var spent := s.(tokens := Revoke(s.tokens, id));
          if !s.users[token.user] then (spent, Deactivated)
          else (spent.(tokens := spent.tokens[n.id := Token(token.user, n.secret, n.expiresAt, false)]),
                Issued(TokenCodec.Format(n.id, n.secret)))
  }

  function RevokeSession(s: Store, user: int, id: nat): (Store, Reply)
  {
    if id !in s.tokens then (s, NotFound)
    else if s.tokens[id].user != user then (s, Unauthorized)
    else (s.(tokens := Revoke(s.tokens, id)), Done)
  }

  // ----- The tables in place -----

  class Service {
    var users: map<int, bool>
    var tokens: map<nat, Token>

    ghost function Value(): Store
      reads this
    {
      Store(users, tokens)
    }

    method LogIn(user: int, password: bool, n: Fresh) returns (reply: Reply)
      requires n.id !in tokens
      modifies this`tokens
      ensures (Value(), reply) == Login(old(Value()), user, password, n)
    {
      if user !in users || !password {
        return InvalidCredentials;
      }
      if !users[user] {
        return Deactivated;
      }
      tokens := tokens[n.id := Token(user, n.secret, n.expiresAt, false)];
      reply := Issued(TokenCodec.Format(n.id, n.secret));
    }

    method RefreshToken(client: string, now: int, n: Fresh) returns (reply: Reply)
      requires n.id !in tokens
      modifies this`tokens
      ensures (Value(), reply) == Refresh(old(Value()), client, now, n)
    {
      var parsed := TokenCodec.Parse(client);
      if parsed.None? {
        return BadFormat;
      }
      var (id, secret) := parsed.value;
      if id !in tokens {
        return NotFound;
      }
      var stored := tokens[id];
      if stored.secret != secret {
        return BadSecret;
      }
      if stored.revoked {
        tokens := map t | t in tokens :: if tokens[t].user == stored.user then tokens[t].(revoked := true)
          else tokens[t];
        return ReuseDetected;
      }
      if stored.expiresAt < now {
        return Expired;
      }
      if stored.user !in users {
        return NoUser;
      }
      tokens := tokens[id := stored.(revoked := true)];
      if !users[stored.user] {
        return Deactivated;
      }
      tokens := tokens[n.id := Token(stored.user, n.secret, n.expiresAt, false)];
      reply := Issued(TokenCodec.Format(n.id, n.secret));
    }

    method EndSession(user: int, id: nat) returns (reply: Reply)
      modifies this`tokens
      ensures (Value(), reply) == RevokeSession(old(Value()), user, id)
    {
      if id !in tokens {
        return NotFound;
      }
      if tokens[id].user != user {
        return Unauthorized;
      }
      tokens := tokens[id := tokens[id].(revoked := true)];
      reply := Done;
    }
  }

  // ----- Runs -----

  datatype Step =
    | LoginStep(user: int, password: bool, n: Fresh)
    | RefreshStep(client: string, now: int, n: Fresh)
    | RevokeStep(user: int, id: nat)
    | AccountStep(user: int, active: bool)

  /** One call; a call that would reuse a row id does nothing. */
  function Apply(s: Store, step: Step): Store
  {
    match step
    case LoginStep(user, password, n) => if n.id in s.tokens then s else Login(s, user, password, n).0
    case RefreshStep(client, now, n) => if n.id in s.tokens then s else Refresh(s, client, now, n).0
    case RevokeStep(user, id) => RevokeSession(s, user, id).0
    case AccountStep(user, active) => s.(users := s.users[user := active])
  }

  function Run(s: Store, steps: seq<Step>): Store
  {
    if steps == [] then s else Apply(Run(s, steps[..|steps| - 1]), steps[|steps| - 1])
  }

  function Unrevoked(s: Store, user: int): set<nat>
  {
    set id | id in s.tokens && s.tokens[id].user == user && !s.tokens[id].revoked
  }

  /** Whether a step is a successful login of the user. */
  function LogsIn(s: Store, step: Step, user: int): nat
  {
    if step.LoginStep? && step.user == user && step.n.id !in s.tokens
        && Login(s, user, step.password, step.n).1.Issued? then 1 else 0
  }

  function Logins(s: Store, steps: seq<Step>, user: int): nat
  {
    if steps == [] then 0
    else
      var before := steps[..|steps| - 1];
      Logins(s, before, user) + LogsIn(Run(s, before), steps[|steps| - 1], user)
  }

  lemma StepIssues(s: Store, step: Step, user: int)
    ensures |Unrevoked(Apply(s, step), user)| <= |Unrevoked(s, user)| + LogsIn(s, step, user)
  {
    var before, after := Unrevoked(s, user), Unrevoked(Apply(s, step), user);
    match step
    case LoginStep(_, _, n) =>
      assert after <= before + {n.id};
      Fewer(after, if after <= before then before else before + {n.id});
    case RefreshStep(client, now, n) =>
      if n.id !in s.tokens {
        RefreshIssues(s, client, now, n, user);
      }
    case _ =>
      Fewer(after, before);
  }

  /** A refresh spends the token it exchanges. */
  lemma RefreshIssues(s: Store, client: string, now: int, n: Fresh, user: int)
    requires n.id !in s.tokens
    ensures |Unrevoked(Refresh(s, client, now, n).0, user)| <= |Unrevoked(s, user)|
  {
    var before, after := Unrevoked(s, user), Unrevoked(Refresh(s, client, now, n).0, user);
    if after <= before {
      Fewer(after, before);
    } else {
      var (id, _) := TokenCodec.Parse(client).value;
      assert id in before && id !in after;
      assert after <= (before - {id}) + {n.id};
      Fewer(after, (before - {id}) + {n.id});
    }
  }

  lemma {:induction false} Fewer(small: set<nat>, big: set<nat>)
    requires small <= big
    ensures |small| <= |big|
  {
    if x :| x in small {
      Fewer(small - {x}, big - {x});
    } else {
      assert small == {};
    }
  }

  /** Over any run a user's unrevoked tokens never outnumber those at the start plus the logins since. */
  lemma {:induction false} TokensNeverOutnumberLogins(s: Store, steps: seq<Step>, user: int)
    ensures |Unrevoked(Run(s, steps), user)| <= |Unrevoked(s, user)| + Logins(s, steps, user)
  {
    if steps != [] {
      var last := |steps| - 1;
      TokensNeverOutnumberLogins(s, steps[..last], user);
      StepIssues(Run(s, steps[..last]), steps[last], user);
    }
  }

  /** Presenting a revoked token with its right secret leaves its user without unrevoked tokens until that user
      logs in again, whatever else happens. */
  lemma ReuseEndsAllSessions(s: Store, client: string, now: int, n: Fresh, steps: seq<Step>)
    requires TokenCodec.Parse(client).Some?
    requires var (id, secret) := TokenCodec.Parse(client).value;
             id in s.tokens && s.tokens[id].secret == secret && s.tokens[id].revoked
    ensures var user, (after, reply) := s.tokens[TokenCodec.Parse(client).value.0].user, Refresh(s, client, now, n);
            && reply == ReuseDetected
            && (Logins(after, steps, user) == 0 ==> Unrevoked(Run(after, steps), user) == {})
  {
    var user, after := s.tokens[TokenCodec.Parse(client).value.0].user, Refresh(s, client, now, n).0;
    assert Unrevoked(after, user) == {};
    TokensNeverOutnumberLogins(after, steps, user);
  }

  // ----- Redemption -----

  /** The step exchanges this token for a new one. */
  predicate Redeems(s: Store, step: Step, id: nat)
  {
    && step.RefreshStep?
    && step.n.id !in s.tokens
    && TokenCodec.Parse(step.client).Some?
    && TokenCodec.Parse(step.client).value.0 == id
    && Refresh(s, step.client, step.now, step.n).1.Issued?
  }

  lemma {:induction false} RevokedStays(s: Store, steps: seq<Step>, id: nat)
    requires id in s.tokens && s.tokens[id].revoked
    ensures id in Run(s, steps).tokens && Run(s, steps).tokens[id].revoked
  {
    if steps != [] {
      RevokedStays(s, steps[..|steps| - 1], id);
    }
  }

  lemma {:induction false} RunSplits(s: Store, steps: seq<Step>, i: nat)
    requires i <= |steps|
    ensures Run(s, steps) == Run(Run(s, steps[..i]), steps[i..])
    decreases |steps|
  {
    if i == |steps| {
      assert steps[..i] == steps;
    } else {
      var last := |steps| - 1;
      RunSplits(s, steps[..last], i);
      assert steps[..last][..i] == steps[..i] && steps[..last][i..] == steps[i..][..last - i];
    }
  }

  /** Each token is redeemed at most once. */
  lemma RedeemedOnce(s: Store, steps: seq<Step>, i: nat, j: nat, id: nat)
    requires i < j < |steps| && Redeems(Run(s, steps[..i]), steps[i], id)
    ensures !Redeems(Run(s, steps[..j]), steps[j], id)
  {
    var before := Run(s, steps[..i]);
    var after := Apply(before, steps[i]);
    assert steps[..i + 1][..i] == steps[..i];
    assert id in after.tokens && after.tokens[id].revoked;
    RunSplits(s, steps[..j], i + 1);
    assert steps[..j][..i + 1] == steps[..i + 1];
    RevokedStays(after, steps[..j][i + 1..], id);
  }

  /** A login's token, presented before it expires, is exchanged exactly when its secret has no dot; presented a second
      time it ends every session of the user. */
  lemma IssuedTokenRedeems(s: Store, user: int, n: Fresh, now: int, m: Fresh, later: int, k: Fresh)
    requires n.id <= TokenCodec.MAX_UINT64 && now <= n.expiresAt
    requires Login(s, user, true, n).1.Issued?
    ensures var (after, reply) := Login(s, user, true, n);
            var (spent, again) := Refresh(after, reply.client, now, m);
            && (again.Issued? <==> '.' !in n.secret)
            && (again.Issued? && m.id != n.id ==>
                  && Refresh(spent, reply.client, later, k).1 == ReuseDetected
                  && Unrevoked(Refresh(spent, reply.client, later, k).0, user) == {})
  {
    TokenCodec.ParseUndoesFormat(n.id, n.secret);
  }
}
