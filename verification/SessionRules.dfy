/** Exactly when a session is issued and when it ends, for one call and over every run. */
module SessionRules {
  import opened Wrappers
  import opened Sessions
  import TokenCodec

  // ----- One call -----

  /** The client form carries this id with the secret stored under it. */
  predicate Proves(s: Store, client: string, id: nat)
  {
    id in s.tokens && TokenCodec.Parse(client) == Some((id, s.tokens[id].secret))
  }

  /** Besides, the token is unrevoked and not past its expiry. */
  predicate Current(s: Store, client: string, id: nat, now: int)
  {
    Proves(s, client, id) && !s.tokens[id].revoked && now <= s.tokens[id].expiresAt
  }

  predicate IsActive(s: Store, user: int) { user in s.users && s.users[user] }

  /** Only the revoked flag of these tokens changed. */
  ghost predicate Ended(s: Store, after: Store, ids: set<nat>)
  {
    && after.users == s.users && after.tokens.Keys == s.tokens.Keys
    && forall id :: id in s.tokens ==>
         after.tokens[id] == if id in ids then s.tokens[id].(revoked := true) else s.tokens[id]
  }

  /** A refresh issues a token exactly for a current token, proved by its secret, of an active user. The old token is
      spent, and the new one is the user's, unrevoked, with the fresh secret and expiry; the reply carries its form. */
  lemma RefreshExactly(s: Store, client: string, now: int, n: Fresh)
    requires n.id !in s.tokens
    ensures var (after, reply) := Refresh(s, client, now, n);
            && (reply.Issued? <==> exists id: nat :: Current(s, client, id, now) && IsActive(s, s.tokens[id].user))
            && (reply.Issued? ==>
                  && reply.client == TokenCodec.Format(n.id, n.secret) && n.id in after.tokens
                  && exists id: nat :: && Current(s, client, id, now) && IsActive(s, s.tokens[id].user)
                                       && after.tokens[n.id] == Token(s.tokens[id].user, n.secret, n.expiresAt, false)
                                       && Ended(s, after.(tokens := after.tokens - {n.id}), {id}))
  {
    var (after, reply) := Refresh(s, client, now, n);
    if reply.Issued? {
      var id := TokenCodec.Parse(client).value.0;
      assert Current(s, client, id, now) && IsActive(s, s.tokens[id].user);
      assert Ended(s, after.(tokens := after.tokens - {n.id}), {id});
    }
  }

  /** What a refused refresh does: a proved token that is revoked ends all sessions of its user, a current one of a
      deactivated user is spent, and everything else, a wrong secret and an expired token included, changes nothing. */
  lemma RefusalsExactly(s: Store, client: string, now: int, n: Fresh)
    requires !Refresh(s, client, now, n).1.Issued?
    ensures var (after, reply) := Refresh(s, client, now, n);
            && (reply == ReuseDetected <==> exists id: nat :: Proves(s, client, id) && s.tokens[id].revoked)
            && (forall id: nat | Proves(s, client, id) && s.tokens[id].revoked ::
                  Ended(s, after, set k | k in s.tokens && s.tokens[k].user == s.tokens[id].user))
            && (reply == Deactivated <==>
                  exists id: nat :: Current(s, client, id, now) && s.tokens[id].user in s.users
                                    && !s.users[s.tokens[id].user])
            && (reply == Deactivated ==> exists id: nat :: Current(s, client, id, now) && Ended(s, after, {id}))
            && (reply != ReuseDetected && reply != Deactivated ==> after == s)
  {
    var (after, reply) := Refresh(s, client, now, n);
    if reply == ReuseDetected {
      var id := TokenCodec.Parse(client).value.0;
      assert Proves(s, client, id) && s.tokens[id].revoked;
    }
    if reply == Deactivated {
      var id := TokenCodec.Parse(client).value.0;
      assert Current(s, client, id, now) && Ended(s, after, {id});
    }
  }

  /** A login issues a token exactly with the password of an active account. */
  lemma LoginExactly(s: Store, user: int, password: bool, n: Fresh)
    requires n.id !in s.tokens
    ensures var (after, reply) := Login(s, user, password, n);
            && (reply.Issued? <==> password && IsActive(s, user))
            && (!reply.Issued? ==> after == s)
            && (reply.Issued? ==>
                  && reply.client == TokenCodec.Format(n.id, n.secret)
                  && n.id in after.tokens && after.tokens[n.id] == Token(user, n.secret, n.expiresAt, false)
                  && Ended(s, after.(tokens := after.tokens - {n.id}), {}))
  {
  }

  /** A session is ended exactly by its owner, and no other with it. */
  lemma RevokesExactly(s: Store, user: int, id: nat)
    ensures var (after, reply) := RevokeSession(s, user, id);
            && (reply == Done <==> id in s.tokens && s.tokens[id].user == user)
            && (reply != Done ==> after == s)
            && (reply == Done ==> Ended(s, after, {id}))
  {
  }

  // ----- Over every run -----

  /** A step that stores a token under this id. */
  ghost predicate Issues(s: Store, step: Step, id: nat)
  {
    match step
    case LoginStep(user, password, n) => n.id == id && password && IsActive(s, user)
    case RefreshStep(client, now, n) =>
      n.id == id && exists spent: nat :: Current(s, client, spent, now) && IsActive(s, s.tokens[spent].user)
    case _ => false
  }

  /** A step that ends this session: its owner, its exchange, or the reuse of a spent token of the same user. */
  ghost predicate Ends(s: Store, step: Step, id: nat)
    requires id in s.tokens
  {
    match step
    case RevokeStep(user, other) => other == id && s.tokens[id].user == user
    case RefreshStep(client, now, n) =>
      && n.id !in s.tokens
      && (|| (Current(s, client, id, now) && s.tokens[id].user in s.users)
          || exists other: nat :: Proves(s, client, other) && s.tokens[other].revoked
                                  && s.tokens[other].user == s.tokens[id].user)
    case _ => false
  }

  /** The same session; only its revoked flag may differ. */
  predicate SameSession(a: Token, b: Token) { a.user == b.user && a.secret == b.secret && a.expiresAt == b.expiresAt }

  lemma StepEnds(s: Store, step: Step, id: nat)
    requires id in s.tokens
    ensures var after := Apply(s, step);
            && id in after.tokens && SameSession(after.tokens[id], s.tokens[id])
            && (after.tokens[id].revoked <==> s.tokens[id].revoked || Ends(s, step, id))
  {
    match step
    case LoginStep(user, password, n) => if n.id !in s.tokens { LoginExactly(s, user, password, n); }
    case RefreshStep(client, now, n) => if n.id !in s.tokens { RefreshEnds(s, client, now, n, id); }
    case RevokeStep(user, other) => RevokesExactly(s, user, other);
    case AccountStep(_, _) =>
  }

  lemma RefreshEnds(s: Store, client: string, now: int, n: Fresh, id: nat)
    requires id in s.tokens && n.id !in s.tokens
    ensures var after := Refresh(s, client, now, n).0;
            && id in after.tokens && SameSession(after.tokens[id], s.tokens[id])
            && (after.tokens[id].revoked <==> s.tokens[id].revoked || Ends(s, RefreshStep(client, now, n), id))
  {
    var (after, reply) := Refresh(s, client, now, n);
    if reply.Issued? {
      RefreshExactly(s, client, now, n);
    } else {
      RefusalsExactly(s, client, now, n);
    }
  }

  lemma StepIssuesExactly(s: Store, step: Step, id: nat)
    requires id !in s.tokens
    ensures id in Apply(s, step).tokens <==> Issues(s, step, id)
  {
    match step
    case LoginStep(user, password, n) => if n.id !in s.tokens { LoginExactly(s, user, password, n); }
    case RefreshStep(client, now, n) =>
      if n.id !in s.tokens {
        if Refresh(s, client, now, n).1.Issued? {
          RefreshExactly(s, client, now, n);
        } else {
          RefusalsExactly(s, client, now, n);
        }
      }
    case _ =>
  }

  ghost predicate EndsAt(s: Store, steps: seq<Step>, i: nat, id: nat)
  {
    i < |steps| && id in Run(s, steps[..i]).tokens && Ends(Run(s, steps[..i]), steps[i], id)
  }

  ghost predicate IssuesAt(s: Store, steps: seq<Step>, i: nat, id: nat)
  {
    i < |steps| && id !in Run(s, steps[..i]).tokens && Issues(Run(s, steps[..i]), steps[i], id)
  }

  /** Over any run a session keeps its user, secret and expiry, and it is revoked exactly when it was so at the start or
      its owner ended it, it was exchanged with its own secret in time, or a spent token of its user was presented. */
  lemma {:induction false} SessionEndsExactly(s: Store, steps: seq<Step>, id: nat)
    requires id in s.tokens
    ensures var after := Run(s, steps);
            && id in after.tokens && SameSession(after.tokens[id], s.tokens[id])
            && (after.tokens[id].revoked <==>
                  s.tokens[id].revoked || exists i | 0 <= i < |steps| :: EndsAt(s, steps, i, id))
  {
    if steps != [] {
      var last := |steps| - 1;
      SessionEndsExactly(s, steps[..last], id);
      var mid := Run(s, steps[..last]);
      StepEnds(mid, steps[last], id);
      assert EndsAt(s, steps, last, id) <==> Ends(mid, steps[last], id);
      forall i | 0 <= i < last
        ensures EndsAt(s, steps, i, id) <==> EndsAt(s, steps[..last], i, id)
      {
        assert steps[..last][..i] == steps[..i];
      }
    }
  }

  /** Over any run a session that was not there is there exactly when an active user logged in with the password, or
      exchanged a current token proved by its secret. */
  lemma {:induction false} SessionIssuedExactly(s: Store, steps: seq<Step>, id: nat)
    requires id !in s.tokens
    ensures id in Run(s, steps).tokens <==> exists i | 0 <= i < |steps| :: IssuesAt(s, steps, i, id)
  {
    if steps != [] {
      var last := |steps| - 1;
      SessionIssuedExactly(s, steps[..last], id);
      var mid := Run(s, steps[..last]);
      if id in mid.tokens {
        StepEnds(mid, steps[last], id);
      } else {
        StepIssuesExactly(mid, steps[last], id);
        assert IssuesAt(s, steps, last, id) <==> Issues(mid, steps[last], id);
      }
      forall i | 0 <= i < last
        ensures IssuesAt(s, steps, i, id) <==> IssuesAt(s, steps[..last], i, id)
      {
        assert steps[..last][..i] == steps[..i];
      }
    }
  }
}
