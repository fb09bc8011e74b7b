/**
 * The service's own control flow: each method runs its statements in place, and
 * between any two of them the statements `env` of other calls may run.
 */
module RefreshTokenCalls {
  import opened Options
  import opened RefreshTokens
  import opened RefreshTokenSafety

  /** e is a statement of another call, and it does not create the row id. */
  predicate Foreign(e: Event, c: CallId, id: TokenId) {
    match e
    case Login(x, _, _, _) => x != id
    case Issue(d, x, _) => d != c && x != id
    case RevokeUser(_, _, _) => true
    case _ => e.call != c
  }

  predicate AllForeign(es: seq<Event>, c: CallId, id: TokenId) { forall e :: e in es ==> Foreign(e, c, id) }

  lemma {:induction false} ForeignRun(s: State, es: seq<Event>, c: CallId, id: TokenId)
    requires AllForeign(es, c, id)
    ensures c in s.calls ==> c in Run(s, es).calls && Run(s, es).calls[c] == s.calls[c]
    ensures id !in s.rows ==> id !in Run(s, es).rows
    decreases |es|
  {
    if es != [] {
      assert Foreign(es[0], c, id);
      ForeignRun(Step(s, es[0]), es[1..], c, id);
    }
  }

  /** Nobody else runs meanwhile. */
  predicate Alone(env: seq<seq<Event>>) { forall es :: es in env ==> es == [] }

  /** A disabled account stays disabled. */
  lemma {:induction false} DisabledStay(s: State, es: seq<Event>)
    ensures s.disabled <= Run(s, es).disabled
    decreases |es|
  {
    if es != [] { DisabledStay(Step(s, es[0]), es[1..]); }
  }

  /** An unrevoked row of the scope is revoked with this time and reason; every other row is as it was. */
  predicate RevokedExactly(before: Token, after: Token, scope: Scope, now: Time, reason: Reason) {
    var meant := match scope
                 case OfFamily(f) => before.family == f
                 case OfUser(u) => before.user == u;
    after == if meant && before.revokedAt.None? then before.(revokedAt := Some(now), reason := Some(reason)) else before
  }

  /** The old token is revoked and replaced by the new one, which has its family and user; nothing else changed. */
  predicate Rotated(before: map<TokenId, Token>, after: map<TokenId, Token>, secret: TokenId, id: TokenId,
                    expiresAt: Time, now: Time)
    requires secret in before
  {
    && after.Keys == before.Keys + {id} && secret != id
    && after[id] == Token(before[secret].family, before[secret].user, expiresAt, None, None, None)
    && after[secret] == Token(before[secret].family, before[secret].user, before[secret].expiresAt,
                              Some(now), Some(ByRotation), Some(id))
    && forall x :: x in before && x != secret && x != id ==> after[x] == before[x]
  }

  predicate OnlyFamilyRevoked(before: map<TokenId, Token>, after: map<TokenId, Token>, f: FamilyId, id: TokenId) {
    && after.Keys == before.Keys + {id}
    && forall x :: x in after ==>
         if x in before && before[x].family != f then after[x] == before[x] else after[x].revokedAt.Some?
  }

  function CheckedPc(e: Token, id: TokenId, disabled: set<UserId>): Pc {
    if e.user in disabled then Revoking(OfFamily(e.family), ByDisable, AccountDisabled) else Done(Success(id))
  }

  lemma AloneAt(env: seq<seq<Event>>)
    ensures Alone(env) ==> forall i :: 0 <= i < |env| ==> env[i] == []
  {
    forall i | 0 <= i < |env| ensures env[i] in env {}
  }

  lemma RotatedSo(before: map<TokenId, Token>, issued: map<TokenId, Token>, after: map<TokenId, Token>,
                  secret: TokenId, id: TokenId, expiresAt: Time, now: Time)
    requires secret in before && id !in before && before[secret].revokedAt.None?
    requires issued == before[id := Token(before[secret].family, before[secret].user, expiresAt, None, None, None)]
    requires after == issued[secret := issued[secret].(revokedAt := Some(now), reason := Some(ByRotation),
                                                       replacedBy := Some(id))]
    ensures Rotated(before, after, secret, id, expiresAt, now)
  {
  }

  lemma RevokedAfter(before: map<TokenId, Token>, rotated: map<TokenId, Token>, after: map<TokenId, Token>,
                     secret: TokenId, id: TokenId, expiresAt: Time, now: Time, reason: Reason)
    requires secret in before && Rotated(before, rotated, secret, id, expiresAt, now) && after.Keys == rotated.Keys
    requires id !in before
    requires forall x :: x in after ==>
               RevokedExactly(rotated[x], after[x], OfFamily(before[secret].family), now, reason)
    ensures OnlyFamilyRevoked(before, after, before[secret].family, id)
  {
  }

  class RefreshTokenService {
    var rows: map<TokenId, Token>
    var disabled: set<UserId>
    var calls: map<CallId, Call>
    var released: set<TokenId>
    var births: map<TokenId, Birth>
    var families: map<FamilyId, Lineage>

    function View(): State
      reads this
    {
      State(rows, disabled, calls, released, births, families)
    }

    constructor ()
      ensures View() == EMPTY
    {
      rows, disabled, calls, released, births, families := map[], {}, map[], {}, map[], map[];
    }

    /** Statements of other calls. */
    method Others(env: seq<Event>)
      modifies this
      ensures View() == Run(old(View()), env)
    {
      var s := Run(View(), env);
      rows, disabled, calls, released, births, families := s.rows, s.disabled, s.calls, s.released, s.births,
        s.families;
    }

    /** findUnique by hash at the start of `rotate`, with the checks on the row it returned. */
    method FindPresented(c: CallId, secret: TokenId, now: Time)
      requires c !in calls && Presentable(View(), secret)
      modifies this`calls
      ensures View() == Step(old(View()), Find(c, secret, now))
    {
      var pc: Pc;
      if secret !in rows {
        pc := Done(Invalid);
      } else {
        var existing := rows[secret];
        if existing.revokedAt.Some? {
          pc := Revoking(OfFamily(existing.family), ByReuse, Reused(existing.family));
        } else if existing.expiresAt < now {
          pc := Done(Expired);
        } else {
          pc := Issuing(existing);
        }
      }
      calls := calls[c := Rotation(secret, pc)];
    }

    /** `issue` into the family of the presented token. */
    method CreateNext(c: CallId, id: TokenId, expiresAt: Time)
      requires CanIssue(View(), c, id)
      modifies this`rows, this`births, this`calls
      ensures View() == Step(old(View()), Issue(c, id, expiresAt))
      ensures var existing := old(calls[c].pc.existing);
              && rows == old(rows)[id := Token(existing.family, existing.user, expiresAt, None, None, None)]
              && calls == old(calls)[c := old(calls[c]).(pc := Claiming(existing, id))]
    {
      var existing := calls[c].pc.existing;
      births := births[id := ByRotate(c, calls[c].presented, |rows|)];
      rows := rows[id := FreshToken(existing.family, existing.user, expiresAt)];
      calls := calls[c := calls[c].(pc := Claiming(existing, id))];
    }

    /** update where id and revokedAt is null: true when this call flipped the row. */
    method ClaimPresented(c: CallId, now: Time) returns (won: bool)
      requires CanClaim(View(), c)
      modifies this`rows, this`released, this`families, this`calls
      ensures View() == Step(old(View()), Claim(c, now))
      ensures won <==> old(calls[c].presented) in old(rows) && old(rows)[old(calls[c].presented)].revokedAt.None?
      ensures var used, pc := old(calls[c].presented), old(calls[c].pc);
              && c in calls && calls[c].Rotation? && calls[c].presented == used
              && (won ==> calls[c].pc == CheckingAccount(pc.existing, pc.next)
                          && rows == old(rows)[used := old(rows)[used].(revokedAt := Some(now),
                                                                        reason := Some(ByRotation),
                                                                        replacedBy := Some(pc.next))])
              && (!won ==> rows == old(rows)
                           && calls[c].pc == Revoking(OfFamily(pc.existing.family), ByReuse,
                                                      Reused(pc.existing.family)))
    {
      var used, pc := calls[c].presented, calls[c].pc;
      var fam := pc.existing.family;
      won := used in rows && rows[used].revokedAt.None?;
      if won {
        rows := rows[used := rows[used].(revokedAt := Some(now), reason := Some(ByRotation),
          replacedBy := Some(pc.next))];
        released := released + {pc.next};
        if fam in families { families := families[fam := families[fam].(tip := pc.next)]; }
        calls := calls[c := calls[c].(pc := CheckingAccount(pc.existing, pc.next))];
      } else {
        calls := calls[c := calls[c].(pc := Revoking(OfFamily(fam), ByReuse, Reused(fam)))];
      }
    }

    /** updateMany over the scope of the call: revokeFamily, or the rows of a user. */
    method RevokeMany(c: CallId, now: Time)
      requires CanRevoke(View(), c)
      modifies this`rows, this`calls
      ensures View() == Step(old(View()), Revoke(c, now))
      ensures rows.Keys == old(rows).Keys
      ensures forall x :: x in rows ==>
                RevokedExactly(old(rows)[x], rows[x], old(calls[c].pc.scope), now, old(calls[c].pc.reason))
    {
      var pc := calls[c].pc;
      rows := RevokeScope(rows, pc.scope, now, pc.reason);
      calls := calls[c := calls[c].(pc := Done(pc.answer))];
    }

    /** AuthService.refresh looks the user up after the rotation. */
    method ReadAccount(c: CallId)
      requires CanCheck(View(), c)
      modifies this`calls
      ensures View() == Step(old(View()), CheckAccount(c))
      ensures var pc := old(calls[c].pc);
              c in calls && calls[c] == old(calls[c]).(
                pc := if pc.token.user in disabled then Revoking(OfFamily(pc.token.family), ByDisable, AccountDisabled)
                      else Done(Success(pc.next)))
    {
      var pc := calls[c].pc;
      if pc.token.user in disabled {
        calls := calls[c := calls[c].(pc := Revoking(OfFamily(pc.token.family), ByDisable, AccountDisabled))];
      } else {
        calls := calls[c := calls[c].(pc := Done(Success(pc.next)))];
      }
    }

    /**
     * AuthService.refresh over RefreshTokenService.rotate, with other calls' statements between its
     * own. It is a run of the machine; it answers with the fresh token only if its own claim won;
     * and every refusal after a reuse leaves the family dead.
     */
    method Refresh(c: CallId, secret: TokenId, id: TokenId, expiresAt: Time, now: Time, env: seq<seq<Event>>)
      returns (answer: Outcome, trace: seq<Event>)
      requires Inv(View()) && c !in calls && Presentable(View(), secret) && id !in rows
      requires |env| == 4 && forall es :: es in env ==> AllForeign(es, c, id)
      modifies this
      ensures Inv(View()) && View() == Run(old(View()), trace)
      ensures c in calls && calls[c] == Rotation(secret, Done(answer))
      ensures answer.Invalid? <==> secret !in old(rows)
      ensures answer.Expired? <==>
                secret in old(rows) && old(rows)[secret].revokedAt.None? && old(rows)[secret].expiresAt < now
      ensures secret in old(rows) && old(rows)[secret].revokedAt.Some? ==> answer.Reused?
      ensures answer.Success? ==> answer.next == id && id in released && Link(View(), secret, id)
      ensures answer.Success? ==> secret in old(rows) && old(rows)[secret].user !in old(disabled)
      ensures answer.Invalid? || answer.Expired? ==> rows == old(rows)
      ensures secret in old(rows) && old(rows)[secret].revokedAt.None? && old(rows)[secret].expiresAt >= now
              && Alone(env) ==>
                && answer == (if old(rows)[secret].user in old(disabled) then AccountDisabled else Success(id))
                && (answer.Success? ==> Rotated(old(rows), rows, secret, id, expiresAt, now))
                && (answer.AccountDisabled? ==> OnlyFamilyRevoked(old(rows), rows, old(rows)[secret].family, id))
      ensures answer.Reused? || answer.AccountDisabled? ==> secret in rows && FamilyDead(View(), rows[secret].family)
    {
      FindPresented(c, secret, now);
      trace := [Find(c, secret, now)];
      Grows(old(View()), [], trace);
      AloneAt(env);
      if calls[c].pc.Issuing? {
        trace := Rotate(old(View()), trace, c, secret, id, expiresAt, now, env);
      }
      ghost var rotated := rows;
      if calls[c].pc.Revoking? {
        ghost var scope, reason := calls[c].pc.scope, calls[c].pc.reason;
        trace := Burn(old(View()), trace, c, id, now, env[3]);
        if secret in old(rows) && Alone(env) && Rotated(old(rows), rotated, secret, id, expiresAt, now)
           && scope == OfFamily(old(rows)[secret].family) {
          RevokedAfter(old(rows), rotated, rows, secret, id, expiresAt, now, reason);
        }
      }
      answer := calls[c].pc.outcome;
      AnswerMeans(View(), c);
    }

    /** completeLogin: `issue` without a family id starts a new family. */
    method Login(id: TokenId, fam: FamilyId, user: UserId, expiresAt: Time)
      requires Inv(View()) && CanLogin(View(), id, fam)
      modifies this
      ensures View() == Step(old(View()), Event.Login(id, fam, user, expiresAt)) && Inv(View())
      ensures ReleasedOf(View(), fam) == {id} && Live(View(), id)
      ensures rows == old(rows)[id := Token(fam, user, expiresAt, None, None, None)] && released == old(released) + {id}
    {
      StepKeeps(View(), Event.Login(id, fam, user, expiresAt));
      NewFamilyIsEmpty(View(), fam);
      births := births[id := ByLogin(|rows|)];
      rows := rows[id := FreshToken(fam, user, expiresAt)];
      released := released + {id};
      families := families[fam := Lineage(user, id, id)];
    }

    /** AuthService.logout over revokeByRawToken: an unknown secret revokes nothing, a known one its family. */
    method Logout(c: CallId, secret: TokenId, now: Time, id: TokenId, env: seq<Event>) returns (trace: seq<Event>)
      requires Inv(View()) && c !in calls && Presentable(View(), secret) && AllForeign(env, c, id)
      modifies this
      ensures View() == Run(old(View()), trace) && Inv(View())
      ensures secret in old(rows) ==> secret in rows && FamilyDead(View(), rows[secret].family)
      ensures secret !in old(rows) ==> rows == old(rows)
      ensures secret in old(rows) && env == [] ==>
                && rows.Keys == old(rows).Keys
                && forall x :: x in rows ==>
                     RevokedExactly(old(rows)[x], rows[x], OfFamily(old(rows)[secret].family), now, ByLogout)
    {
      calls := calls[c := Other(LogoutPc(View(), secret))];
      trace := Logged(old(View()), [], FindForLogout(c, secret));
      if secret in rows { trace := RevokeFound(old(View()), trace, c, secret, now, id, env); }
    }

    /** The second statement of logout. */
    method RevokeFound(ghost s0: State, trace: seq<Event>, c: CallId, secret: TokenId, now: Time, id: TokenId,
                       env: seq<Event>)
      returns (grown: seq<Event>)
      requires Inv(s0) && View() == Run(s0, trace) && Inv(View()) && AllForeign(env, c, id) && secret in rows
      requires c in calls && calls[c] == Other(Revoking(OfFamily(rows[secret].family), ByLogout, Finished))
      modifies this
      ensures View() == Run(s0, grown) && Inv(View())
      ensures secret in rows && FamilyDead(View(), rows[secret].family)
      ensures env == [] ==>
                && rows.Keys == old(rows).Keys
                && forall x :: x in rows ==>
                     RevokedExactly(old(rows)[x], rows[x], OfFamily(old(rows)[secret].family), now, ByLogout)
    {
      ForeignRows(View(), env, secret);
      grown := Interleave(s0, trace, c, id, env);
      ScopeLeavesDead(View(), c, now, secret);
      RevokeMany(c, now);
      grown := Logged(s0, grown, Revoke(c, now));
    }

    /** executeDisableUser: the status first, the sessions in a second statement. */
    method DisableUser(c: CallId, user: UserId, now: Time, id: TokenId, env: seq<Event>) returns (trace: seq<Event>)
      requires Inv(View()) && c !in calls && AllForeign(env, c, id)
      modifies this
      ensures View() == Run(old(View()), trace) && Inv(View())
      ensures user in disabled && forall x :: x in rows && rows[x].user == user ==> rows[x].revokedAt.Some?
      ensures env == [] ==>
                && disabled == old(disabled) + {user} && rows.Keys == old(rows).Keys
                && forall x :: x in rows ==> RevokedExactly(old(rows)[x], rows[x], OfUser(user), now, ByDisable)
    {
      disabled := disabled + {user};
      calls := calls[c := Other(Revoking(OfUser(user), ByDisable, Finished))];
      trace := Logged(old(View()), [], Disable(c, user));
      trace := EndSessions(old(View()), trace, c, user, now, id, env);
    }

    /** The second statement of executeDisableUser. */
    method EndSessions(ghost s0: State, trace: seq<Event>, c: CallId, user: UserId, now: Time, id: TokenId,
                       env: seq<Event>)
      returns (grown: seq<Event>)
      requires Inv(s0) && View() == Run(s0, trace) && Inv(View()) && AllForeign(env, c, id)
      requires c in calls && calls[c] == Other(Revoking(OfUser(user), ByDisable, Finished))
      modifies this
      ensures View() == Run(s0, grown) && Inv(View()) && old(disabled) <= disabled
      ensures forall x :: x in rows && rows[x].user == user ==> rows[x].revokedAt.Some?
      ensures env == [] ==>
                && disabled == old(disabled) && rows.Keys == old(rows).Keys
                && forall x :: x in rows ==> RevokedExactly(old(rows)[x], rows[x], OfUser(user), now, ByDisable)
    {
      grown := Interleave(s0, trace, c, id, env);
      RevokeMany(c, now);
      grown := Logged(s0, grown, Revoke(c, now));
    }

    /** revokeAllForUser, and the second half of the changePassword transaction. */
    method RevokeAllForUser(user: UserId, now: Time, reason: Reason)
      requires Inv(View())
      modifies this`rows
      ensures View() == Step(old(View()), RevokeUser(user, now, reason)) && Inv(View())
      ensures forall x :: x in rows && rows[x].user == user ==> rows[x].revokedAt.Some?
      ensures rows.Keys == old(rows).Keys
      ensures forall x :: x in rows ==> RevokedExactly(old(rows)[x], rows[x], OfUser(user), now, reason)
    {
      StepKeeps(View(), RevokeUser(user, now, reason));
      rows := RevokeScope(rows, OfUser(user), now, reason);
    }

    /** From the row that was found to the answer of ReadAccount, or to the revocation a lost claim leads to. */
    method Rotate(ghost s0: State, trace: seq<Event>, c: CallId, secret: TokenId, id: TokenId, expiresAt: Time,
                  now: Time, env: seq<seq<Event>>)
      returns (grown: seq<Event>)
      requires Inv(s0) && View() == Run(s0, trace) && Inv(View())
      requires RotationAt(View(), c) && calls[c].presented == secret && calls[c].pc.Issuing? && id !in rows
      requires |env| == 4 && forall es :: es in env ==> AllForeign(es, c, id)
      modifies this
      ensures View() == Run(s0, grown) && Inv(View())
      ensures RotationAt(View(), c) && calls[c].presented == secret
      ensures calls[c].pc == Done(Success(id))
           || (calls[c].pc.Revoking? && (calls[c].pc.answer.Reused? || calls[c].pc.answer.AccountDisabled?))
      ensures old(calls[c].pc.existing.user) in old(disabled) ==> calls[c].pc.Revoking?
      ensures var e := old(calls[c].pc.existing);
              Alone(env) && secret in old(rows) && old(rows)[secret] == e && e.revokedAt.None? ==>
                && calls[c].pc == CheckedPc(e, id, old(disabled))
                && Rotated(old(rows), rows, secret, id, expiresAt, now)
    {
      AloneAt(env);
      ghost var before := rows;
      grown := Interleave(s0, trace, c, id, env[0]);
      CreateNext(c, id, expiresAt);
      grown := Logged(s0, grown, Issue(c, id, expiresAt));
      grown := Interleave(s0, grown, c, id, env[1]);
      ghost var issued := rows;
      grown := SettleClaim(s0, grown, c, secret, id, now, env[2]);
      if Alone(env) && secret in before && before[secret].revokedAt.None?
         && before[secret] == old(calls[c].pc.existing) {
        RotatedSo(before, issued, rows, secret, id, expiresAt, now);
      }
    }

    method SettleClaim(ghost s0: State, trace: seq<Event>, c: CallId, secret: TokenId, id: TokenId, now: Time,
                       env: seq<Event>)
      returns (grown: seq<Event>)
      requires Inv(s0) && View() == Run(s0, trace) && Inv(View())
      requires CanClaim(View(), c) && calls[c].presented == secret && calls[c].pc.next == id && AllForeign(env, c, id)
      modifies this
      ensures View() == Run(s0, grown) && Inv(View())
      ensures RotationAt(View(), c) && calls[c].presented == secret
      ensures calls[c].pc == Done(Success(id))
           || (calls[c].pc.Revoking? && (calls[c].pc.answer.Reused? || calls[c].pc.answer.AccountDisabled?))
      ensures old(calls[c].pc.existing.user) in old(disabled) ==> calls[c].pc.Revoking?
      ensures env == [] && secret in old(rows) && old(rows)[secret].revokedAt.None? ==>
                && calls[c].pc == CheckedPc(old(calls[c].pc.existing), id, old(disabled))
                && rows == old(rows)[secret := old(rows)[secret].(revokedAt := Some(now), reason := Some(ByRotation),
                                                                  replacedBy := Some(id))]
    {
      var won := ClaimPresented(c, now);
      grown := Logged(s0, trace, Claim(c, now));
      if won {
        grown := Interleave(s0, grown, c, id, env);
        ReadAccount(c);
        grown := Logged(s0, grown, CheckAccount(c));
      }
    }

    method Burn(ghost s0: State, trace: seq<Event>, c: CallId, id: TokenId, now: Time, env: seq<Event>)
      returns (grown: seq<Event>)
      requires Inv(s0) && View() == Run(s0, trace) && Inv(View())
      requires RotationAt(View(), c) && calls[c].pc.Revoking? && AllForeign(env, c, id)
      modifies this
      ensures View() == Run(s0, grown) && Inv(View())
      ensures c in calls && calls[c] == old(calls[c]).(pc := Done(old(calls[c]).pc.answer))
      ensures env == [] ==>
                && rows.Keys == old(rows).Keys
                && forall x :: x in rows ==>
                     RevokedExactly(old(rows)[x], rows[x], old(calls[c].pc.scope), now, old(calls[c].pc.reason))
    {
      grown := Interleave(s0, trace, c, id, env);
      RevokeMany(c, now);
      grown := Logged(s0, grown, Revoke(c, now));
    }

    /** The statement just executed joins the trace. */
    method Logged(ghost s0: State, trace: seq<Event>, e: Event) returns (grown: seq<Event>)
      requires Inv(s0) && View() == Step(Run(s0, trace), e)
      ensures grown == trace + [e] && View() == Run(s0, grown) && Inv(View())
    {
      Grows(s0, trace, [e]);
      grown := trace + [e];
    }

    /** Statements of other calls while call c waits; the trace so far grows by them. */
    method Interleave(ghost s0: State, trace: seq<Event>, c: CallId, id: TokenId, env: seq<Event>)
      returns (grown: seq<Event>)
      requires c in calls && AllForeign(env, c, id)
      requires Inv(s0) && View() == Run(s0, trace)
      modifies this
      ensures grown == trace + env && View() == Run(s0, grown) == Run(old(View()), env) && Inv(View())
      ensures c in calls && calls[c] == old(calls[c])
      ensures id !in old(rows) ==> id !in rows
      ensures old(disabled) <= disabled && (env == [] ==> View() == old(View()))
    {
      Grows(s0, trace, env);
      ForeignRun(View(), env, c, id);
      DisabledStay(View(), env);
      Others(env);
      grown := trace + env;
    }
  }

  lemma Grows(s0: State, trace: seq<Event>, es: seq<Event>)
    requires Inv(s0)
    ensures Run(s0, trace + es) == Run(Run(s0, trace), es)
    ensures Inv(Run(s0, trace)) && Inv(Run(s0, trace + es))
    ensures |es| == 1 ==> Run(s0, trace + es) == Step(Run(s0, trace), es[0])
  {
    RunSplits(s0, trace, es);
    RunKeeps(s0, trace);
    RunKeeps(s0, trace + es);
    if |es| == 1 { assert es == [es[0]] && es[1..] == []; }
  }

  lemma NewFamilyIsEmpty(s: State, fam: FamilyId)
    requires Inv(s) && fam !in s.families
    ensures ReleasedOf(s, fam) == {}
  {
    forall x | x in s.rows ensures s.rows[x].family != fam { assert RowInv(s, x); }
  }

  lemma ForeignRows(s: State, es: seq<Event>, id: TokenId)
    requires id in s.rows
    ensures id in Run(s, es).rows && Run(s, es).rows[id].family == s.rows[id].family
  {
    RowsStay(s, es, id);
  }

  lemma ScopeLeavesDead(s: State, c: CallId, now: Time, id: TokenId)
    requires Inv(s) && CanRevoke(s, c) && id in s.rows && InScope(s.rows[id], s.calls[c].pc.scope)
    ensures id in RevokeStep(s, c, now).rows && FamilyDead(RevokeStep(s, c, now), s.rows[id].family)
    ensures RevokeStep(s, c, now).rows[id].family == s.rows[id].family
  {
    var pc := s.calls[c].pc;
    ScopeKills(s, pc.scope, now, pc.reason, id);
    assert s.families[s.rows[id].family].root in ReleasedOf(RevokeStep(s, c, now), s.rows[id].family);
  }

  lemma AnswerMeans(s: State, c: CallId)
    requires Inv(s) && RotationAt(s, c) && s.calls[c].pc.Done?
    ensures var secret, answer := s.calls[c].presented, s.calls[c].pc.outcome;
            && (answer.Success? ==> answer.next in s.released && Link(s, secret, answer.next))
            && (answer.Reused? || answer.AccountDisabled? ==> secret in s.rows && FamilyDead(s, s.rows[secret].family))
  {
    assert CallInv(s, c);
    var secret := s.calls[c].presented;
    if secret in s.rows {
      assert RowInv(s, secret);
      DeadMeans(s, s.rows[secret].family);
    }
  }
}
