/** What every run of the refresh-token machine keeps. */
module RefreshTokenSafety {
  import opened Options
  import opened RefreshTokens

  ghost predicate Reachable(s: State) { exists es :: s == Run(EMPTY, es) }

  lemma ReachableInv(s: State)
    requires Reachable(s)
    ensures Inv(s)
  {
    var es :| s == Run(EMPTY, es);
    RunKeeps(EMPTY, es);
  }

  lemma ReachableRun(s: State, es: seq<Event>)
    requires Reachable(s)
    ensures Reachable(Run(s, es))
  {
    var fs :| s == Run(EMPTY, fs);
    RunSplits(EMPTY, fs, es);
  }

  /** No call is between two statements, and none was abandoned halfway. */
  predicate Quiet(s: State) { forall c :: c in s.calls ==> s.calls[c].pc.Done? }

  /** Tokens of f that a client may hold. */
  function ReleasedOf(s: State, f: FamilyId): set<TokenId> {
    set id | id in s.released && BelongsTo(s, id, f)
  }

  /** Every token of f that a client may hold is revoked. */
  predicate FamilyDead(s: State, f: FamilyId) {
    ReleasedOf(s, f) != {} && forall id :: id in ReleasedOf(s, f) ==> !Live(s, id)
  }

  ghost predicate AllRevoked(s: State, f: FamilyId) { forall id :: BelongsTo(s, id, f) ==> !Live(s, id) }

  lemma DeadMeans(s: State, f: FamilyId)
    requires Inv(s)
    ensures Dead(s, f) <==> FamilyDead(s, f)
  {
    if Dead(s, f) {
      assert FamilyInv(s, f);
      assert s.families[f].tip in ReleasedOf(s, f);
      forall id | id in ReleasedOf(s, f) ensures !Live(s, id) { assert RowInv(s, id); }
    }
    if FamilyDead(s, f) {
      var id :| id in ReleasedOf(s, f);
      assert RowInv(s, id) && FamilyInv(s, f);
      assert s.families[f].tip in ReleasedOf(s, f);
    }
  }

  // --- At most one usable token a family -----------------------------------------

  /**
   * Under every interleaving at most one token of a family that a client may hold is
   * unrevoked; once no call is in flight, at most one token of it is unrevoked at all.
   */
  lemma AtMostOneLiveToken(s: State, a: TokenId, b: TokenId)
    requires Reachable(s) && Live(s, a) && Live(s, b) && s.rows[a].family == s.rows[b].family
    requires Quiet(s) || (a in s.released && b in s.released)
    ensures a == b
    ensures a in s.released
  {
    ReachableInv(s);
    assert RowInv(s, a) && RowInv(s, b);
  }

  // --- The rotation chain ----------------------------------------------------------

  /** Follows replacedByTokenId k times. */
  function Follow(s: State, id: TokenId, k: nat): Option<TokenId>
    decreases k
  {
    if k == 0 then Some(id)
    else if id in s.rows && s.rows[id].replacedBy.Some? then Follow(s, s.rows[id].replacedBy.value, k - 1)
    else None
  }

  lemma {:induction false} FollowSplits(s: State, a: TokenId, k: nat, b: TokenId, n: TokenId)
    requires Follow(s, a, k) == Some(b) && Link(s, b, n)
    ensures Follow(s, a, k + 1) == Some(n)
    decreases k
  {
    if k > 0 { FollowSplits(s, s.rows[a].replacedBy.value, k - 1, b, n); }
  }

  /** Links stay in the family, lead to later tokens, and two tokens never share a successor. */
  lemma LinksAreInjective(s: State, p: TokenId, q: TokenId, n: TokenId)
    requires Reachable(s) && Link(s, p, n)
    ensures n in s.rows && s.rows[n].family == s.rows[p].family && !Live(s, p)
    ensures Link(s, q, n) ==> p == q
  {
    ReachableInv(s);
    assert RowInv(s, p);
    if q in s.rows { assert RowInv(s, q); }
  }

  lemma {:induction false} ChainIsAcyclic(s: State, id: TokenId, k: nat)
    requires Reachable(s) && k > 0
    ensures Follow(s, id, k) != Some(id)
  {
    ReachableInv(s);
    if Follow(s, id, k).Some? { FollowGoesForward(s, id, k); }
  }

  lemma {:induction false} FollowGoesForward(s: State, id: TokenId, k: nat)
    requires Inv(s) && k > 0 && Follow(s, id, k).Some?
    ensures id in s.rows && Follow(s, id, k).value in s.rows
    ensures s.births[id].index < s.births[Follow(s, id, k).value].index
    decreases k
  {
    var n := s.rows[id].replacedBy.value;
    assert RowInv(s, id);
    assert RowInv(s, n);
    if k > 1 { FollowGoesForward(s, n, k - 1); }
  }

  /** One chain: every token a client may hold is reached from the login token of its family. */
  lemma {:induction false} ChainIsLinear(s: State, id: TokenId) returns (k: nat)
    requires Reachable(s) && id in s.released
    ensures id in s.rows && s.rows[id].family in s.families
    ensures Follow(s, s.families[s.rows[id].family].root, k) == Some(id)
  {
    ReachableInv(s);
    k := ReachedFromRoot(s, id);
  }

  lemma {:induction false} ReachedFromRoot(s: State, id: TokenId) returns (k: nat)
    requires Inv(s) && id in s.released
    ensures s.rows[id].family in s.families
    ensures Follow(s, s.families[s.rows[id].family].root, k) == Some(id)
    decreases s.births[id].index
  {
    assert RowInv(s, id);
    match s.births[id]
    case ByLogin(_) => k := 0;
    case ByRotate(_, parent, _) =>
      k := ReachedFromRoot(s, parent);
      FollowSplits(s, s.families[s.rows[id].family].root, k, parent, id);
      k := k + 1;
  }

  // --- Family death -------------------------------------------------------------------

  /** A revocation statement kills every family that has a token in its scope. */
  lemma RevocationKills(s: State, e: Event, id: TokenId)
    requires Reachable(s) && id in s.rows
    requires (e.Revoke? && CanRevoke(s, e.call) && InScope(s.rows[id], s.calls[e.call].pc.scope))
          || (e.RevokeUser? && s.rows[id].user == e.user)
    ensures FamilyDead(Step(s, e), s.rows[id].family)
    ensures AllRevoked(Step(s, e), s.rows[id].family)
  {
    ReachableInv(s);
    if e.Revoke? {
      ScopeKills(s, s.calls[e.call].pc.scope, e.now, s.calls[e.call].pc.reason, id);
    } else {
      ScopeKills(s, OfUser(e.user), e.now, e.reason, id);
    }
    var s' := Step(s, e);
    var f := s.rows[id].family;
    forall x | BelongsTo(s', x, f) ensures !Live(s', x) { assert x in s.rows && s.rows[x].family == f; }
    assert s.families[f].root in ReleasedOf(s', f);
  }

  lemma ScopeKills(s: State, scope: Scope, now: Time, reason: Reason, id: TokenId)
    requires Inv(s) && id in s.rows && InScope(s.rows[id], scope)
    ensures s.rows[id].family in s.families
    ensures BelongsTo(s, s.families[s.rows[id].family].root, s.rows[id].family)
    ensures s.families[s.rows[id].family].root in s.released
    ensures forall x :: x in s.rows && s.rows[x].family == s.rows[id].family ==>
                          RevokeScope(s.rows, scope, now, reason)[x].revokedAt.Some?
  {
    assert RowInv(s, id) && FamilyInv(s, s.rows[id].family);
    forall x | x in s.rows && s.rows[x].family == s.rows[id].family
      ensures RevokeScope(s.rows, scope, now, reason)[x].revokedAt.Some?
    {
      assert RowInv(s, x);
    }
  }

  lemma StepKeepsDead(s: State, e: Event, f: FamilyId)
    requires Inv(s) && Dead(s, f)
    ensures Dead(Step(s, e), f)
    ensures ReleasedOf(Step(s, e), f) == ReleasedOf(s, f)
  {
    assert FamilyInv(s, f);
    var s' := Step(s, e);
    StepKeeps(s, e);
    if e.Claim? && CanClaim(s, e.call) && ClaimWins(s, e.call) {
      assert CallInv(s, e.call) && RowInv(s, s.calls[e.call].presented);
    }
    forall id ensures id in ReleasedOf(s', f) <==> id in ReleasedOf(s, f) {
      if e.Claim? && CanClaim(s, e.call) { assert CallInv(s, e.call); }
    }
  }

  lemma {:induction false} RunKeepsDead(s: State, es: seq<Event>, f: FamilyId)
    requires Inv(s) && Dead(s, f)
    ensures Inv(Run(s, es)) && Dead(Run(s, es), f)
    ensures ReleasedOf(Run(s, es), f) == ReleasedOf(s, f)
    decreases |es|
  {
    if es != [] {
      StepKeeps(s, es[0]);
      StepKeepsDead(s, es[0], f);
      RunKeepsDead(Step(s, es[0]), es[1..], f);
    }
  }

  /**
   * Once a family is dead, whatever the calls do later: it stays dead, no further token of
   * it ever reaches a client, no claim on it wins, and when all calls are over every token
   * of it is revoked - those of the winner and those issued after the revocation included.
   */
  lemma DeathIsPermanent(s: State, es: seq<Event>, f: FamilyId, c: CallId)
    requires Reachable(s) && FamilyDead(s, f)
    ensures FamilyDead(Run(s, es), f)
    ensures ReleasedOf(Run(s, es), f) == ReleasedOf(s, f)
    ensures CanClaim(Run(s, es), c) && Run(s, es).calls[c].pc.existing.family == f ==> !ClaimWins(Run(s, es), c)
    ensures Quiet(Run(s, es)) ==> AllRevoked(Run(s, es), f)
  {
    ReachableInv(s);
    DeadMeans(s, f);
    RunKeepsDead(s, es, f);
    var t := Run(s, es);
    DeadMeans(t, f);
    DeadFamilyFacts(t, f, c);
  }

  lemma DeadFamilyFacts(s: State, f: FamilyId, c: CallId)
    requires Inv(s) && Dead(s, f)
    ensures CanClaim(s, c) && s.calls[c].pc.existing.family == f ==> !ClaimWins(s, c)
    ensures Quiet(s) ==> AllRevoked(s, f)
  {
    if CanClaim(s, c) { assert CallInv(s, c) && RowInv(s, s.calls[c].presented); }
    if Quiet(s) {
      forall id | BelongsTo(s, id, f) ensures !Live(s, id) { assert RowInv(s, id); }
    }
  }

  // --- Presenting one secret twice ------------------------------------------------------

  /**
   * The loser of a race covers the winner: when a claim finds its token already rotated, the
   * winner's successor is a row by then, and the loser's revocation - whenever it runs - leaves
   * that successor revoked for good.
   */
  lemma LoserCoversWinner(s: State, c: CallId, now: Time, es: seq<Event>, later: Time, winner: TokenId, f: FamilyId)
    requires Reachable(s) && CanClaim(s, c) && Link(s, s.calls[c].presented, winner) && BelongsTo(s, winner, f)
    ensures !ClaimWins(s, c) && CanRevoke(ClaimStep(s, c, now), c)
    ensures var s1 := ClaimStep(s, c, now);
            var t := Run(s1, es);
            CanRevoke(t, c) && t.calls[c] == s1.calls[c] ==>
              var u := RevokeStep(t, c, later);
              winner in u.rows && !Live(u, winner) && FamilyDead(u, f)
  {
    LinksAreInjective(s, s.calls[c].presented, s.calls[c].presented, winner);
    var s1 := ClaimStep(s, c, now);
    var t := Run(s1, es);
    assert s1 == Step(s, Claim(c, now));
    if CanRevoke(t, c) && t.calls[c] == s1.calls[c] {
      LoserScope(s, c, now, winner);
      ReachableRun(s, [Claim(c, now)] + es);
      assert ([Claim(c, now)] + es)[1..] == es;
      RowsStay(s1, es, winner);
      RevokeCovers(t, c, later, winner, f);
    }
  }

  lemma RevokeCovers(t: State, c: CallId, later: Time, id: TokenId, f: FamilyId)
    requires Reachable(t) && CanRevoke(t, c) && BelongsTo(t, id, f) && InScope(t.rows[id], t.calls[c].pc.scope)
    ensures id in RevokeStep(t, c, later).rows && !Live(RevokeStep(t, c, later), id)
    ensures FamilyDead(RevokeStep(t, c, later), f)
  {
    RevocationKills(t, Revoke(c, later), id);
    assert BelongsTo(RevokeStep(t, c, later), id, f);
  }

  lemma LoserScope(s: State, c: CallId, now: Time, winner: TokenId)
    requires Reachable(s) && CanClaim(s, c) && Link(s, s.calls[c].presented, winner)
    ensures !ClaimWins(s, c)
    ensures winner in s.rows && InScope(s.rows[winner], ClaimStep(s, c, now).calls[c].pc.scope)
  {
    ReachableInv(s);
    assert CallInv(s, c) && RowInv(s, s.calls[c].presented);
  }

  lemma {:induction false} RowsStay(s: State, es: seq<Event>, id: TokenId)
    requires id in s.rows
    ensures id in Run(s, es).rows
    ensures Run(s, es).rows[id].family == s.rows[id].family && Run(s, es).rows[id].user == s.rows[id].user
    decreases |es|
  {
    if es != [] { RowsStay(Step(s, es[0]), es[1..], id); }
  }

  /**
   * A secret presented twice is burnt: if two rotations of the same token both ran to their end
   * and neither was refused as unknown or expired, at most one succeeded and the family is dead.
   */
  lemma DoublePresentationBurns(s: State, c: CallId, d: CallId, secret: TokenId)
    requires Reachable(s) && c != d && c in s.calls && d in s.calls
    requires s.calls[c].Rotation? && s.calls[c].presented == secret && s.calls[c].pc.Done?
    requires s.calls[d].Rotation? && s.calls[d].presented == secret && s.calls[d].pc.Done?
    requires !s.calls[c].pc.outcome.Invalid? && !s.calls[c].pc.outcome.Expired?
    requires !s.calls[d].pc.outcome.Invalid? && !s.calls[d].pc.outcome.Expired?
    ensures !(s.calls[c].pc.outcome.Success? && s.calls[d].pc.outcome.Success?)
    ensures secret in s.rows && FamilyDead(s, s.rows[secret].family)
    ensures Quiet(s) ==> AllRevoked(s, s.rows[secret].family)
  {
    ReachableInv(s);
    assert CallInv(s, c) && CallInv(s, d);
    DeadMeans(s, s.rows[secret].family);
    DeathIsPermanent(s, [], s.rows[secret].family, c);
  }
}
