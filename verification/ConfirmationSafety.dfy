/** What every run of the confirmation machine keeps. */
module ConfirmationSafety {
  import opened Options
  import opened Confirmations

  ghost predicate Reachable(s: State) { exists es :: s == Run(EMPTY, es) }

  lemma ReachableInv(s: State)
    requires Reachable(s)
    ensures Inv(s)
  {
    var es :| s == Run(EMPTY, es);
    RunKeeps(EMPTY, es);
  }

  lemma ReachableRun(s: State, es: seq<Event>)
    requires Reachable(s)
    ensures Reachable(Run(s, es))
  {
    var fs :| s == Run(EMPTY, fs);
    RunSplits(EMPTY, fs, es);
  }

  lemma ReachableStep(s: State, e: Event)
    requires Reachable(s)
    ensures Reachable(Step(s, e))
  {
    assert [e][1..] == [];
    assert Run(s, [e]) == Run(Step(s, e), []);
    ReachableRun(s, [e]);
  }

  lemma ReachableSteps(s: State, e: Event, f: Event, g: Event)
    requires Reachable(s)
    ensures Reachable(Step(Step(Step(s, e), f), g))
  {
    ReachableStep(s, e);
    ReachableStep(Step(s, e), f);
    ReachableStep(Step(Step(s, e), f), g);
  }

  // --- The effect ------------------------------------------------------------------------

  /** The call has run the underlying action, successfully or not, or is about to. */
  predicate RunsEffect(s: State, c: CallId, id: ActionId) {
    c in s.calls
    && match s.calls[c]
       case Executing(x, _) => x == id
       case Downgrading(x, _) => x == id
       case Done(Executed(x)) => x == id
       case Done(ExecutionFailed(x)) => x == id
       case _ => false
  }

  /**
   * The effect of an action runs at most once over the whole run, and only for a call that gave the
   * right code and claimed the action before it expired - whatever reject and expiry overwrite.
   */
  lemma EffectRunsAtMostOnce(s: State, c: CallId, d: CallId, id: ActionId)
    requires Reachable(s) && RunsEffect(s, c, id) && RunsEffect(s, d, id)
    ensures c == d
    ensures id in s.rows && id in s.claims && s.claims[id].call == c
    ensures s.claims[id].guess == s.rows[id].secret && s.claims[id].at < s.rows[id].expiresAt
    ensures s.rows[id].status != Pending
  {
    ReachableInv(s);
    assert CallInv(s, c) && CallInv(s, d) && RowInv(s, id);
  }

  /** Answers and ids stay, so "at most once" is over the whole run; and the history entry is never rewritten. */
  lemma {:induction false} HistoryStays(s: State, es: seq<Event>, c: CallId, id: ActionId)
    requires Inv(s)
    ensures c in s.calls && s.calls[c].Done? ==> c in Run(s, es).calls && Run(s, es).calls[c] == s.calls[c]
    ensures id in s.claims ==> id in Run(s, es).claims && Run(s, es).claims[id] == s.claims[id]
    decreases |es|
  {
    if es != [] {
      StepKeeps(s, es[0]);
      ClaimsStay(s, es[0], c, id);
      HistoryStays(Step(s, es[0]), es[1..], c, id);
    }
  }

  lemma ClaimsStay(s: State, e: Event, c: CallId, id: ActionId)
    requires Inv(s)
    ensures c in s.calls && s.calls[c].Done? ==> c in Step(s, e).calls && Step(s, e).calls[c] == s.calls[c]
    ensures id in s.claims ==> id in Step(s, e).claims && Step(s, e).claims[id] == s.claims[id]
  {
    if e.TryClaim? && CanClaim(s, e.call) && ClaimWins(s, e.call, e.now) {
      assert RowInv(s, s.calls[e.call].id);
    }
  }

  /** A confirmed action was claimed with the right code, in time, by the director it names. */
  lemma ConfirmedWasClaimed(s: State, id: ActionId)
    requires Reachable(s) && id in s.rows && s.rows[id].status == Confirmed
    ensures id in s.claims && s.rows[id].confirmedBy == Some(s.claims[id].director)
    ensures s.claims[id].guess == s.rows[id].secret && s.claims[id].at < s.rows[id].expiresAt
  {
    ReachableInv(s);
    assert RowInv(s, id);
  }

  // --- Statuses ---------------------------------------------------------------------------

  /** Once resolved, an action is never pending again, its secret and limits never change, and no row disappears. */
  lemma {:induction false} PendingNeverReentered(s: State, es: seq<Event>, id: ActionId)
    requires id in s.rows
    ensures id in Run(s, es).rows
    ensures s.rows[id].status != Pending ==> Run(s, es).rows[id].status != Pending
    ensures Run(s, es).rows[id].secret == s.rows[id].secret && Run(s, es).rows[id].maxAttempts == s.rows[id].maxAttempts
    ensures Run(s, es).rows[id].expiresAt == s.rows[id].expiresAt
    decreases |es|
  {
    if es != [] {
      StepStatus(s, es[0], id);
      PendingNeverReentered(Step(s, es[0]), es[1..], id);
    }
  }

  lemma StepStatus(s: State, e: Event, id: ActionId)
    requires id in s.rows
    ensures id in Step(s, e).rows
    ensures s.rows[id].status != Pending ==> Step(s, e).rows[id].status != Pending
    ensures Step(s, e).rows[id].secret == s.rows[id].secret && Step(s, e).rows[id].maxAttempts == s.rows[id].maxAttempts
    ensures Step(s, e).rows[id].expiresAt == s.rows[id].expiresAt
  {
  }

  /** A pending action has a guess left, and every counted wrong guess is in `attempts`, once. */
  lemma PendingHasAGuessLeft(s: State, id: ActionId)
    requires Reachable(s) && id in s.rows
    ensures s.rows[id].attempts == |CountedCalls(s, id)|
    ensures s.rows[id].status == Pending && s.rows[id].maxAttempts > 0 ==> s.rows[id].attempts < s.rows[id].maxAttempts
  {
    ReachableInv(s);
    assert RowInv(s, id);
  }

  /** The downgrade after a failed execution can only touch the claim of its own call. */
  lemma DowngradeUndoesOwnClaim(s: State, c: CallId)
    requires Reachable(s) && CanDowngrade(s, c)
    ensures s.calls[c].id in s.claims && s.claims[s.calls[c].id].call == c
    ensures var id := s.calls[c].id;
            id in s.rows && DowngradeStep(s, c).rows ==
            if s.rows[id].status == Confirmed
              then s.rows[id := s.rows[id].(status := Failed, confirmedBy := None)] else s.rows
  {
    ReachableInv(s);
    assert CallInv(s, c) && RowInv(s, s.calls[c].id);
  }

  /** A call that looked at the action while it was pending may still overwrite its status by id. */
  predicate StaleWriter(s: State, c: CallId, id: ActionId)
    requires id in s.rows
  {
    c in s.calls
    && match s.calls[c]
       case Expiring(x) => x == id
       case Rejecting(x, _) => x == id
       case Listing(todo) => id in todo
       case _ => false
  }

  ghost predicate ConfirmedCanBeLost(s: State, id: ActionId)
    requires id in s.rows
  {
    exists e :: id in Step(s, e).rows && Step(s, e).rows[id].status !in {Confirmed, Failed}
  }

  /**
   * `confirmed` is not final by itself: apart from the downgrade of its own call it is overwritten
   * exactly when a reject, an expiry or a listing that saw the action pending is still on its way.
   */
  lemma ConfirmedIsLostIffStaleWriter(s: State, id: ActionId)
    requires Reachable(s) && id in s.rows && s.rows[id].status == Confirmed
    ensures ConfirmedCanBeLost(s, id) <==> exists c :: StaleWriter(s, c, id)
  {
    ReachableInv(s);
    if ConfirmedCanBeLost(s, id) {
      var e :| id in Step(s, e).rows && Step(s, e).rows[id].status !in {Confirmed, Failed};
      LostOnlyByStaleWriter(s, e, id);
    }
    var late := s.rows[id].expiresAt + 1;
    forall c | StaleWriter(s, c, id) ensures ConfirmedCanBeLost(s, id) {
      var e := match s.calls[c]
               case Expiring(_) => Expire(c)
               case Rejecting(_, _) => Reject(c)
               case _ => ListNext(c, id, late);
      assert id in Step(s, e).rows && Step(s, e).rows[id].status !in {Confirmed, Failed};
    }
  }

  lemma LostOnlyByStaleWriter(s: State, e: Event, id: ActionId)
    requires Inv(s) && id in s.rows && s.rows[id].status == Confirmed
    requires id in Step(s, e).rows && Step(s, e).rows[id].status !in {Confirmed, Failed}
    ensures !e.Create? && StaleWriter(s, e.call, id)
  {
    assert RowInv(s, id);
  }

  predicate NoStaleWriter(s: State, id: ActionId)
    requires id in s.rows
  {
    forall c :: c in s.calls ==> !StaleWriter(s, c, id)
  }

  /** Claimed, and neither overwritten nor to be: confirmed, or failed because its own call's execution did. */
  predicate KeptOrFailed(s: State, id: ActionId) {
    && id in s.rows && id in s.claims
    && (s.rows[id].status == Confirmed
        || (s.rows[id].status == Failed && s.claims[id].call in s.calls
            && s.calls[s.claims[id].call] == Done(ExecutionFailed(id))))
  }

  lemma KeptStep(s: State, e: Event, id: ActionId)
    requires Inv(s) && KeptOrFailed(s, id) && NoStaleWriter(s, id)
    ensures KeptOrFailed(Step(s, e), id) && NoStaleWriter(Step(s, e), id)
  {
    assert RowInv(s, id);
    if e.Downgrade? && CanDowngrade(s, e.call) { assert CallInv(s, e.call); }
  }

  /**
   * With no such writer on its way, a confirmed action stays confirmed in every later run, unless its own call's
   * execution fails and takes the confirmation back.
   */
  lemma {:induction false} ConfirmedStays(s: State, es: seq<Event>, id: ActionId)
    requires Inv(s) && KeptOrFailed(s, id) && NoStaleWriter(s, id)
    ensures KeptOrFailed(Run(s, es), id)
    decreases |es|
  {
    if es != [] {
      KeptStep(s, es[0], id);
      StepKeeps(s, es[0]);
      ConfirmedStays(Step(s, es[0]), es[1..], id);
    }
  }

  /** Such a run exists: an action executes and ends as `rejected`. */
  lemma ExecutedCanEndRejected() returns (s: State)
    ensures Reachable(s) && 0 in s.rows && s.rows[0].status == Rejected
    ensures RunsEffect(s, 1, 0) && s.calls[1] == Done(Executed(0))
  {
    var s3 := RejectRacesConfirm();
    var s4 := Step(s3, TryClaim(1, 0));
    assert s4.calls == map[2 := Rejecting(0, 9), 1 := Executing(0, 8)];
    var s5 := Step(s4, Execute(1, true));
    assert s5.calls == map[2 := Rejecting(0, 9), 1 := Done(Executed(0))];
    s := Step(s5, Reject(2));
    ReachableSteps(s3, TryClaim(1, 0), Execute(1, true), Reject(2));
  }

  /** A reject and a confirm that both saw the action pending. */
  lemma RejectRacesConfirm() returns (s: State)
    ensures Reachable(s) && s.rows == map[0 := Action(7, 100, 5, 0, Pending, None)]
    ensures s.calls == map[2 := Rejecting(0, 9), 1 := Claiming(0, 8, 7)]
  {
    assert Run(EMPTY, []) == EMPTY;
    var s1 := Step(EMPTY, Create(0, 7, 100, 5));
    ReachableStep(EMPTY, Create(0, 7, 100, 5));
    var s2 := Step(s1, LoadForReject(2, 0, 9, 0));
    ReachableStep(s1, LoadForReject(2, 0, 9, 0));
    s := Step(s2, LoadForConfirm(1, 0, 8, 7, 0));
    ReachableStep(s2, LoadForConfirm(1, 0, 8, 7, 0));
  }

  // --- The retry loop ----------------------------------------------------------------------

  ghost predicate ConcurrentUpdateReachable(max: nat) {
    exists s, c, id :: Reachable(s) && c in s.calls && s.calls[c] == Done(ConcurrentUpdate(id)) && id in s.rows
      && s.rows[id].maxAttempts == max
  }

  /**
   * Every failed swap on a pending action means another guess was counted, so CONFIRMATION_CONCURRENT_UPDATE
   * can be answered exactly for limits of ten and more.
   */
  lemma ConcurrentUpdateIffTenAttempts(max: nat)
    ensures ConcurrentUpdateReachable(max) <==> max >= RETRIES
  {
    if max >= RETRIES {
      var s := Overtaken(max, RETRIES - 1);
      assert s.calls[0] == Done(ConcurrentUpdate(0));
    }
    forall s, c, id | Reachable(s) && c in s.calls && s.calls[c] == Done(ConcurrentUpdate(id)) && id in s.rows
      && s.rows[id].maxAttempts == max
      ensures max >= RETRIES
    {
      ReachableInv(s);
      assert CallInv(s, c);
    }
  }

  /** And while the action is still pending at that moment, only for limits above ten. */
  lemma ConcurrentUpdateOnPending(s: State, c: CallId)
    requires Reachable(s) && CanSwap(s, c) && SwapStep(s, c).calls[c] == Done(ConcurrentUpdate(s.calls[c].id))
    ensures s.calls[c].id in s.rows
    ensures s.rows[s.calls[c].id].status == Pending ==> s.rows[s.calls[c].id].maxAttempts > RETRIES
  {
    ReachableInv(s);
    assert CallInv(s, c) && RowInv(s, s.calls[c].id);
  }

  function Guessed(max: nat, attempts: nat): Action {
    Action(0, 100, max, attempts, if attempts < max then Pending else Failed, None)
  }

  /** k other wrong guesses, each slipping in between a read and a swap of call 0. */
  lemma {:induction false} Outrun(max: nat, k: nat) returns (s: State)
    requires max >= RETRIES > k
    ensures Reachable(s) && s.rows == map[0 := Guessed(max, k)]
    ensures 0 in s.calls && s.calls[0] == Swapping(0, k, k, max)
    ensures forall c :: c in s.calls ==> c <= k
    decreases k, 0
  {
    if k == 0 {
      assert Run(EMPTY, []) == EMPTY;
      var s0 := Step(EMPTY, Create(0, 0, 100, max));
      ReachableStep(EMPTY, Create(0, 0, 100, max));
      var s1 := Step(s0, LoadForConfirm(0, 0, 0, 1, 0));
      ReachableStep(s0, LoadForConfirm(0, 0, 0, 1, 0));
      s := Step(s1, Read(0));
      ReachableStep(s1, Read(0));
    } else {
      var t := Overtaken(max, k - 1);
      s := Step(t, Read(0));
      ReachableStep(t, Read(0));
    }
  }

  /** Outrun(k), then one more guess counted and the swap of call 0 failing on it. */
  lemma {:induction false} Overtaken(max: nat, k: nat) returns (s: State)
    requires max >= RETRIES > k
    ensures Reachable(s) && s.rows == map[0 := Guessed(max, k + 1)]
    ensures 0 in s.calls && s.calls[0] == if k + 1 < RETRIES then Reading(0, k + 1) else Done(ConcurrentUpdate(0))
    ensures forall c :: c in s.calls ==> c <= k + 1
    decreases k, 1
  {
    var s0 := Outrun(max, k);
    var s3 := Slipped(s0, max, k);
    s := Step(s3, Swap(0));
    ReachableStep(s3, Swap(0));
  }

  /** Call k + 1 guesses wrong and is counted. */
  lemma Slipped(s0: State, max: nat, k: nat) returns (s: State)
    requires max > k && Reachable(s0) && s0.rows == map[0 := Guessed(max, k)] && k + 1 !in s0.calls
    ensures Reachable(s) && s.rows == map[0 := Guessed(max, k + 1)]
    ensures s.calls == s0.calls[k + 1 := Done(WrongCode(0, k + 1, k + 1 >= max))]
  {
    var s1 := Step(s0, LoadForConfirm(k + 1, 0, 0, 1, 0));
    assert s1 == SetPc(s0, k + 1, Reading(0, 0));
    var s2 := Step(s1, Read(k + 1));
    assert s2 == SetPc(s1, k + 1, Swapping(0, 0, k, max));
    s := Step(s2, Swap(k + 1));
    ReachableSteps(s0, LoadForConfirm(k + 1, 0, 0, 1, 0), Read(k + 1), Swap(k + 1));
  }
}
