/** What every run of the email-code machine keeps. */
module EmailCodeSafety {
  import opened Options
  import opened EmailCodes

  ghost predicate Reachable(s: State) { exists es :: s == Run(EMPTY, es) }

  lemma ReachableInv(s: State)
    requires Reachable(s)
    ensures Inv(s)
  {
    var es :| s == Run(EMPTY, es);
    RunKeeps(EMPTY, es);
  }

  lemma ReachableRun(s: State, es: seq<Event>)
    requires Reachable(s)
    ensures Reachable(Run(s, es))
  {
    var fs :| s == Run(EMPTY, fs);
    RunSplits(EMPTY, fs, es);
  }

  lemma ReachableStep(s: State, e: Event)
    requires Reachable(s)
    ensures Reachable(Step(s, e))
  {
    assert [e][1..] == [];
    assert Run(s, [e]) == Run(Step(s, e), []);
    ReachableRun(s, [e]);
  }

  // --- Claims --------------------------------------------------------------------------

  /**
   * A code has at most one outstanding claim, and at most one protected handler over the whole
   * run ends in anything but a 4xx: two calls that consumed the same code and did not give it
   * back are the same call.
   */
  lemma OneClaimPerCode(s: State, c: CallId, d: CallId, id: CodeId)
    requires Reachable(s) && Keeps(s, c, id) && Keeps(s, d, id)
    ensures c == d
    ensures id in s.codes ==> s.codes[id].consumedAt.Some?
  {
    ReachableInv(s);
    assert CallInv(s, c) && CallInv(s, d);
    if id in s.codes { assert CodeInv(s, id); }
  }

  /** An answered call stays answered, so the uniqueness above is over the whole run. */
  lemma {:induction false} AnswersStay(s: State, es: seq<Event>, c: CallId)
    requires c in s.calls && s.calls[c].Done?
    ensures c in Run(s, es).calls && Run(s, es).calls[c] == s.calls[c]
    decreases |es|
  {
    if es != [] { AnswersStay(Step(s, es[0]), es[1..], c); }
  }

  /** After a handler has succeeded or failed with a 5xx, no claim on its code ever wins again. */
  lemma ConsumedForGood(s: State, c: CallId, id: CodeId, es: seq<Event>, d: CallId, now: Time)
    requires Reachable(s) && c in s.calls && s.calls[c].Done? && Keeps(s, c, id)
    ensures CanClaim(Run(s, es), d) && Run(s, es).calls[d].code == id ==> !ClaimWins(Run(s, es), d, now)
  {
    var t := Run(s, es);
    ReachableRun(s, es);
    ReachableInv(t);
    AnswersStay(s, es, c);
    assert CallInv(t, c);
    if id in t.codes { assert CodeInv(t, id); }
  }

  /** A consumed login or email-change code stays consumed. */
  lemma {:induction false} StaysConsumed(s: State, es: seq<Event>, id: CodeId)
    requires Inv(s) && id in s.codes && s.codes[id].consumedAt.Some? && !s.codes[id].kind.purpose.ForAction?
    ensures id in Run(s, es).codes ==> Run(s, es).codes[id].consumedAt == s.codes[id].consumedAt
    decreases |es|
  {
    if es != [] {
      var t := Step(s, es[0]);
      StepKeeps(s, es[0]);
      StepConsumed(s, es[0], id);
      if id in t.codes { StaysConsumed(t, es[1..], id); } else { GoneForGood(t, es[1..], id); }
    }
  }

  lemma StepConsumed(s: State, e: Event, id: CodeId)
    requires Inv(s) && id in s.codes && s.codes[id].consumedAt.Some? && !s.codes[id].kind.purpose.ForAction?
    ensures id in Step(s, e).used
    ensures id in Step(s, e).codes ==>
              Step(s, e).codes[id].consumedAt == s.codes[id].consumedAt && Step(s, e).codes[id].kind == s.codes[id].kind
  {
    if e.Release? && CanRelease(s, e.call) { assert CallInv(s, e.call); }
  }

  /**
   * Login and email-change codes work once: after a won claim no claim on the code wins again, whatever the handler's
   * end.
   */
  lemma LoginCodesWorkOnce(s: State, c: CallId, now: Time, es: seq<Event>, d: CallId, later: Time)
    requires Reachable(s) && CanClaim(s, c) && ClaimWins(s, c, now) && !s.calls[c].stepUp
    ensures var t := Run(ClaimStep(s, c, now), es);
            CanClaim(t, d) && t.calls[d].code == s.calls[c].code ==> !ClaimWins(t, d, later)
  {
    ReachableInv(s);
    assert CallInv(s, c);
    ClaimKeeps(s, c, now);
    StaysConsumed(ClaimStep(s, c, now), es, s.calls[c].code);
  }

  /** `release` undoes exactly the claim of its own call and changes no other code. */
  lemma ReleaseUndoesItsOwnClaim(s: State, c: CallId)
    requires Reachable(s) && CanRelease(s, c)
    ensures var id, at := s.calls[c].code, s.calls[c].at;
            ReleaseStep(s, c).codes ==
            if id in s.codes then s.codes[id := s.codes[id].(consumedAt := None)] else s.codes
    ensures s.calls[c].code in s.codes ==> s.codes[s.calls[c].code].consumedAt == Some(s.calls[c].at)
    ensures forall d :: !Keeps(ReleaseStep(s, c), d, s.calls[c].code)
  {
    ReachableInv(s);
    assert CallInv(s, c);
    forall d ensures !Keeps(ReleaseStep(s, c), d, s.calls[c].code) {
      if d in s.calls { assert CallInv(s, d); }
    }
  }

  // --- Which code a call may claim -----------------------------------------------------------

  /** Issued for the purpose, the user if one is given and, for a step-up, the action and resource of the input. */
  predicate IssuedFor(code: Code, input: Input) {
    && code.kind.purpose == input.purpose
    && (input.user.Some? ==> input.user.value == code.kind.user)
    && (input.purpose == ForAction ==> code.kind.action == input.action && code.resource == input.resource)
  }

  /** The call holds a claim, is about to make one or has answered with one. */
  predicate Claims(pc: Pc) {
    match pc
    case Claiming(_, _, _) => true
    case Handling(_, _, _) => true
    case Releasing(_, _) => true
    case Done(result) => result.Ended? || result.Rejected? || result.RejectedKept?
    case _ => false
  }

  /** Only a call that passed all checks when it read the code ever claims it. */
  lemma {:induction false} ClaimsBegin(s: State, es: seq<Event>, c: CallId, id: CodeId)
    requires c in s.calls && (Claims(s.calls[c]) ==> CodeOf(s.calls[c]) == id)
    ensures c in Run(s, es).calls
    ensures Claims(Run(s, es).calls[c]) ==> Claims(s.calls[c]) && CodeOf(Run(s, es).calls[c]) == id
    decreases |es|
  {
    if es != [] { ClaimsBegin(Step(s, es[0]), es[1..], c, id); }
  }

  function CodeOf(pc: Pc): CodeId
    requires Claims(pc)
  {
    if pc.Done? then pc.result.code else pc.code
  }

  /**
   * In every run, the code a call claims is the one it asked for, was issued for its purpose, user, action and
   * resource, and its guess was the secret.
   */
  lemma ClaimedCodeWasIssuedForIt(s: State, c: CallId, input: Input, now: Time, es: seq<Event>)
    requires c !in s.calls
    ensures var t := Run(Step(s, Load(c, input, now)), es);
            c in t.calls && (Claims(t.calls[c]) ==>
              && CodeOf(t.calls[c]) == input.id && input.id in s.codes && IssuedFor(s.codes[input.id], input)
              && input.guess == s.codes[input.id].secret && now < s.codes[input.id].expiresAt)
  {
    ClaimsBegin(Step(s, Load(c, input, now)), es, c, input.id);
  }

  /** What a newer code invalidates: the unused codes of the same user, purpose and action, and no other. */
  lemma SupersedesExactly(s: State, kind: Kind, now: Time, id: CodeId)
    requires id in s.codes
    ensures var code, t := s.codes[id], Step(s, Supersede(kind, now));
            && t.codes.Keys == s.codes.Keys
            && t.codes[id] ==
               if code.kind.user == kind.user && code.kind.purpose == kind.purpose && code.kind.action == kind.action
                  && code.consumedAt.None? && code.invalidatedAt.None?
               then code.(invalidatedAt := Some(now))
               else code
  {
  }

  // --- Attempts -------------------------------------------------------------------------

  /** Every wrong guess that was answered as counted is in `attempts`, once. */
  lemma NoGuessIsLost(s: State, id: CodeId)
    requires Reachable(s) && id in s.codes
    ensures s.codes[id].attempts == |CountedCalls(s, id)|
  {
    ReachableInv(s);
    assert CodeInv(s, id);
  }

  /** While the row exists its secret, limits and invalidation stay, and attempts only grow. */
  predicate Later(a: Code, b: Code) {
    && a.attempts <= b.attempts && a.maxAttempts == b.maxAttempts && a.secret == b.secret && a.expiresAt == b.expiresAt
    && a.kind == b.kind && (a.invalidatedAt.Some? ==> b.invalidatedAt.Some?)
  }

  lemma {:induction false} CodesGoForward(s: State, es: seq<Event>, id: CodeId)
    requires Inv(s) && id in s.codes
    ensures id in Run(s, es).codes ==> Later(s.codes[id], Run(s, es).codes[id])
    decreases |es|
  {
    if es != [] {
      var s' := Step(s, es[0]);
      StepKeeps(s, es[0]);
      StepForward(s, es[0], id);
      if id in s'.codes { CodesGoForward(s', es[1..], id); } else { GoneForGood(s', es[1..], id); }
    }
  }

  lemma StepForward(s: State, e: Event, id: CodeId)
    requires Inv(s) && id in s.codes
    ensures id in Step(s, e).codes ==> Later(s.codes[id], Step(s, e).codes[id])
    ensures id in Step(s, e).used
  {
    assert CodeInv(s, id);
  }

  lemma {:induction false} GoneForGood(s: State, es: seq<Event>, id: CodeId)
    requires id in s.used && id !in s.codes
    ensures id !in Run(s, es).codes
    decreases |es|
  {
    if es != [] { GoneForGood(Step(s, es[0]), es[1..], id); }
  }

  /** Claims only win while guesses are left: a locked code is locked for good. */
  lemma LockedForGood(s: State, id: CodeId, es: seq<Event>, c: CallId, now: Time)
    requires Reachable(s) && id in s.codes && s.codes[id].attempts >= s.codes[id].maxAttempts
    ensures CanClaim(Run(s, es), c) && Run(s, es).calls[c].code == id ==> !ClaimWins(Run(s, es), c, now)
  {
    var t := Run(s, es);
    ReachableInv(s);
    CodesGoForward(s, es, id);
    RunKeeps(s, es);
    if CanClaim(t, c) { assert CallInv(t, c); }
  }

  // --- The answer of the retry loop ---------------------------------------------------------

  predicate AnsweredLocked(pc: Pc, id: CodeId) {
    pc == Done(GaveUp(id)) || (pc.Done? && pc.result.Counted? && pc.result.code == id && pc.result.locked)
  }

  ghost predicate AnswersLocked(s: State, c: CallId, id: CodeId, max: nat) {
    && Reachable(s) && c in s.calls && AnsweredLocked(s.calls[c], id)
    && id in s.codes && s.codes[id].maxAttempts == max
  }

  /** Whoever is told "locked" by recordFailedAttempt about a code of this limit is told the truth. */
  ghost predicate LockAnswersTruthful(max: nat) {
    forall s, c, id :: AnswersLocked(s, c, id, max) ==> s.codes[id].attempts >= max
  }

  /**
   * Ten failed swaps mean ten counted guesses of others, so the answer after the loop is right
   * exactly for limits up to ten.
   */
  lemma LockAnswerIffTenAttempts(max: nat)
    ensures LockAnswersTruthful(max) <==> max <= RETRIES
  {
    if max <= RETRIES {
      forall s, c, id | AnswersLocked(s, c, id, max)
        ensures s.codes[id].attempts >= max
      {
        ReachableInv(s);
        assert CallInv(s, c);
      }
    } else {
      var s := GivenUp(max);
      assert AnswersLocked(s, 0, 0, max);
    }
  }

  const LOGIN_KIND := Kind(0, ForLogin, None)

  function WrongGuess(): Input { Input(0, 1, true, ForLogin, None, None, None) }

  function Guessed(max: nat, attempts: nat): Code { Code(LOGIN_KIND, None, 0, 100, max, attempts, None, None) }

  /** k other wrong guesses, each slipping in between a read and a swap of call 0. */
  lemma {:induction false} Outrun(max: nat, k: nat) returns (s: State)
    requires max > RETRIES > k
    ensures Reachable(s) && s.codes == map[0 := Guessed(max, k)]
    ensures 0 in s.calls && s.calls[0] == Swapping(0, k, k, max)
    ensures forall c :: c in s.calls ==> c <= k
    decreases k, 0
  {
    if k == 0 {
      var s0 := Step(EMPTY, Create(0, LOGIN_KIND, None, 0, 100, max));
      s := Step(s0, Load(0, WrongGuess(), 0));
      assert Run(EMPTY, []) == EMPTY;
      ReachableStep(EMPTY, Create(0, LOGIN_KIND, None, 0, 100, max));
      ReachableStep(s0, Load(0, WrongGuess(), 0));
    } else {
      var t := Overtaken(max, k - 1);
      s := Step(t, Reread(0));
      ReachableStep(t, Reread(0));
    }
  }

  /** Outrun(k), then one more guess counted and the swap of call 0 failing on it. */
  lemma {:induction false} Overtaken(max: nat, k: nat) returns (s: State)
    requires max > RETRIES > k
    ensures Reachable(s) && s.codes == map[0 := Guessed(max, k + 1)]
    ensures 0 in s.calls && s.calls[0] == if k + 1 < RETRIES then Rereading(0, k + 1) else Done(GaveUp(0))
    ensures forall c :: c in s.calls ==> c <= k + 1
    decreases k, 1
  {
    var s0 := Outrun(max, k);
    var s1 := Step(s0, Load(k + 1, WrongGuess(), 0));
    ReachableStep(s0, Load(k + 1, WrongGuess(), 0));
    assert s1.calls[k + 1] == Swapping(0, 0, k, max);
    var s2 := Step(s1, Swap(k + 1));
    ReachableStep(s1, Swap(k + 1));
    assert s2.codes == map[0 := Guessed(max, k + 1)];
    s := Step(s2, Swap(0));
    ReachableStep(s2, Swap(0));
  }

  lemma GivenUp(max: nat) returns (s: State)
    requires max > RETRIES
    ensures Reachable(s) && 0 in s.codes && s.codes[0].maxAttempts == max && s.codes[0].attempts == RETRIES
    ensures 0 in s.calls && s.calls[0] == Done(GaveUp(0))
  {
    s := Overtaken(max, RETRIES - 1);
  }

  // --- Supersession ----------------------------------------------------------------------------

  /** After a newer code of its kind was issued, some later run claims the older one. */
  ghost predicate ClaimedLater(s: State, id: CodeId, es: seq<Event>, c: CallId, now: Time) {
    CanClaim(Run(s, es), c) && Run(s, es).calls[c].code == id && ClaimWins(Run(s, es), c, now)
  }

  /** A step-up code, consumed by a call whose handler has not been answered yet. */
  predicate OutWithAHandler(s: State, id: CodeId)
    requires id in s.codes
  {
    && s.codes[id].consumedAt.Some? && s.codes[id].invalidatedAt.None? && s.codes[id].attempts < s.codes[id].maxAttempts
    && s.codes[id].kind.purpose.ForAction?
    && id in s.holder && s.holder[id] in s.calls && !s.calls[s.holder[id]].Done?
  }

  /**
   * "A newer code of the same kind supersedes it" holds of an older code exactly when it is not a step-up code
   * out with a handler: the update skips consumed codes, and the interceptor may give such a code back later.
   */
  lemma SupersededIffNotOut(s: State, id: CodeId, at: Time, spare: CallId)
    requires Reachable(s) && id in s.codes && spare !in s.calls
    ensures (exists es, c, now :: ClaimedLater(Step(s, Supersede(s.codes[id].kind, at)), id, es, c, now)) <==>
              OutWithAHandler(s, id)
  {
    ReachableInv(s);
    var s1 := Step(s, Supersede(s.codes[id].kind, at));
    if OutWithAHandler(s, id) {
      var es := Revival(s, id, at, spare);
      assert ClaimedLater(s1, id, es, spare, s.codes[id].expiresAt - 1);
    }
    forall es, c, now | ClaimedLater(s1, id, es, c, now) ensures OutWithAHandler(s, id) {
      ReachableStep(s, Supersede(s.codes[id].kind, at));
      RevivedOnlyIfOut(s, id, at, es, c, now);
    }
  }

  lemma RevivedOnlyIfOut(s: State, id: CodeId, at: Time, es: seq<Event>, c: CallId, now: Time)
    requires Inv(s) && Reachable(s) && id in s.codes
    requires ClaimedLater(Step(s, Supersede(s.codes[id].kind, at)), id, es, c, now)
    ensures OutWithAHandler(s, id)
  {
    var s1 := Step(s, Supersede(s.codes[id].kind, at));
    StepKeeps(s, Supersede(s.codes[id].kind, at));
    ReachableStep(s, Supersede(s.codes[id].kind, at));
    assert CodeInv(s, id) && CodeInv(s1, id);
    CodesGoForward(s1, es, id);
    RunKeeps(s1, es);
    assert CallInv(Run(s1, es), c);
    if id in s.holder && s.calls[s.holder[id]].Done? { ConsumedForGood(s1, s.holder[id], id, es, c, now); }
    if !s.codes[id].kind.purpose.ForAction? && s1.codes[id].consumedAt.Some? { StaysConsumed(s1, es, id); }
  }

  /** The handler answers 4xx, the code is given back, and the right guess claims it again. */
  lemma Revival(s: State, id: CodeId, at: Time, spare: CallId) returns (es: seq<Event>)
    requires Inv(s) && id in s.codes && spare !in s.calls && OutWithAHandler(s, id)
    ensures ClaimedLater(Step(s, Supersede(s.codes[id].kind, at)), id, es, spare, s.codes[id].expiresAt - 1)
  {
    var c := s.holder[id];
    assert CodeInv(s, id) && CallInv(s, c);
    var s1 := Step(s, Supersede(s.codes[id].kind, at));
    StepKeeps(s, Supersede(s.codes[id].kind, at));
    var s2 := Step(s1, Handle(c, ClientError));
    StepKeeps(s1, Handle(c, ClientError));
    var s3 := Step(s2, Release(c));
    GivenBack(s2, c);
    var code := s.codes[id];
    var input := Input(id, code.secret, true, code.kind.purpose, Some(code.kind.user), code.kind.action, code.resource);
    var s4 := Step(s3, Load(spare, input, code.expiresAt - 1));
    assert s4.calls[spare] == Claiming(id, code.maxAttempts, true);
    es := [Handle(c, ClientError), Release(c), Load(spare, input, code.expiresAt - 1)];
    assert es[1..] == [Release(c), Load(spare, input, code.expiresAt - 1)];
    assert es[1..][1..] == [Load(spare, input, code.expiresAt - 1)];
    assert Run(s1, es) == Run(s2, es[1..]) == Run(s3, es[1..][1..]) == Run(s4, []) == s4;
  }

  lemma GivenBack(s: State, c: CallId)
    requires Inv(s) && CanRelease(s, c) && s.calls[c].code in s.codes
    ensures Step(s, Release(c)).codes == s.codes[s.calls[c].code := s.codes[s.calls[c].code].(consumedAt := None)]
  {
    assert CallInv(s, c);
  }
}
