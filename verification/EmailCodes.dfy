/**
 * One-time email codes as a state machine over single statements: the calls of
 * `consume`, those for step-up codes inside the interceptor (src/email-codes/email-codes.service.ts,
 * src/email-codes/email-code.interceptor.ts) and, as free-standing statements, the
 * writes of `issue`. Hashes are injective, so a guess is right when it equals the
 * secret; guesses arrive already trimmed and upper-cased.
 */
module EmailCodes {
  import opened Options

  type CodeId = nat
  type CallId = nat
  type Time = int

  datatype Purpose = ForLogin | ForAction | ForEmailChange

  /** What a newer code supersedes: same user, purpose and action. */
  datatype Kind = Kind(user: nat, purpose: Purpose, action: Option<nat>)

  datatype Code = Code(
    kind: Kind,
    resource: Option<nat>,
    secret: nat,
    expiresAt: Time,
    maxAttempts: nat,
    attempts: nat,
    consumedAt: Option<Time>,
    invalidatedAt: Option<Time>)

  /** ConsumeInput; `wellFormed` is the uuid and length check made before any statement. */
  datatype Input = Input(
    id: CodeId,
    guess: nat,
    wellFormed: bool,
    purpose: Purpose,
    user: Option<nat>,
    action: Option<nat>,
    resource: Option<nat>)

  datatype Refusal = Mismatch | Used | Expired | Locked

  datatype HandlerEnd = Success | ClientError | ServerError

  datatype Result =
    | Refused(why: Refusal)
    | Counted(code: CodeId, nth: nat, locked: bool)   // the wrong guess was counted as the nth
    | GaveUp(code: CodeId)                             // ten failed swaps: answered as locked
    | Vanished                                         // the row is gone: answered as locked
    | Rejected(code: CodeId)                           // 4xx, the code was given back
    | RejectedKept(code: CodeId)                       // 4xx, but the give-back threw
    | Ended(code: CodeId, end: HandlerEnd)             // the handler is over and the code stays consumed

  datatype Pc =
    | Claiming(code: CodeId, max: nat, stepUp: bool)    // consumed by the interceptor, for an action?
    | Swapping(code: CodeId, retry: nat, seen: nat, max: nat)
    | Rereading(code: CodeId, retry: nat)
    | Handling(code: CodeId, at: Time, stepUp: bool)
    | Releasing(code: CodeId, at: Time)
    | Done(result: Result)

  /** `used` are the ids ever issued; `holder` is history: whose claim consumed the code. */
  datatype State = State(
    codes: map<CodeId, Code>,
    calls: map<CallId, Pc>,
    used: set<CodeId>,
    holder: map<CodeId, CallId>)

  const EMPTY := State(map[], map[], {}, map[])

  datatype Event =
    | Supersede(kind: Kind, now: Time)
    | Create(id: CodeId, kind: Kind, resource: Option<nat>, secret: nat, expiresAt: Time, maxAttempts: nat)
    | Delete(id: CodeId)
    | Load(call: CallId, input: Input, now: Time)
    | Claim(call: CallId, now: Time)
    | Swap(call: CallId)
    | Reread(call: CallId)
    | Handle(call: CallId, end: HandlerEnd)
    | Release(call: CallId)
    | ReleaseThrows(call: CallId)

  const RETRIES := 10

  predicate Matches(code: Code, input: Input) {
    && code.kind.purpose == input.purpose
    && (input.user.Some? ==> code.kind.user == input.user.value)
    && (input.purpose.ForAction? ==> code.kind.action == input.action && code.resource == input.resource)
  }

  /** The checks of `consume` on the row it read. */
  function AfterLoad(codes: map<CodeId, Code>, input: Input, now: Time): Pc {
    if !input.wellFormed || input.id !in codes || !Matches(codes[input.id], input) then Done(Refused(Mismatch))
    else
      var code := codes[input.id];
      if code.consumedAt.Some? || code.invalidatedAt.Some? then Done(Refused(Used))
      else if code.expiresAt <= now then Done(Refused(Expired))
      else if code.attempts >= code.maxAttempts then Done(Refused(Locked))
      else if input.guess != code.secret then Swapping(input.id, 0, code.attempts, code.maxAttempts)
      else Claiming(input.id, code.maxAttempts, input.purpose.ForAction?)
  }

  /** The `where` of the claim. */
  predicate Claimable(codes: map<CodeId, Code>, id: CodeId, max: nat, now: Time) {
    && id in codes
    && codes[id].consumedAt.None? && codes[id].invalidatedAt.None?
    && now < codes[id].expiresAt && codes[id].attempts < max
  }

  function SupersedeKind(codes: map<CodeId, Code>, kind: Kind, now: Time): map<CodeId, Code> {
    map id | id in codes ::
      if codes[id].kind == kind && codes[id].consumedAt.None? && codes[id].invalidatedAt.None?
      then codes[id].(invalidatedAt := Some(now))
      else codes[id]
  }

  function SetPc(s: State, c: CallId, pc: Pc): State { s.(calls := s.calls[c := pc]) }

  predicate CanClaim(s: State, c: CallId) { c in s.calls && s.calls[c].Claiming? }

  predicate ClaimWins(s: State, c: CallId, now: Time)
    requires CanClaim(s, c)
  {
    Claimable(s.codes, s.calls[c].code, s.calls[c].max, now)
  }

  function ClaimStep(s: State, c: CallId, now: Time): State
    requires CanClaim(s, c)
  {
    var id := s.calls[c].code;
    if ClaimWins(s, c, now) then
      SetPc(s.(codes := s.codes[id := s.codes[id].(consumedAt := Some(now))], holder := s.holder[id := c]),
            c, Handling(id, now, s.calls[c].stepUp))
    else SetPc(s, c, Done(Refused(Used)))
  }

  predicate CanSwap(s: State, c: CallId) { c in s.calls && s.calls[c].Swapping? }

  predicate SwapWins(s: State, c: CallId)
    requires CanSwap(s, c)
  {
    s.calls[c].code in s.codes && s.codes[s.calls[c].code].attempts == s.calls[c].seen
  }

  /** One compare-and-swap on `attempts`; the tenth failure ends the loop. */
  function SwapStep(s: State, c: CallId): State
    requires CanSwap(s, c)
  {
    var pc := s.calls[c];
    if SwapWins(s, c) then
      SetPc(s.(codes := s.codes[pc.code := s.codes[pc.code].(attempts := pc.seen + 1)]),
            c, Done(Counted(pc.code, pc.seen + 1, pc.seen + 1 >= pc.max)))
    else if pc.retry + 1 < RETRIES then SetPc(s, c, Rereading(pc.code, pc.retry + 1))
    else SetPc(s, c, Done(GaveUp(pc.code)))
  }

  predicate CanReread(s: State, c: CallId) { c in s.calls && s.calls[c].Rereading? }

  function RereadStep(s: State, c: CallId): State
    requires CanReread(s, c)
  {
    var pc := s.calls[c];
    SetPc(s, c, if pc.code in s.codes
                then Swapping(pc.code, pc.retry, s.codes[pc.code].attempts, s.codes[pc.code].maxAttempts)
                else Done(Vanished))
  }

  predicate CanHandle(s: State, c: CallId) { c in s.calls && s.calls[c].Handling? }

  /** Only the interceptor gives a code back, after a 4xx; a login or an email change never does. */
  function HandleStep(s: State, c: CallId, end: HandlerEnd): State
    requires CanHandle(s, c)
  {
    var pc := s.calls[c];
    SetPc(s, c, if end.ClientError? && pc.stepUp then Releasing(pc.code, pc.at) else Done(Ended(pc.code, end)))
  }

  predicate CanRelease(s: State, c: CallId) { c in s.calls && s.calls[c].Releasing? }

  /** updateMany where id and consumedAt equals the time of this claim. */
  function ReleaseStep(s: State, c: CallId): State
    requires CanRelease(s, c)
  {
    var pc := s.calls[c];
    SetPc(s.(codes := if pc.code in s.codes && s.codes[pc.code].consumedAt == Some(pc.at)
                      then s.codes[pc.code := s.codes[pc.code].(consumedAt := None)] else s.codes,
             holder := s.holder - {pc.code}),
          c, Done(Rejected(pc.code)))
  }

  function Step(s: State, e: Event): State {
    match e
    case Supersede(kind, now) => s.(codes := SupersedeKind(s.codes, kind, now))
    case Create(id, kind, resource, secret, expiresAt, max) =>
      if id in s.used then s
      else s.(codes := s.codes[id := Code(kind, resource, secret, expiresAt, max, 0, None, None)],
        used := s.used + {id})
    case Delete(id) => s.(codes := s.codes - {id})
    case Load(c, input, now) => if c in s.calls then s else SetPc(s, c, AfterLoad(s.codes, input, now))
    case Claim(c, now) => if CanClaim(s, c) then ClaimStep(s, c, now) else s
    case Swap(c) => if CanSwap(s, c) then SwapStep(s, c) else s
    case Reread(c) => if CanReread(s, c) then RereadStep(s, c) else s
    case Handle(c, end) => if CanHandle(s, c) then HandleStep(s, c, end) else s
    case Release(c) => if CanRelease(s, c) then ReleaseStep(s, c) else s
    case ReleaseThrows(c) => if CanRelease(s, c) then SetPc(s, c, Done(RejectedKept(s.calls[c].code))) else s
  }

  function Run(s: State, es: seq<Event>): State
    decreases |es|
  {
    if es == [] then s else Run(Step(s, es[0]), es[1..])
  }

  // --- The invariant -----------------------------------------------------------------

  /** Calls whose wrong guess was counted against the code. */
  function CountedCalls(s: State, id: CodeId): set<CallId> {
    set c | c in s.calls && s.calls[c].Done? && s.calls[c].result.Counted? && s.calls[c].result.code == id
  }

  predicate Holds(s: State, c: CallId, id: CodeId) { id in s.holder && s.holder[id] == c }

  predicate ConsumedAt(s: State, id: CodeId, at: Time) { id in s.codes ==> s.codes[id].consumedAt == Some(at) }

  /** c's claim consumed the code and has not been given back. */
  predicate Keeps(s: State, c: CallId, id: CodeId) {
    c in s.calls
    && match s.calls[c]
       case Handling(code, _, _) => code == id
       case Releasing(code, _) => code == id
       case Done(Ended(code, _)) => code == id
       case Done(RejectedKept(code)) => code == id
       case _ => false
  }

  predicate CodeInv(s: State, id: CodeId)
    requires id in s.codes
  {
    && id in s.used
    && (s.codes[id].consumedAt.Some? <==> id in s.holder)
    && (id in s.holder ==> Keeps(s, s.holder[id], id))
    && |CountedCalls(s, id)| == s.codes[id].attempts
  }

  predicate ForPurpose(s: State, id: CodeId, stepUp: bool) {
    id in s.codes ==> (s.codes[id].kind.purpose.ForAction? <==> stepUp)
  }

  predicate CallInv(s: State, c: CallId)
    requires c in s.calls
  {
    match s.calls[c]
    case Claiming(id, max, stepUp) =>
      id in s.used && ForPurpose(s, id, stepUp) && (id in s.codes ==> s.codes[id].maxAttempts == max)
    case Swapping(id, retry, seen, max) =>
      id in s.used && retry < RETRIES && retry <= seen && (id in s.codes ==>
        seen <= s.codes[id].attempts && s.codes[id].maxAttempts == max)
    case Rereading(id, retry) =>
      id in s.used && 0 < retry < RETRIES && (id in s.codes ==> retry <= s.codes[id].attempts)
    case Handling(id, at, stepUp) =>
      id in s.used && ForPurpose(s, id, stepUp) && Holds(s, c, id) && ConsumedAt(s, id, at)
    case Releasing(id, at) => id in s.used && ForPurpose(s, id, true) && Holds(s, c, id) && ConsumedAt(s, id, at)
    case Done(result) => ResultInv(s, c, result)
  }

  predicate ResultInv(s: State, c: CallId, result: Result) {
    match result
    case Counted(id, nth, locked) =>
      id in s.used && nth > 0 && (id in s.codes ==>
        nth <= s.codes[id].attempts && (locked <==> nth >= s.codes[id].maxAttempts))
    case GaveUp(id) => id in s.used && (id in s.codes ==> RETRIES <= s.codes[id].attempts)
    case RejectedKept(id) => id in s.used && Holds(s, c, id)
    case Ended(id, end) => id in s.used && Holds(s, c, id) && (end.ClientError? ==> ForPurpose(s, id, false))
    case _ => true
  }

  ghost predicate Inv(s: State) {
    && s.codes.Keys <= s.used
    && s.holder.Keys <= s.used
    && (forall id {:trigger CodeInv(s, id)} :: id in s.codes ==> CodeInv(s, id))
    && (forall c {:trigger CallInv(s, c)} :: c in s.calls ==> CallInv(s, c))
  }

  /** Nobody's wrong guess is counted against an id that was never issued. */
  lemma UnusedUncounted(s: State, id: CodeId)
    requires Inv(s) && id !in s.used
    ensures CountedCalls(s, id) == {}
  {
    forall c | c in s.calls ensures c !in CountedCalls(s, id) { assert CallInv(s, c); }
  }

  lemma SupersedeKeeps(s: State, kind: Kind, now: Time)
    requires Inv(s)
    ensures Inv(Step(s, Supersede(kind, now)))
  {
    var s' := Step(s, Supersede(kind, now));
    assert s'.codes.Keys == s.codes.Keys;
    forall id | id in s'.codes ensures CodeInv(s', id) {
      assert CodeInv(s, id);
      assert CountedCalls(s', id) == CountedCalls(s, id);
    }
    forall c | c in s'.calls ensures CallInv(s', c) { assert CallInv(s, c); }
  }

  lemma CreateKeeps(s: State, e: Event)
    requires Inv(s) && e.Create?
    ensures Inv(Step(s, e))
  {
    var s' := Step(s, e);
    if e.id !in s.used {
      UnusedUncounted(s, e.id);
      forall id | id in s'.codes ensures CodeInv(s', id) {
        assert CountedCalls(s', id) == CountedCalls(s, id);
        if id != e.id { assert CodeInv(s, id); }
      }
      forall c | c in s'.calls ensures CallInv(s', c) { assert CallInv(s, c); }
    }
  }

  lemma DeleteKeeps(s: State, id: CodeId)
    requires Inv(s)
    ensures Inv(Step(s, Delete(id)))
  {
    var s' := Step(s, Delete(id));
    forall x | x in s'.codes ensures CodeInv(s', x) {
      assert CodeInv(s, x);
      assert CountedCalls(s', x) == CountedCalls(s, x);
    }
    forall c | c in s'.calls ensures CallInv(s', c) { assert CallInv(s, c); }
  }

  /** A call moves on without a write, and not into or out of a counted guess. */
  lemma MoveKeeps(s: State, c: CallId, pc: Pc)
    requires Inv(s) && CallInv(s.(calls := s.calls[c := pc]), c)
    requires !(pc.Done? && pc.result.Counted?) && (c in s.calls ==> !s.calls[c].Done?)
    requires forall id :: Keeps(s, c, id) ==> Keeps(SetPc(s, c, pc), c, id)
    ensures Inv(SetPc(s, c, pc))
  {
    var s' := SetPc(s, c, pc);
    forall id | id in s'.codes ensures CodeInv(s', id) {
      assert CodeInv(s, id);
      assert CountedCalls(s', id) == CountedCalls(s, id);
    }
    forall d | d in s'.calls ensures CallInv(s', d) { if d != c { assert CallInv(s, d); } }
  }

  lemma ClaimKeeps(s: State, c: CallId, now: Time)
    requires Inv(s) && CanClaim(s, c)
    ensures Inv(ClaimStep(s, c, now))
  {
    assert CallInv(s, c);
    if ClaimWins(s, c, now) {
      var s' := ClaimStep(s, c, now);
      assert CodeInv(s, s.calls[c].code);
      forall id | id in s'.codes ensures CodeInv(s', id) {
        assert CodeInv(s, id);
        assert CountedCalls(s', id) == CountedCalls(s, id);
      }
      forall d | d in s'.calls ensures CallInv(s', d) { if d != c { assert CallInv(s, d); } }
    } else {
      MoveKeeps(s, c, Done(Refused(Used)));
    }
  }

  lemma SwapKeeps(s: State, c: CallId)
    requires Inv(s) && CanSwap(s, c)
    ensures Inv(SwapStep(s, c))
  {
    assert CallInv(s, c);
    if SwapWins(s, c) {
      var s' := SwapStep(s, c);
      forall id | id in s'.codes ensures CodeInv(s', id) { SwapCode(s, c, id); }
      forall d | d in s'.calls ensures CallInv(s', d) { SwapCall(s, c, d); }
    } else {
      MoveKeeps(s, c, SwapStep(s, c).calls[c]);
    }
  }

  lemma SwapCode(s: State, c: CallId, id: CodeId)
    requires Inv(s) && CanSwap(s, c) && SwapWins(s, c) && id in s.codes
    ensures CodeInv(SwapStep(s, c), id)
  {
    assert CodeInv(s, id);
    if id == s.calls[c].code {
      assert CountedCalls(SwapStep(s, c), id) == CountedCalls(s, id) + {c};
    } else {
      assert CountedCalls(SwapStep(s, c), id) == CountedCalls(s, id);
    }
  }

  lemma SwapCall(s: State, c: CallId, d: CallId)
    requires Inv(s) && CanSwap(s, c) && SwapWins(s, c) && d in s.calls
    ensures CallInv(SwapStep(s, c), d)
  {
    assert CallInv(s, c) && CallInv(s, d);
  }

  lemma ReleaseKeeps(s: State, c: CallId)
    requires Inv(s) && CanRelease(s, c)
    ensures Inv(ReleaseStep(s, c))
  {
    assert CallInv(s, c);
    var s' := ReleaseStep(s, c);
    forall id | id in s'.codes ensures CodeInv(s', id) {
      assert CodeInv(s, id);
      assert CountedCalls(s', id) == CountedCalls(s, id);
    }
    forall d | d in s'.calls ensures CallInv(s', d) { if d != c { assert CallInv(s, d); } }
  }

  lemma StepKeeps(s: State, e: Event)
    requires Inv(s)
    ensures Inv(Step(s, e))
  {
    match e
    case Supersede(kind, now) => SupersedeKeeps(s, kind, now);
    case Create(_, _, _, _, _, _) => CreateKeeps(s, e);
    case Delete(id) => DeleteKeeps(s, id);
    case Load(c, input, now) => if c !in s.calls { MoveKeeps(s, c, AfterLoad(s.codes, input, now)); }
    case Claim(c, now) => if CanClaim(s, c) { ClaimKeeps(s, c, now); }
    case Swap(c) => if CanSwap(s, c) { SwapKeeps(s, c); }
    case Reread(c) => if CanReread(s, c) { assert CallInv(s, c); MoveKeeps(s, c, RereadStep(s, c).calls[c]); }
    case Handle(c, end) => if CanHandle(s, c) { assert CallInv(s, c); MoveKeeps(s, c, HandleStep(s, c, end).calls[c]); }
    case Release(c) => if CanRelease(s, c) { ReleaseKeeps(s, c); }
    case ReleaseThrows(c) =>
      if CanRelease(s, c) { assert CallInv(s, c); MoveKeeps(s, c, Done(RejectedKept(s.calls[c].code))); }
  }

  lemma {:induction false} RunKeeps(s: State, es: seq<Event>)
    requires Inv(s)
    ensures Inv(Run(s, es))
    decreases |es|
  {
    if es != [] {
      StepKeeps(s, es[0]);
      RunKeeps(Step(s, es[0]), es[1..]);
    }
  }

  lemma {:induction false} RunSplits(s: State, es: seq<Event>, fs: seq<Event>)
    ensures Run(s, es + fs) == Run(Run(s, es), fs)
    decreases |es|
  {
    if es == [] {
      assert es + fs == fs;
    } else {
      assert (es + fs)[1..] == es[1..] + fs;
      RunSplits(Step(s, es[0]), es[1..], fs);
    }
  }
}
