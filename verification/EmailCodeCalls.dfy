/** `consume`, `recordFailedAttempt`, `release` and the step-up interceptor as they run, among other calls. */
module EmailCodeCalls {
  import opened Options
  import opened EmailCodes
  import opened EmailCodeSafety

  predicate Foreign(e: Event, c: CallId) { e.Supersede? || e.Create? || e.Delete? || e.call != c }

  predicate AllForeign(es: seq<Event>, c: CallId) { forall e :: e in es ==> Foreign(e, c) }

  lemma {:induction false} ForeignRun(s: State, es: seq<Event>, c: CallId)
    requires AllForeign(es, c)
    ensures c in s.calls ==> c in Run(s, es).calls && Run(s, es).calls[c] == s.calls[c]
    decreases |es|
  {
    if es != [] {
      assert Foreign(es[0], c);
      ForeignRun(Step(s, es[0]), es[1..], c);
    }
  }

  lemma Grows(s0: State, trace: seq<Event>, es: seq<Event>)
    requires Inv(s0)
    ensures Run(s0, trace + es) == Run(Run(s0, trace), es)
    ensures Inv(Run(s0, trace)) && Inv(Run(s0, trace + es))
    ensures |es| == 1 ==> Run(s0, trace + es) == Step(Run(s0, trace), es[0])
  {
    RunSplits(s0, trace, es);
    RunKeeps(s0, trace);
    RunKeeps(s0, trace + es);
    if |es| == 1 { assert es == [es[0]] && es[1..] == []; }
  }

  /** Nobody else runs meanwhile. */
  predicate Alone(env: seq<seq<Event>>) { forall es :: es in env ==> es == [] }

  lemma AloneAt(env: seq<seq<Event>>)
    ensures Alone(env) ==> forall i :: 0 <= i < |env| ==> env[i] == []
    ensures Alone(env) && |env| > 0 ==> Alone(env[1..])
  {
    forall i | 0 <= i < |env| ensures env[i] in env {}
  }

  function CountedPc(pc: Pc): Pc
    requires pc.Swapping?
  {
    Done(Counted(pc.code, pc.seen + 1, pc.seen + 1 >= pc.max))
  }

  /** The code is unconsumed again, unless giving it back threw; every other code is as it was. */
  function GivenBackTo(codes: map<CodeId, Code>, id: CodeId, releaseThrows: bool): map<CodeId, Code> {
    if releaseThrows || id !in codes then codes else codes[id := codes[id].(consumedAt := None)]
  }

  /** Still there, unused, not superseded, with attempts left and in time. */
  predicate Unspent(codes: map<CodeId, Code>, id: CodeId, max: nat, at: Time) {
    && id in codes && codes[id].consumedAt == None && codes[id].invalidatedAt == None
    && codes[id].attempts < max && at < codes[id].expiresAt
  }

  /** What `consume` answers about a code issued for its input. */
  predicate Answers(code: Code, atClaim: map<CodeId, Code>, input: Input, now: Time, claimAt: Time, alone: bool,
                    pc: Pc) {
    var right := input.guess == code.secret;
    if code.consumedAt.Some? || code.invalidatedAt.Some? then pc == Done(Refused(Used))
    else if code.expiresAt <= now then pc == Done(Refused(Expired))
    else if code.attempts >= code.maxAttempts then pc == Done(Refused(Locked))
    else if right then
      && (if Unspent(atClaim, input.id, code.maxAttempts, claimAt) then pc.Handling? else pc == Done(Refused(Used)))
      && (alone ==> (pc.Handling? <==> claimAt < code.expiresAt))
    else
      && pc.Done? && (pc.result.Counted? || pc.result.GaveUp? || pc.result.Vanished?)
      && (alone ==> pc.result == Counted(input.id, code.attempts + 1, code.attempts + 1 >= code.maxAttempts))
  }

  /** And what it leaves in the table: a claim, one more attempt, or everything as it was. */
  predicate Leaves(before: map<CodeId, Code>, after: map<CodeId, Code>, id: CodeId, claimAt: Time, alone: bool, pc: Pc)
    requires id in before
  {
    alone ==>
      after == if pc.Handling? then before[id := before[id].(consumedAt := Some(claimAt))]
               else if pc.Done? && pc.result.Counted?
               then before[id := before[id].(attempts := before[id].attempts + 1)]
               else before
  }

  class EmailCodesService {
    var codes: map<CodeId, Code>
    var calls: map<CallId, Pc>
    var used: set<CodeId>
    var holder: map<CodeId, CallId>

    function View(): State
      reads this
    {
      State(codes, calls, used, holder)
    }

    constructor ()
      ensures View() == EMPTY
    {
      codes, calls, used, holder := map[], map[], {}, map[];
    }

    /** Statements of other calls while call c waits. */
    method Interleave(ghost s0: State, trace: seq<Event>, c: CallId, env: seq<Event>) returns (grown: seq<Event>)
      requires c in calls && AllForeign(env, c) && Inv(s0) && View() == Run(s0, trace)
      modifies this
      ensures grown == trace + env && View() == Run(s0, grown) && Inv(View())
      ensures c in calls && calls[c] == old(calls[c]) && (env == [] ==> View() == old(View()))
    {
      Grows(s0, trace, env);
      ForeignRun(View(), env, c);
      var s := Run(View(), env);
      codes, calls, used, holder := s.codes, s.calls, s.used, s.holder;
      grown := trace + env;
    }

    method Logged(ghost s0: State, trace: seq<Event>, e: Event) returns (grown: seq<Event>)
      requires Inv(s0) && View() == Step(Run(s0, trace), e)
      ensures grown == trace + [e] && View() == Run(s0, grown) && Inv(View())
    {
      Grows(s0, trace, [e]);
      grown := trace + [e];
    }

    /** findUnique and the checks that precede any write. */
    method LoadCode(c: CallId, input: Input, now: Time)
      requires c !in calls
      modifies this`calls
      ensures View() == Step(old(View()), Load(c, input, now))
    {
      calls := calls[c := AfterLoad(codes, input, now)];
    }

    /** The conditional update that consumes the code. */
    method ClaimCode(c: CallId, now: Time) returns (count: nat)
      requires CanClaim(View(), c)
      modifies this`codes, this`holder, this`calls
      ensures View() == Step(old(View()), Claim(c, now))
      ensures count == if ClaimWins(old(View()), c, now) then 1 else 0
    {
      var id := calls[c].code;
      if Claimable(codes, id, calls[c].max, now) {
        codes := codes[id := codes[id].(consumedAt := Some(now))];
        holder := holder[id := c];
        calls := calls[c := Handling(id, now, calls[c].stepUp)];
        count := 1;
      } else {
        calls := calls[c := Done(Refused(Used))];
        count := 0;
      }
    }

    /** updateMany where id and attempts is the value read. */
    method SwapAttempts(c: CallId) returns (swapped: bool)
      requires CanSwap(View(), c)
      modifies this`codes, this`calls
      ensures View() == Step(old(View()), Swap(c))
      ensures swapped == SwapWins(old(View()), c)
    {
      var pc := calls[c];
      swapped := pc.code in codes && codes[pc.code].attempts == pc.seen;
      if swapped {
        codes := codes[pc.code := codes[pc.code].(attempts := pc.seen + 1)];
        calls := calls[c := Done(Counted(pc.code, pc.seen + 1, pc.seen + 1 >= pc.max))];
      } else {
        calls := calls[c := if pc.retry + 1 < RETRIES then Rereading(pc.code, pc.retry + 1) else Done(GaveUp(pc.code))];
      }
    }

    method RereadCode(c: CallId)
      requires CanReread(View(), c)
      modifies this`calls
      ensures View() == Step(old(View()), Reread(c))
    {
      var pc := calls[c];
      if pc.code in codes {
        calls := calls[c := Swapping(pc.code, pc.retry, codes[pc.code].attempts, codes[pc.code].maxAttempts)];
      } else {
        calls := calls[c := Done(Vanished)];
      }
    }

    /**
     * The compare-and-swap loop. Whatever others do in between, "not locked" is answered only when this
     * guess was counted and was not the last allowed one; "locked" means the last allowed guess, ten
     * guesses counted by others, or a deleted row.
     */
    method RecordFailedAttempt(ghost s0: State, trace: seq<Event>, c: CallId, env: seq<seq<Event>>)
      returns (locked: bool, grown: seq<Event>)
      requires Inv(s0) && View() == Run(s0, trace) && Inv(View())
      requires CanSwap(View(), c) && calls[c].retry == 0
      requires |env| == 2 * RETRIES && forall es :: es in env ==> AllForeign(es, c)
      modifies this
      ensures View() == Run(s0, grown) && Inv(View())
      ensures c in calls && calls[c].Done?
      ensures var r, id := calls[c].result, old(calls[c].code);
              || (r.Counted? && r.code == id && locked == r.locked)
              || (locked && (r == GaveUp(id) || r.Vanished?))
      ensures env[0] == [] && SwapWins(old(View()), c) ==>
                && calls == old(calls)[c := CountedPc(old(calls[c]))]
                && codes == old(codes)[old(calls[c].code) := old(codes)[old(calls[c].code)].(
                              attempts := old(calls[c].seen) + 1)]
    {
      var retry := 0;
      var id := calls[c].code;
      grown := trace;
      while retry < RETRIES
        invariant 0 <= retry <= RETRIES
        invariant View() == Run(s0, grown) && Inv(View())
        invariant c in calls && if retry < RETRIES
                then calls[c].Swapping? && calls[c].retry == retry && calls[c].code == id
                                else calls[c] == Done(GaveUp(id))
        invariant retry == 0 ==> View() == old(View())
        invariant retry > 0 && env[0] == [] ==> !SwapWins(old(View()), c)
      {
        grown := Interleave(s0, grown, c, env[2 * retry]);
        var swapped := SwapAttempts(c);
        grown := Logged(s0, grown, Swap(c));
        if swapped { return calls[c].result.locked, grown; }
        if calls[c].Rereading? {
          grown := Interleave(s0, grown, c, env[2 * retry + 1]);
          RereadCode(c);
          grown := Logged(s0, grown, Reread(c));
          if calls[c].Done? { return true, grown; }
        }
        retry := retry + 1;
      }
      locked := true;
    }

    /**
     * `consume`: a code that was not issued for this input is refused as a mismatch, and a used, expired or locked one
     * as such; otherwise the call ends in a counted guess, in a refusal, or holding the claim (with the time it wrote).
     * With nobody else about, a right guess in time claims the code and a wrong one counts.
     */
    method Consume(c: CallId, input: Input, now: Time, claimAt: Time, env: seq<seq<Event>>) returns (trace: seq<Event>)
      requires Inv(View()) && c !in calls
      requires |env| == 2 * RETRIES + 1 && forall es :: es in env ==> AllForeign(es, c)
      modifies this
      ensures View() == Run(old(View()), trace) && Inv(View())
      ensures c in calls
      ensures calls[c] == Handling(input.id, claimAt, input.purpose.ForAction?)
              || (calls[c].Done? && !calls[c].result.Ended? && !calls[c].result.RejectedKept?)
      ensures calls[c] == Done(Refused(Mismatch)) <==>
                !input.wellFormed || input.id !in old(codes) || !IssuedFor(old(codes)[input.id], input)
      ensures input.wellFormed && input.id in old(codes) && IssuedFor(old(codes)[input.id], input) ==>
                && Answers(old(codes)[input.id], Run(Step(old(View()), Load(c, input, now)), env[0]).codes, input, now,
                           claimAt, Alone(env), calls[c])
                && Leaves(old(codes), codes, input.id, claimAt, Alone(env), calls[c])
    {
      AloneAt(env);
      LoadCode(c, input, now);
      trace := Logged(old(View()), [], Load(c, input, now));
      if calls[c].Swapping? {
        var locked;
        locked, trace := RecordFailedAttempt(old(View()), trace, c, env[1..]);
      } else if calls[c].Claiming? {
        Grows(old(View()), trace, env[0]);
        trace := Interleave(old(View()), trace, c, env[0]);
        var count := ClaimCode(c, claimAt);
        trace := Logged(old(View()), trace, Claim(c, claimAt));
      }
    }

    /** `release` after a 4xx: the claim of this call is undone and nothing else changes. */
    method ReleaseCode(c: CallId)
      requires Reachable(View()) && CanRelease(View(), c)
      modifies this`codes, this`holder, this`calls
      ensures View() == Step(old(View()), Release(c))
      ensures var id := old(calls[c].code);
              codes == if id in old(codes) then old(codes)[id := old(codes)[id].(consumedAt := None)] else old(codes)
    {
      var pc := calls[c];
      ReleaseUndoesItsOwnClaim(View(), c);
      if pc.code in codes && codes[pc.code].consumedAt == Some(pc.at) {
        codes := codes[pc.code := codes[pc.code].(consumedAt := None)];
      }
      holder := holder - {pc.code};
      calls := calls[c := Done(Rejected(pc.code))];
    }

    /** Once the handler has ended: the interceptor gives a step-up code back after a 4xx, and nothing else does. */
    method AfterHandler(c: CallId, end: HandlerEnd, releaseThrows: bool, env: seq<Event>) returns (trace: seq<Event>)
      requires Reachable(View()) && CanHandle(View(), c) && AllForeign(env, c)
      modifies this
      ensures Reachable(View()) && View() == Run(old(View()), trace)
      ensures c in calls && calls[c].Done?
      ensures var id, back := old(calls[c].code), end.ClientError? && old(calls[c].stepUp);
              && (!back ==> calls[c].result == Ended(id, end))
              && (back ==> calls[c].result == if releaseThrows then RejectedKept(id) else Rejected(id))
              && (back && !releaseThrows && id in codes ==> codes[id].consumedAt.None?)
              && (!back ==> codes == old(codes))
              && (back && env == [] ==> codes == GivenBackTo(old(codes), id, releaseThrows))
    {
      var pc := calls[c];
      var back := end.ClientError? && pc.stepUp;
      ReachableInv(View());
      calls := calls[c := if back then Releasing(pc.code, pc.at) else Done(Ended(pc.code, end))];
      trace := Logged(old(View()), [], Handle(c, end));
      ReachableRun(old(View()), trace);
      if back { trace := GiveBack(old(View()), trace, c, releaseThrows, env); }
    }

    method GiveBack(ghost s0: State, trace: seq<Event>, c: CallId, releaseThrows: bool, env: seq<Event>)
      returns (grown: seq<Event>)
      requires Reachable(s0) && Inv(s0) && View() == Run(s0, trace)
      requires CanRelease(View(), c) && AllForeign(env, c)
      modifies this
      ensures Reachable(View()) && View() == Run(s0, grown) && c in calls
      ensures var id := old(calls[c].code);
              && calls[c] == Done(if releaseThrows then RejectedKept(id) else Rejected(id))
              && (!releaseThrows && id in codes ==> codes[id].consumedAt.None?)
              && (env == [] ==> codes == GivenBackTo(old(codes), id, releaseThrows))
    {
      var pc := calls[c];
      grown := Interleave(s0, trace, c, env);
      ReachableRun(s0, grown);
      if releaseThrows {
        calls := calls[c := Done(RejectedKept(pc.code))];
        grown := Logged(s0, grown, ReleaseThrows(c));
      } else {
        ReleaseCode(c);
        grown := Logged(s0, grown, Release(c));
      }
      ReachableRun(s0, grown);
    }
  }
}
