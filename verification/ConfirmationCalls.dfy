/** `confirm`, `recordFailedAttempt`, `reject` and `listPending` as they run, among other calls. */
module ConfirmationCalls {
  import opened Options
  import opened Confirmations
  import opened ConfirmationSafety

  predicate AllForeign(es: seq<Event>, c: CallId) { forall e :: e in es ==> e.Create? || e.call != c }

  lemma {:induction false} ForeignRun(s: State, es: seq<Event>, c: CallId)
    requires AllForeign(es, c)
    ensures c in s.calls ==> c in Run(s, es).calls && Run(s, es).calls[c] == s.calls[c]
    decreases |es|
  {
    if es != [] {
      assert es[0] in es;
      ForeignRun(Step(s, es[0]), es[1..], c);
    }
  }

  lemma Grows(s0: State, trace: seq<Event>, es: seq<Event>)
    requires Inv(s0)
    ensures Run(s0, trace + es) == Run(Run(s0, trace), es)
    ensures Inv(Run(s0, trace)) && Inv(Run(s0, trace + es))
    ensures |es| == 1 ==> Run(s0, trace + es) == Step(Run(s0, trace), es[0])
  {
    RunSplits(s0, trace, es);
    RunKeeps(s0, trace);
    RunKeeps(s0, trace + es);
    if |es| == 1 { assert es == [es[0]] && es[1..] == []; }
  }

  /** Nobody else runs meanwhile. */
  predicate Alone(env: seq<seq<Event>>) { forall es :: es in env ==> es == [] }

  lemma AloneAt(env: seq<seq<Event>>)
    ensures Alone(env) ==> forall i :: 0 <= i < |env| ==> env[i] == []
  {
    forall i | 0 <= i < |env| ensures env[i] in env {}
  }

  /** A wrong guess more; the last one allowed fails the action. */
  function GuessedOnce(row: Action): Action {
    row.(attempts := row.attempts + 1, status := if row.attempts + 1 >= row.maxAttempts then Failed else Pending)
  }

  /** Confirmed by this director, or failed with its effect. */
  function Settled(row: Action, director: DirectorId, ok: bool): Action {
    row.(status := if ok then Confirmed else Failed, confirmedBy := if ok then Some(director) else None)
  }

  /** The action is still pending and in time. */
  predicate Open(rows: map<ActionId, Action>, id: ActionId, at: Time) {
    id in rows && rows[id].status == Pending && at < rows[id].expiresAt
  }

  /**
   * What becomes of the right code: it is turned away exactly if, when the claim was made, the action was not pending
   * any more or had expired. With nobody else about, the effect runs and the row says how it went.
   */
  predicate RightCode(s: State, t: State, c: CallId, id: ActionId, director: DirectorId, guess: nat, now: Time,
                      claimAt: Time, ok: bool, env: seq<seq<Event>>)
    requires |env| > 0 && id in s.rows && c in t.calls && t.calls[c].Done?
  {
    var atClaim := Run(Step(s, LoadForConfirm(c, id, director, guess, now)), env[0]);
    && (t.calls[c].result == AlreadyResolved <==> !Open(atClaim.rows, id, claimAt))
    && (t.calls[c].result != AlreadyResolved ==>
          t.calls[c].result == if ok then Executed(id) else ExecutionFailed(id))
    && (Alone(env) ==>
          && (t.calls[c].result == AlreadyResolved <==> claimAt >= s.rows[id].expiresAt)
          && t.rows == if claimAt < s.rows[id].expiresAt then s.rows[id := Settled(s.rows[id], director, ok)]
                       else s.rows)
  }

  /** What becomes of a wrong one; with nobody else about, it is counted. */
  predicate WrongGuess(s: State, t: State, c: CallId, id: ActionId, env: seq<seq<Event>>)
    requires id in s.rows && c in t.calls && t.calls[c].Done?
  {
    var r := t.calls[c].result;
    && (r.WrongCode? || r == AlreadyResolved || r == ConcurrentUpdate(id))
    && (Alone(env) ==>
          && t.rows == s.rows[id := GuessedOnce(s.rows[id])]
          && r == WrongCode(id, s.rows[id].attempts + 1, s.rows[id].attempts + 1 >= s.rows[id].maxAttempts))
  }

  class ConfirmationsService {
    var rows: map<ActionId, Action>
    var calls: map<CallId, Pc>
    var claims: map<ActionId, Claim>

    function View(): State
      reads this
    {
      State(rows, calls, claims)
    }

    constructor ()
      ensures View() == EMPTY
    {
      rows, calls, claims := map[], map[], map[];
    }

    /** Statements of other calls while call c waits. */
    method Interleave(ghost s0: State, trace: seq<Event>, c: CallId, env: seq<Event>) returns (grown: seq<Event>)
      requires c in calls && AllForeign(env, c) && Inv(s0) && View() == Run(s0, trace)
      modifies this
      ensures grown == trace + env && View() == Run(s0, grown) == Run(old(View()), env) && Inv(View())
      ensures c in calls && calls[c] == old(calls[c]) && (env == [] ==> View() == old(View()))
    {
      Grows(s0, trace, env);
      ForeignRun(View(), env, c);
      var s := Run(View(), env);
      rows, calls, claims := s.rows, s.calls, s.claims;
      grown := trace + env;
    }

    method Logged(ghost s0: State, trace: seq<Event>, e: Event) returns (grown: seq<Event>)
      requires Inv(s0) && View() == Step(Run(s0, trace), e)
      ensures grown == trace + [e] && View() == Run(s0, grown) && Inv(View())
    {
      Grows(s0, trace, [e]);
      grown := trace + [e];
    }

    /** The update by id alone in loadAndExpireIfNeeded. */
    method WriteExpired(c: CallId)
      requires c in calls && calls[c].Expiring?
      modifies this`rows, this`calls
      ensures View() == Step(old(View()), Expire(c))
    {
      var id := calls[c].id;
      if id in rows { rows := rows[id := rows[id].(status := Expired)]; }
      calls := calls[c := Done(AlreadyResolved)];
    }

    method ReadAction(c: CallId)
      requires CanRead(View(), c)
      modifies this`calls
      ensures View() == Step(old(View()), Read(c))
    {
      var pc := calls[c];
      if pc.id !in rows || rows[pc.id].status != Pending {
        calls := calls[c := Done(AlreadyResolved)];
      } else {
        calls := calls[c := Swapping(pc.id, pc.retry, rows[pc.id].attempts, rows[pc.id].maxAttempts)];
      }
    }

    /** updateMany where id, status is pending and attempts is the value read. */
    method SwapAttempts(c: CallId) returns (swapped: bool)
      requires CanSwap(View(), c)
      modifies this`rows, this`calls
      ensures View() == Step(old(View()), Swap(c))
      ensures swapped == SwapWins(old(View()), c)
    {
      var pc := calls[c];
      var attempts := pc.seen + 1;
      var exhausted := attempts >= pc.max;
      swapped := pc.id in rows && rows[pc.id].status == Pending && rows[pc.id].attempts == pc.seen;
      if swapped {
        rows := rows[pc.id := rows[pc.id].(attempts := attempts, status := if exhausted then Failed else Pending)];
        calls := calls[c := Done(WrongCode(pc.id, attempts, exhausted))];
      } else {
        calls := calls[c := if pc.retry + 1 < RETRIES then Reading(pc.id, pc.retry + 1)
          else Done(ConcurrentUpdate(pc.id))];
      }
    }

    /**
     * The compare-and-swap loop: it ends with this guess counted, with the action resolved by somebody else,
     * or - only when the limit is ten or more - with CONFIRMATION_CONCURRENT_UPDATE.
     */
    method RecordFailedAttempt(ghost s0: State, trace: seq<Event>, c: CallId, env: seq<seq<Event>>)
      returns (grown: seq<Event>)
      requires Inv(s0) && View() == Run(s0, trace) && Inv(View())
      requires CanRead(View(), c) && calls[c].retry == 0
      requires |env| == 2 * RETRIES && forall es :: es in env ==> AllForeign(es, c)
      modifies this
      ensures View() == Run(s0, grown) && Inv(View())
      ensures c in calls && calls[c].Done?
      ensures var r, id := calls[c].result, old(calls[c].id);
              || (r.WrongCode? && r.id == id)
              || r == AlreadyResolved
              || (r == ConcurrentUpdate(id) && id in rows && rows[id].maxAttempts >= RETRIES)
      ensures var id := old(calls[c].id);
              env[0] == [] && env[1] == [] && id in old(rows) && old(rows)[id].status == Pending ==>
                && rows == old(rows)[id := GuessedOnce(old(rows)[id])]
                && calls[c].result == WrongCode(id, rows[id].attempts, rows[id].attempts >= rows[id].maxAttempts)
    {
      var retry := 0;
      var id := calls[c].id;
      grown := trace;
      while retry < RETRIES
        invariant 0 <= retry <= RETRIES
        invariant View() == Run(s0, grown) && Inv(View())
        invariant c in calls && if retry < RETRIES then calls[c] == Reading(id, retry)
                else calls[c] == Done(ConcurrentUpdate(id))
        invariant retry == 0 ==> View() == old(View())
        invariant retry > 0 && id in old(rows) && old(rows)[id].status == Pending ==> env[0] != [] || env[1] != []
      {
        var settled;
        settled, grown := TryToCount(s0, grown, c, env[2 * retry], env[2 * retry + 1]);
        if settled { return grown; }
        retry := retry + 1;
      }
      assert CallInv(View(), c);
    }

    /** One turn of the loop: a read and a swap. */
    method TryToCount(ghost s0: State, trace: seq<Event>, c: CallId, env: seq<Event>, more: seq<Event>)
      returns (settled: bool, grown: seq<Event>)
      requires Inv(s0) && View() == Run(s0, trace) && Inv(View())
      requires CanRead(View(), c) && AllForeign(env, c) && AllForeign(more, c)
      modifies this
      ensures View() == Run(s0, grown) && Inv(View())
      ensures c in calls
      ensures settled ==>
                && calls[c].Done?
                && (calls[c].result == AlreadyResolved
                    || (calls[c].result.WrongCode? && calls[c].result.id == old(calls[c].id)))
      ensures !settled ==>
                calls[c] == if old(calls[c].retry) + 1 < RETRIES then Reading(old(calls[c].id), old(calls[c].retry) + 1)
                                       else Done(ConcurrentUpdate(old(calls[c].id)))
      ensures var id := old(calls[c].id);
              env == [] && more == [] && id in old(rows) && old(rows)[id].status == Pending ==>
                && settled && rows == old(rows)[id := GuessedOnce(old(rows)[id])]
                && calls[c].result == WrongCode(id, rows[id].attempts, rows[id].attempts >= rows[id].maxAttempts)
    {
      grown := Interleave(s0, trace, c, env);
      ReadAction(c);
      grown := Logged(s0, grown, Read(c));
      if calls[c].Done? { return true, grown; }
      grown := Interleave(s0, grown, c, more);
      settled := SwapAttempts(c);
      grown := Logged(s0, grown, Swap(c));
    }

    /** The conditional update from pending to confirmed, re-checking the expiry. */
    method ClaimAction(c: CallId, now: Time) returns (count: nat)
      requires CanClaim(View(), c)
      modifies this`rows, this`claims, this`calls
      ensures View() == Step(old(View()), TryClaim(c, now))
      ensures count == if ClaimWins(old(View()), c, now) then 1 else 0
    {
      var pc := calls[c];
      if pc.id in rows && rows[pc.id].status == Pending && now < rows[pc.id].expiresAt {
        rows := rows[pc.id := rows[pc.id].(status := Confirmed, confirmedBy := Some(pc.director))];
        claims := claims[pc.id := Claim(c, pc.director, pc.guess, now)];
        calls := calls[c := Executing(pc.id, pc.director)];
        count := 1;
      } else {
        calls := calls[c := Done(AlreadyResolved)];
        count := 0;
      }
    }

    /** After the claim: run the effect, and on failure give the status `failed` - if the claim still stands. */
    method ExecuteClaimed(ghost s0: State, trace: seq<Event>, c: CallId, ok: bool, env: seq<Event>)
      returns (grown: seq<Event>)
      requires Inv(s0) && View() == Run(s0, trace) && Inv(View())
      requires c in calls && calls[c].Executing? && AllForeign(env, c)
      modifies this
      ensures View() == Run(s0, grown) && Inv(View())
      ensures c in calls && calls[c] == Done(if ok then Executed(old(calls[c].id))
              else ExecutionFailed(old(calls[c].id)))
      ensures !ok ==> old(calls[c].id) in rows && rows[old(calls[c].id)].status != Confirmed
      ensures ok ==> rows == old(rows)
      ensures var pc := old(calls[c]);
              env == [] && !ok && pc.id in old(rows) && old(rows)[pc.id].status == Confirmed
              && old(rows)[pc.id].confirmedBy == Some(pc.director) ==>
                rows == old(rows)[pc.id := old(rows)[pc.id].(status := Failed, confirmedBy := None)]
      ensures old(calls[c].id) in old(claims) ==>
                old(calls[c].id) in claims && claims[old(calls[c].id)] == old(claims)[old(calls[c].id)]
    {
      var pc := calls[c];
      calls := calls[c := if ok then Done(Executed(pc.id)) else Downgrading(pc.id, pc.director)];
      grown := Logged(s0, trace, Execute(c, ok));
      if !ok {
        HistoryStays(View(), env, c, pc.id);
        grown := Interleave(s0, grown, c, env);
        assert CallInv(View(), c) && RowInv(View(), pc.id);
        if pc.id in rows && rows[pc.id].status == Confirmed && rows[pc.id].confirmedBy == Some(pc.director) {
          rows := rows[pc.id := rows[pc.id].(status := Failed, confirmedBy := None)];
        }
        calls := calls[c := Done(ExecutionFailed(pc.id))];
        grown := Logged(s0, grown, Downgrade(c));
      }
    }

    /**
     * `confirm`, among other calls: the effect runs only behind a won claim - the right code, before the
     * expiry, on a pending action - and a failed effect never leaves the action confirmed.
     */
    method Confirm(c: CallId, id: ActionId, director: DirectorId, guess: nat, now: Time, claimAt: Time, ok: bool,
                   env: seq<seq<Event>>)
      returns (trace: seq<Event>)
      requires Inv(View()) && c !in calls
      requires |env| == 2 * RETRIES && forall es :: es in env ==> AllForeign(es, c)
      modifies this
      ensures View() == Run(old(View()), trace) && Inv(View())
      ensures c in calls && calls[c].Done?
      ensures calls[c].result.NotFound? <==> id !in old(rows)
      ensures calls[c].result in {Executed(id), ExecutionFailed(id)} ==>
                && id in old(rows) && old(rows)[id].status == Pending
                && guess == old(rows)[id].secret && now <= old(rows)[id].expiresAt && claimAt < old(rows)[id].expiresAt
                && id in claims && claims[id] == Claim(c, director, guess, claimAt)
      ensures id !in old(rows) || old(rows)[id].status != Pending ==> rows == old(rows)
      ensures id in old(rows) && old(rows)[id].status != Pending ==> calls[c].result == AlreadyResolved
      ensures id in old(rows) && old(rows)[id].status == Pending && old(rows)[id].expiresAt < now ==>
                && calls[c].result == AlreadyResolved && id in rows && rows[id].status == Expired
                && (Alone(env) ==> rows == old(rows)[id := old(rows)[id].(status := Expired)])
      ensures id in old(rows) && old(rows)[id].status == Pending && now <= old(rows)[id].expiresAt ==>
                if guess == old(rows)[id].secret
                then RightCode(old(View()), View(), c, id, director, guess, now, claimAt, ok, env)
                else WrongGuess(old(View()), View(), c, id, env)
    {
      AloneAt(env);
      calls := calls[c := AfterLoad(rows, id, director, guess, now)];
      trace := Logged(old(View()), [], LoadForConfirm(c, id, director, guess, now));
      if calls[c].Expiring? {
        trace := Interleave(old(View()), trace, c, env[0]);
        assert CallInv(View(), c);
        WriteExpired(c);
        trace := Logged(old(View()), trace, Expire(c));
      } else if calls[c].Reading? {
        trace := RecordFailedAttempt(old(View()), trace, c, env);
      } else if calls[c].Claiming? {
        trace := ClaimAndExecute(old(View()), trace, c, claimAt, ok, env);
      }
    }

    method ClaimAndExecute(ghost s0: State, trace: seq<Event>, c: CallId, claimAt: Time, ok: bool, env: seq<seq<Event>>)
      returns (grown: seq<Event>)
      requires Inv(s0) && View() == Run(s0, trace) && Inv(View())
      requires CanClaim(View(), c) && calls[c].id in rows && |env| == 2 * RETRIES && forall es ::
                 es in env ==> AllForeign(es, c)
      modifies this
      ensures View() == Run(s0, grown) && Inv(View())
      ensures c in calls && calls[c].Done?
      ensures var pc, r := old(calls[c]), calls[c].result;
              || r == AlreadyResolved
              || (r == (if ok then Executed(pc.id) else ExecutionFailed(pc.id)) && claimAt < old(rows)[pc.id].expiresAt
                  && pc.id in claims && claims[pc.id] == Claim(c, pc.director, pc.guess, claimAt))
      ensures calls[c].result == AlreadyResolved <==> !Open(Run(old(View()), env[0]).rows, old(calls[c].id), claimAt)
      ensures Alone(env) ==>
                var pc := old(calls[c]);
                && rows == (if Open(old(rows), pc.id, claimAt)
                            then old(rows)[pc.id := Settled(old(rows)[pc.id], pc.director, ok)] else old(rows))
                && (Open(old(rows), pc.id, claimAt) ==>
                      calls[c].result == if ok then Executed(pc.id) else ExecutionFailed(pc.id))
    {
      AloneAt(env);
      var pc := calls[c];
      PendingNeverReentered(View(), env[0], pc.id);
      grown := Interleave(s0, trace, c, env[0]);
      var count := ClaimAction(c, claimAt);
      grown := Logged(s0, grown, TryClaim(c, claimAt));
      if count == 1 {
        ghost var claimed := rows;
        grown := ExecuteClaimed(s0, grown, c, ok, env[1]);
        if Alone(env) && !ok {
          assert rows == claimed[pc.id := claimed[pc.id].(status := Failed, confirmedBy := None)];
        }
      }
    }

    /** `reject`: an update by id alone after the status was read. */
    method RejectAction(c: CallId, id: ActionId, director: DirectorId, now: Time, env: seq<Event>)
      returns (trace: seq<Event>)
      requires Inv(View()) && c !in calls && AllForeign(env, c)
      modifies this
      ensures View() == Run(old(View()), trace) && Inv(View())
      ensures c in calls && calls[c].Done?
      ensures calls[c].result == RejectDone <==>
                id in old(rows) && old(rows)[id].status == Pending && now <= old(rows)[id].expiresAt
      ensures calls[c].result == RejectDone ==> id in rows && rows[id].status == Rejected
      ensures calls[c].result == NotFound <==> id !in old(rows)
      ensures id !in old(rows) || old(rows)[id].status != Pending ==> rows == old(rows)
      ensures env == [] && id in old(rows) && old(rows)[id].status == Pending ==>
                rows == old(rows)[id := old(rows)[id].(
                          status := if old(rows)[id].expiresAt < now then Expired else Rejected)]
    {
      calls := calls[c := AfterRejectLoad(rows, id, director, now)];
      trace := Logged(old(View()), [], LoadForReject(c, id, director, now));
      if calls[c].Expiring? {
        trace := Interleave(old(View()), trace, c, env);
        WriteExpired(c);
        trace := Logged(old(View()), trace, Expire(c));
      } else if calls[c].Rejecting? {
        trace := Interleave(old(View()), trace, c, env);
        assert CallInv(View(), c);
        rows := rows[id := rows[id].(status := Rejected)];
        calls := calls[c := Done(RejectDone)];
        trace := Logged(old(View()), trace, Reject(c));
      }
    }

    /**
     * `listPending`: the rows found pending one after the other, overdue ones written off as expired. Before each row
     * other calls' statements pass and the clock is read anew.
     */
    method ListPending(c: CallId, now: ActionId -> Time, env: ActionId -> seq<Event>)
      returns (still: set<ActionId>, trace: seq<Event>)
      requires Inv(View()) && c !in calls && forall id :: AllForeign(env(id), c)
      modifies this
      ensures View() == Run(old(View()), trace) && Inv(View())
      ensures still == set id | id in old(rows) && old(rows)[id].status == Pending && now(id) <= old(rows)[id].expiresAt
      ensures (forall id :: env(id) == []) ==> rows == WrittenOff(old(rows), PendingIds(old(rows)), now)
    {
      var todo := PendingIds(rows);
      ghost var rows0 := rows;
      calls := calls[c := ListPc(todo)];
      trace := Logged(old(View()), [], FindPending(c));
      still, trace := ListEach(old(View()), trace, c, todo, now, env, forall id :: env(id) == []);
      assert still == InTime(rows0, PendingIds(rows0), now);
    }

    method ListEach(ghost s0: State, trace: seq<Event>, c: CallId, found: set<ActionId>,
                    now: ActionId -> Time, env: ActionId -> seq<Event>, ghost alone: bool)
      returns (still: set<ActionId>, grown: seq<Event>)
      requires alone ==> forall id :: env(id) == []
      requires Inv(s0) && View() == Run(s0, trace) && Inv(View())
      requires c in calls && calls[c] == ListPc(found) && found <= rows.Keys && forall id :: AllForeign(env(id), c)
      modifies this
      ensures View() == Run(s0, grown) && Inv(View())
      ensures still == InTime(old(rows), found, now)
      ensures alone ==> rows == WrittenOff(old(rows), found, now)
    {
      ghost var was := rows;
      var todo := found;
      assert WrittenOff(rows, {}, now) == rows && found - found == {};
      grown, still := trace, {};
      while todo != {}
        invariant todo <= found && still == InTime(was, found - todo, now)
        invariant View() == Run(s0, grown) && Inv(View())
        invariant c in calls && calls[c] == ListPc(todo)
        invariant alone ==> rows == WrittenOff(was, found - todo, now)
        invariant forall id :: id in found ==> id in rows && rows[id].expiresAt == was[id].expiresAt
        decreases |todo|
      {
        var id :| id in todo;
        var overdue;
        NextInTime(was, found, todo, id, now);
        NextWrittenOff(was, found, todo, id, now);
        overdue, grown := ListOne(s0, grown, c, id, now(id), todo, found, env(id));
        if !overdue { still := still + {id}; }
        todo := todo - {id};
      }
      assert found - {} == found;
    }

    method ListOne(ghost s0: State, trace: seq<Event>, c: CallId, id: ActionId, now: Time,
                   todo: set<ActionId>, ghost found: set<ActionId>, env: seq<Event>)
      returns (overdue: bool, grown: seq<Event>)
      requires Inv(s0) && View() == Run(s0, trace) && Inv(View())
      requires c in calls && calls[c] == ListPc(todo) && id in todo && todo <= found <= rows.Keys && AllForeign(env, c)
      modifies this
      ensures View() == Run(s0, grown) && Inv(View())
      ensures c in calls && calls[c] == ListPc(todo - {id})
      ensures overdue == (old(rows)[id].expiresAt < now)
      ensures env == [] ==>
                rows == if overdue then old(rows)[id := old(rows)[id].(status := Expired)] else old(rows)
      ensures forall x :: x in found ==> x in rows && rows[x].expiresAt == old(rows)[x].expiresAt
    {
      forall x | x in found
        ensures x in Run(View(), env).rows && Run(View(), env).rows[x].expiresAt == rows[x].expiresAt
      {
        PendingNeverReentered(View(), env, x);
      }
      grown := Interleave(s0, trace, c, env);
      overdue := rows[id].expiresAt < now;
      if overdue { rows := rows[id := rows[id].(status := Expired)]; }
      calls := calls[c := ListPc(todo - {id})];
      grown := Logged(s0, grown, ListNext(c, id, now));
    }
  }

  function InTime(rows: map<ActionId, Action>, ids: set<ActionId>, now: ActionId -> Time): set<ActionId>
    requires ids <= rows.Keys
  {
    set id | id in ids && now(id) <= rows[id].expiresAt
  }

  lemma NextInTime(rows: map<ActionId, Action>, found: set<ActionId>, todo: set<ActionId>, id: ActionId,
                   now: ActionId -> Time)
    requires id in todo && todo <= found <= rows.Keys
    ensures InTime(rows, found - (todo - {id}), now) ==
            InTime(rows, found - todo, now) + if rows[id].expiresAt < now(id) then {} else {id}
  {
    assert found - (todo - {id}) == (found - todo) + {id};
  }

  /** The overdue ones among the ids are expired; every other row is as it was. */
  function WrittenOff(rows: map<ActionId, Action>, ids: set<ActionId>, now: ActionId -> Time): map<ActionId, Action> {
    map id | id in rows ::
      if id in ids && rows[id].expiresAt < now(id) then rows[id].(status := Expired) else rows[id]
  }

  lemma NextWrittenOff(rows: map<ActionId, Action>, found: set<ActionId>, todo: set<ActionId>, id: ActionId,
                       now: ActionId -> Time)
    requires id in todo && todo <= found <= rows.Keys
    ensures var before, after := WrittenOff(rows, found - todo, now), WrittenOff(rows, found - (todo - {id}), now);
            && before[id] == rows[id]
            && after == if rows[id].expiresAt < now(id) then before[id := rows[id].(status := Expired)] else before
  {
    assert found - (todo - {id}) == (found - todo) + {id};
  }
}
