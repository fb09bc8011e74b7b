/**
 * Maker-checker confirmations (src/confirmations/confirmations.service.ts) as a state
 * machine over single statements: claims and guess counting are conditional updates,
 * `reject` and the two expiry writes are by id only. Hashes are injective and guesses
 * arrive normalised, so a guess is right when it equals the secret. Rows are never deleted.
 */
module Confirmations {
  import opened Options

  type ActionId = nat
  type CallId = nat
  type DirectorId = nat
  type Time = int

  datatype Status = Pending | Confirmed | Rejected | Expired | Failed

  datatype Action = Action(
    secret: nat,
    expiresAt: Time,
    maxAttempts: nat,
    attempts: nat,
    status: Status,
    confirmedBy: Option<DirectorId>)

  datatype Result =
    | NotFound
    | AlreadyResolved
    | ConcurrentUpdate(id: ActionId)                     // ten failed swaps
    | WrongCode(id: ActionId, nth: nat, exhausted: bool)  // the guess was counted as the nth
    | Executed(id: ActionId)
    | ExecutionFailed(id: ActionId)
    | RejectDone
    | Listed
    | Aborted                                             // a statement threw

  datatype Pc =
    | Expiring(id: ActionId)
    | Reading(id: ActionId, retry: nat)
    | Swapping(id: ActionId, retry: nat, seen: nat, max: nat)
    | Claiming(id: ActionId, director: DirectorId, guess: nat)
    | Executing(id: ActionId, director: DirectorId)
    | Downgrading(id: ActionId, director: DirectorId)
    | Rejecting(id: ActionId, director: DirectorId)
    | Listing(todo: set<ActionId>)
    | Done(result: Result)

  /** History: the one claim that ever succeeded on an action. */
  datatype Claim = Claim(call: CallId, director: DirectorId, guess: nat, at: Time)

  datatype State = State(rows: map<ActionId, Action>, calls: map<CallId, Pc>, claims: map<ActionId, Claim>)

  const EMPTY := State(map[], map[], map[])

  const RETRIES := 10

  datatype Event =
    | Create(id: ActionId, secret: nat, expiresAt: Time, maxAttempts: nat)
    | LoadForConfirm(call: CallId, id: ActionId, director: DirectorId, guess: nat, now: Time)
    | LoadForReject(call: CallId, id: ActionId, director: DirectorId, now: Time)
    | FindPending(call: CallId)
    | Expire(call: CallId)
    | Read(call: CallId)
    | Swap(call: CallId)
    | TryClaim(call: CallId, now: Time)
    | Execute(call: CallId, ok: bool)
    | Downgrade(call: CallId)
    | Reject(call: CallId)
    | ListNext(call: CallId, id: ActionId, now: Time)
    | Throw(call: CallId)

  /** loadAndExpireIfNeeded and the checks of `confirm` on what it returned. */
  function AfterLoad(rows: map<ActionId, Action>, id: ActionId, director: DirectorId, guess: nat, now: Time): Pc {
    if id !in rows then Done(NotFound)
    else if rows[id].status != Pending then Done(AlreadyResolved)
    else if rows[id].expiresAt < now then Expiring(id)
    else if guess != rows[id].secret then Reading(id, 0)
    else Claiming(id, director, guess)
  }

  function AfterRejectLoad(rows: map<ActionId, Action>, id: ActionId, director: DirectorId, now: Time): Pc {
    if id !in rows then Done(NotFound)
    else if rows[id].status != Pending then Done(AlreadyResolved)
    else if rows[id].expiresAt < now then Expiring(id)
    else Rejecting(id, director)
  }

  function PendingIds(rows: map<ActionId, Action>): set<ActionId> { set id | id in rows && rows[id].status == Pending }

  function ListPc(todo: set<ActionId>): Pc { if todo == {} then Done(Listed) else Listing(todo) }

  function SetPc(s: State, c: CallId, pc: Pc): State { s.(calls := s.calls[c := pc]) }

  /** An update by id alone. */
  function SetStatus(rows: map<ActionId, Action>, id: ActionId, status: Status): map<ActionId, Action> {
    if id in rows then rows[id := rows[id].(status := status)] else rows
  }

  predicate CanRead(s: State, c: CallId) { c in s.calls && s.calls[c].Reading? }

  function ReadStep(s: State, c: CallId): State
    requires CanRead(s, c)
  {
    var pc := s.calls[c];
    SetPc(s, c, if pc.id in s.rows && s.rows[pc.id].status == Pending
                then Swapping(pc.id, pc.retry, s.rows[pc.id].attempts, s.rows[pc.id].maxAttempts)
                else Done(AlreadyResolved))
  }

  predicate CanSwap(s: State, c: CallId) { c in s.calls && s.calls[c].Swapping? }

  predicate SwapWins(s: State, c: CallId)
    requires CanSwap(s, c)
  {
    var pc := s.calls[c];
    pc.id in s.rows && s.rows[pc.id].status == Pending && s.rows[pc.id].attempts == pc.seen
  }

  function SwapStep(s: State, c: CallId): State
    requires CanSwap(s, c)
  {
    var pc := s.calls[c];
    if SwapWins(s, c) then
      var exhausted := pc.seen + 1 >= pc.max;
      SetPc(s.(rows := s.rows[pc.id := s.rows[pc.id].(attempts := pc.seen + 1, status := if exhausted
        then Failed else Pending)]),
            c, Done(WrongCode(pc.id, pc.seen + 1, exhausted)))
    else if pc.retry + 1 < RETRIES then SetPc(s, c, Reading(pc.id, pc.retry + 1))
    else SetPc(s, c, Done(ConcurrentUpdate(pc.id)))
  }

  predicate CanClaim(s: State, c: CallId) { c in s.calls && s.calls[c].Claiming? }

  predicate ClaimWins(s: State, c: CallId, now: Time)
    requires CanClaim(s, c)
  {
    var id := s.calls[c].id;
    id in s.rows && s.rows[id].status == Pending && now < s.rows[id].expiresAt
  }

  function ClaimStep(s: State, c: CallId, now: Time): State
    requires CanClaim(s, c)
  {
    var pc := s.calls[c];
    if ClaimWins(s, c, now) then
      SetPc(s.(rows := s.rows[pc.id := s.rows[pc.id].(status := Confirmed, confirmedBy := Some(pc.director))],
               claims := s.claims[pc.id := Claim(c, pc.director, pc.guess, now)]),
            c, Executing(pc.id, pc.director))
    else SetPc(s, c, Done(AlreadyResolved))
  }

  predicate CanDowngrade(s: State, c: CallId) { c in s.calls && s.calls[c].Downgrading? }

  predicate Downgrades(s: State, c: CallId)
    requires CanDowngrade(s, c)
  {
    var pc := s.calls[c];
    pc.id in s.rows && s.rows[pc.id].status == Confirmed && s.rows[pc.id].confirmedBy == Some(pc.director)
  }

  /** updateMany where id, status is confirmed and confirmedBy is this director. */
  function DowngradeStep(s: State, c: CallId): State
    requires CanDowngrade(s, c)
  {
    var pc := s.calls[c];
    SetPc(if Downgrades(s, c)
      then s.(rows := s.rows[pc.id := s.rows[pc.id].(status := Failed, confirmedBy := None)]) else s,
          c, Done(ExecutionFailed(pc.id)))
  }

  function ListStep(s: State, c: CallId, id: ActionId, now: Time): State
    requires c in s.calls && s.calls[c].Listing? && id in s.calls[c].todo
  {
    SetPc(if id in s.rows && s.rows[id].expiresAt < now then s.(rows := SetStatus(s.rows, id, Expired)) else s,
          c, ListPc(s.calls[c].todo - {id}))
  }

  function Step(s: State, e: Event): State {
    match e
    case Create(id, secret, expiresAt, max) =>
      if id in s.rows then s else s.(rows := s.rows[id := Action(secret, expiresAt, max, 0, Pending, None)])
    case LoadForConfirm(c, id, director, guess, now) =>
      if c in s.calls then s else SetPc(s, c, AfterLoad(s.rows, id, director, guess, now))
    case LoadForReject(c, id, director, now) =>
      if c in s.calls then s else SetPc(s, c, AfterRejectLoad(s.rows, id, director, now))
    case FindPending(c) => if c in s.calls then s else SetPc(s, c, ListPc(PendingIds(s.rows)))
    case Expire(c) =>
      if c in s.calls && s.calls[c].Expiring? then
        SetPc(s.(rows := SetStatus(s.rows, s.calls[c].id, Expired)), c, Done(AlreadyResolved))
      else s
    case Read(c) => if CanRead(s, c) then ReadStep(s, c) else s
    case Swap(c) => if CanSwap(s, c) then SwapStep(s, c) else s
    case TryClaim(c, now) => if CanClaim(s, c) then ClaimStep(s, c, now) else s
    case Execute(c, ok) =>
      if c in s.calls && s.calls[c].Executing? then
        SetPc(s, c, if ok then Done(Executed(s.calls[c].id)) else Downgrading(s.calls[c].id, s.calls[c].director))
      else s
    case Downgrade(c) => if CanDowngrade(s, c) then DowngradeStep(s, c) else s
    case Reject(c) =>
      if c in s.calls && s.calls[c].Rejecting? then
        SetPc(s.(rows := SetStatus(s.rows, s.calls[c].id, Rejected)), c, Done(RejectDone))
      else s
    case ListNext(c, id, now) =>
      if c in s.calls && s.calls[c].Listing? && id in s.calls[c].todo then ListStep(s, c, id, now) else s
    case Throw(c) => if c in s.calls && !s.calls[c].Done? then SetPc(s, c, Done(Aborted)) else s
  }

  function Run(s: State, es: seq<Event>): State
    decreases |es|
  {
    if es == [] then s else Run(Step(s, es[0]), es[1..])
  }

  // --- The invariant -------------------------------------------------------------------

  function CountedCalls(s: State, id: ActionId): set<CallId> {
    set c | c in s.calls && s.calls[c].Done? && s.calls[c].result.WrongCode? && s.calls[c].result.id == id
  }

  /** A pending action always has a guess left (a limit of zero is never reached). */
  predicate GuessLeft(attempts: nat, max: nat) { attempts < max || (max == 0 && attempts == 0) }

  predicate RowInv(s: State, id: ActionId)
    requires id in s.rows
  {
    var row := s.rows[id];
    && |CountedCalls(s, id)| == row.attempts
    && (row.status == Pending ==> GuessLeft(row.attempts, row.maxAttempts) && id !in s.claims)
    && (row.status == Confirmed ==> id in s.claims && row.confirmedBy == Some(s.claims[id].director))
    && (id in s.claims ==> s.claims[id].guess == row.secret && s.claims[id].at < row.expiresAt)
  }

  predicate Claimed(s: State, c: CallId, id: ActionId) { id in s.claims && s.claims[id].call == c }

  predicate CallInv(s: State, c: CallId)
    requires c in s.calls
  {
    match s.calls[c]
    case Reading(id, retry) =>
      id in s.rows && retry < RETRIES && (s.rows[id].status == Pending ==> retry <= s.rows[id].attempts)
    case Swapping(id, retry, seen, max) =>
      && id in s.rows && retry < RETRIES && retry <= seen && max == s.rows[id].maxAttempts && GuessLeft(seen, max)
      && (s.rows[id].status == Pending ==> seen <= s.rows[id].attempts)
    case Claiming(id, _, guess) => id in s.rows && guess == s.rows[id].secret
    case Executing(id, director) => id in s.rows && Claimed(s, c, id) && s.claims[id].director == director
    case Downgrading(id, director) => id in s.rows && Claimed(s, c, id) && s.claims[id].director == director
    case Expiring(id) => id in s.rows
    case Rejecting(id, _) => id in s.rows
    case Listing(todo) => todo <= s.rows.Keys
    case Done(result) =>
      match result
      case Executed(id) => id in s.rows && Claimed(s, c, id)
      case ExecutionFailed(id) => id in s.rows && Claimed(s, c, id)
      case ConcurrentUpdate(id) => id in s.rows && RETRIES <= s.rows[id].maxAttempts
      case WrongCode(id, nth, exhausted) =>
        id in s.rows && 0 < nth <= s.rows[id].attempts && (exhausted <==> nth >= s.rows[id].maxAttempts)
      case _ => true
  }

  ghost predicate Inv(s: State) {
    && s.claims.Keys <= s.rows.Keys
    && (forall id {:trigger RowInv(s, id)} :: id in s.rows ==> RowInv(s, id))
    && (forall c {:trigger CallInv(s, c)} :: c in s.calls ==> CallInv(s, c))
  }

  lemma CreateKeeps(s: State, e: Event)
    requires Inv(s) && e.Create?
    ensures Inv(Step(s, e))
  {
    var s' := Step(s, e);
    if e.id !in s.rows {
      forall c | c in s'.calls ensures CallInv(s', c) { assert CallInv(s, c); }
      forall id | id in s'.rows ensures RowInv(s', id) {
        assert CountedCalls(s', id) == CountedCalls(s, id);
        if id != e.id {
          assert RowInv(s, id);
        } else {
          forall c | c in s.calls ensures c !in CountedCalls(s, id) { assert CallInv(s, c); }
          assert CountedCalls(s, id) == {};
        }
      }
    }
  }

  /** A call moves on without a write, and not into or out of a counted guess. */
  lemma MoveKeeps(s: State, c: CallId, pc: Pc)
    requires Inv(s) && CallInv(s.(calls := s.calls[c := pc]), c)
    requires !(pc.Done? && pc.result.WrongCode?) && (c in s.calls ==> !s.calls[c].Done?)
    ensures Inv(SetPc(s, c, pc))
  {
    var s' := SetPc(s, c, pc);
    forall id | id in s'.rows ensures RowInv(s', id) {
      assert RowInv(s, id);
      assert CountedCalls(s', id) == CountedCalls(s, id);
    }
    forall d | d in s'.calls ensures CallInv(s', d) { if d != c { assert CallInv(s, d); } }
  }

  /** The writes by id only: they never make an action pending or confirmed. */
  lemma OverwriteKeeps(s: State, id: ActionId, status: Status)
    requires Inv(s) && status != Pending && status != Confirmed
    ensures Inv(s.(rows := SetStatus(s.rows, id, status)))
  {
    var s' := s.(rows := SetStatus(s.rows, id, status));
    assert s'.rows.Keys == s.rows.Keys;
    forall x | x in s'.rows ensures RowInv(s', x) {
      assert RowInv(s, x);
      assert CountedCalls(s', x) == CountedCalls(s, x);
    }
    forall d | d in s'.calls ensures CallInv(s', d) { assert CallInv(s, d); }
  }

  lemma ClaimKeeps(s: State, c: CallId, now: Time)
    requires Inv(s) && CanClaim(s, c)
    ensures Inv(ClaimStep(s, c, now))
  {
    assert CallInv(s, c);
    if ClaimWins(s, c, now) {
      var s' := ClaimStep(s, c, now);
      assert RowInv(s, s.calls[c].id);
      forall id | id in s'.rows ensures RowInv(s', id) {
        assert RowInv(s, id);
        assert CountedCalls(s', id) == CountedCalls(s, id);
      }
      forall d | d in s'.calls ensures CallInv(s', d) { if d != c { assert CallInv(s, d); } }
    } else {
      MoveKeeps(s, c, Done(AlreadyResolved));
    }
  }

  lemma SwapKeeps(s: State, c: CallId)
    requires Inv(s) && CanSwap(s, c)
    ensures Inv(SwapStep(s, c))
  {
    assert CallInv(s, c);
    if SwapWins(s, c) {
      var s' := SwapStep(s, c);
      forall id | id in s'.rows ensures RowInv(s', id) { SwapRow(s, c, id); }
      forall d | d in s'.calls ensures CallInv(s', d) { SwapCall(s, c, d); }
    } else {
      assert RowInv(s, s.calls[c].id);
      MoveKeeps(s, c, SwapStep(s, c).calls[c]);
    }
  }

  lemma SwapRow(s: State, c: CallId, id: ActionId)
    requires Inv(s) && CanSwap(s, c) && SwapWins(s, c) && id in s.rows
    ensures RowInv(SwapStep(s, c), id)
  {
    assert CallInv(s, c) && RowInv(s, id);
    if id == s.calls[c].id {
      assert CountedCalls(SwapStep(s, c), id) == CountedCalls(s, id) + {c};
    } else {
      assert CountedCalls(SwapStep(s, c), id) == CountedCalls(s, id);
    }
  }

  lemma SwapCall(s: State, c: CallId, d: CallId)
    requires Inv(s) && CanSwap(s, c) && SwapWins(s, c) && d in s.calls
    ensures CallInv(SwapStep(s, c), d)
  {
    assert CallInv(s, c) && CallInv(s, d);
  }

  lemma DowngradeKeeps(s: State, c: CallId)
    requires Inv(s) && CanDowngrade(s, c)
    ensures Inv(DowngradeStep(s, c))
  {
    assert CallInv(s, c);
    var s' := DowngradeStep(s, c);
    forall id | id in s'.rows ensures RowInv(s', id) {
      assert RowInv(s, id);
      assert CountedCalls(s', id) == CountedCalls(s, id);
    }
    forall d | d in s'.calls ensures CallInv(s', d) { assert CallInv(s, d); }
  }

  lemma StepKeeps(s: State, e: Event)
    requires Inv(s)
    ensures Inv(Step(s, e))
  {
    match e
    case Create(_, _, _, _) => CreateKeeps(s, e);
    case LoadForConfirm(c, id, director, guess, now) =>
      if c !in s.calls { MoveKeeps(s, c, AfterLoad(s.rows, id, director, guess, now)); }
    case LoadForReject(c, id, director, now) =>
      if c !in s.calls { MoveKeeps(s, c, AfterRejectLoad(s.rows, id, director, now)); }
    case FindPending(c) => if c !in s.calls { MoveKeeps(s, c, ListPc(PendingIds(s.rows))); }
    case Expire(c) =>
      if c in s.calls && s.calls[c].Expiring? {
        OverwriteKeeps(s, s.calls[c].id, Expired);
        MoveKeeps(s.(rows := SetStatus(s.rows, s.calls[c].id, Expired)), c, Done(AlreadyResolved));
      }
    case Read(c) => if CanRead(s, c) { ReadKeeps(s, c); }
    case Swap(c) => if CanSwap(s, c) { SwapKeeps(s, c); }
    case TryClaim(c, now) => if CanClaim(s, c) { ClaimKeeps(s, c, now); }
    case Execute(c, ok) =>
      if c in s.calls && s.calls[c].Executing? { assert CallInv(s, c); MoveKeeps(s, c, Step(s, e).calls[c]); }
    case Downgrade(c) => if CanDowngrade(s, c) { DowngradeKeeps(s, c); }
    case Reject(c) =>
      if c in s.calls && s.calls[c].Rejecting? {
        OverwriteKeeps(s, s.calls[c].id, Rejected);
        MoveKeeps(s.(rows := SetStatus(s.rows, s.calls[c].id, Rejected)), c, Done(RejectDone));
      }
    case ListNext(c, id, now) =>
      if c in s.calls && s.calls[c].Listing? && id in s.calls[c].todo { ListKeeps(s, c, id, now); }
    case Throw(c) => if c in s.calls && !s.calls[c].Done? { MoveKeeps(s, c, Done(Aborted)); }
  }

  lemma ReadKeeps(s: State, c: CallId)
    requires Inv(s) && CanRead(s, c)
    ensures Inv(ReadStep(s, c))
  {
    assert CallInv(s, c) && RowInv(s, s.calls[c].id);
    MoveKeeps(s, c, ReadStep(s, c).calls[c]);
  }

  lemma ListKeeps(s: State, c: CallId, id: ActionId, now: Time)
    requires Inv(s) && c in s.calls && s.calls[c].Listing? && id in s.calls[c].todo
    ensures Inv(ListStep(s, c, id, now))
  {
    assert CallInv(s, c);
    var t := if id in s.rows && s.rows[id].expiresAt < now then s.(rows := SetStatus(s.rows, id, Expired)) else s;
    OverwriteKeeps(s, id, Expired);
    MoveKeeps(t, c, ListPc(s.calls[c].todo - {id}));
  }

  lemma {:induction false} RunKeeps(s: State, es: seq<Event>)
    requires Inv(s)
    ensures Inv(Run(s, es))
    decreases |es|
  {
    if es != [] {
      StepKeeps(s, es[0]);
      RunKeeps(Step(s, es[0]), es[1..]);
    }
  }

  lemma {:induction false} RunSplits(s: State, es: seq<Event>, fs: seq<Event>)
    ensures Run(s, es + fs) == Run(Run(s, es), fs)
    decreases |es|
  {
    if es == [] {
      assert es + fs == fs;
    } else {
      assert (es + fs)[1..] == es[1..] + fs;
      RunSplits(Step(s, es[0]), es[1..], fs);
    }
  }
}
