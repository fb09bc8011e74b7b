/**
 * Refresh-token rotation as a state machine whose steps are single database
 * statements, so that the calls of src/auth/refresh-token.service.ts and their
 * callers interleave freely.
 *
 * One `TokenId` stands for a row's id, for its secret and for the hash of that
 * secret: secrets are fresh and the hash is injective. A secret leaves the server
 * only in the answer of a successful login or rotation, so only `released`
 * tokens (and secrets of no row at all) can be presented.
 */
module RefreshTokens {
  import opened Options

  type TokenId = nat
  type FamilyId = nat
  type UserId = nat
  type CallId = nat
  type Time = int

  datatype Reason = ByRotation | ByReuse | ByLogout | ByPasswordChange | ByDisable

  datatype Token = Token(
    family: FamilyId,
    user: UserId,
    expiresAt: Time,
    revokedAt: Option<Time>,
    reason: Option<Reason>,
    replacedBy: Option<TokenId>)

  /** The `where` of an updateMany: a whole family or everything a user owns. */
  datatype Scope = OfFamily(family: FamilyId) | OfUser(user: UserId)

  datatype Outcome =
    | Invalid                       // no such row
    | Expired
    | Reused(family: FamilyId)      // handleReuse has burnt the family
    | AccountDisabled
    | Success(next: TokenId)
    | Finished                      // logout or disable is over

  /** Where a call stands: the statement it will execute next. */
  datatype Pc =
    | Issuing(existing: Token)
    | Claiming(existing: Token, next: TokenId)
    | CheckingAccount(token: Token, next: TokenId)
    | Revoking(scope: Scope, reason: Reason, answer: Outcome)
    | Done(outcome: Outcome)
    | Failed                        // a statement threw; the call is abandoned

  /** A rotation carries the secret it was called with; logout and disable do not. */
  datatype Call =
    | Rotation(presented: TokenId, pc: Pc)
    | Other(pc: Pc)

  /** History: who created a row, and how many rows there were before it. */
  datatype Birth =
    | ByLogin(index: nat)
    | ByRotate(call: CallId, parent: TokenId, index: nat)

  /** History: the owner, the login token and the last released token of a family. */
  datatype Lineage = Lineage(user: UserId, root: TokenId, tip: TokenId)

  datatype State = State(
    rows: map<TokenId, Token>,
    disabled: set<UserId>,
    calls: map<CallId, Call>,
    released: set<TokenId>,
    births: map<TokenId, Birth>,
    families: map<FamilyId, Lineage>)

  const EMPTY := State(map[], {}, map[], {}, map[], map[])

  datatype Event =
    | Login(id: TokenId, fam: FamilyId, user: UserId, expiresAt: Time)
    | Find(call: CallId, secret: TokenId, now: Time)
    | Issue(call: CallId, id: TokenId, expiresAt: Time)
    | Claim(call: CallId, now: Time)
    | CheckAccount(call: CallId)
    | FindForLogout(call: CallId, secret: TokenId)
    | Disable(call: CallId, user: UserId)
    | Revoke(call: CallId, now: Time)
    | RevokeUser(user: UserId, now: Time, reason: Reason)
    | Throw(call: CallId)

  predicate InScope(t: Token, scope: Scope) {
    match scope
    case OfFamily(f) => t.family == f
    case OfUser(u) => t.user == u
  }

  /** updateMany where scope and revokedAt is null. */
  function RevokeScope(rows: map<TokenId, Token>, scope: Scope, now: Time, reason: Reason): map<TokenId, Token> {
    map id | id in rows ::
      if InScope(rows[id], scope) && rows[id].revokedAt.None?
      then rows[id].(revokedAt := Some(now), reason := Some(reason))
      else rows[id]
  }

  function FreshToken(family: FamilyId, user: UserId, expiresAt: Time): Token {
    Token(family, user, expiresAt, None, None, None)
  }

  /** What `rotate` does after its findUnique. */
  function AfterFind(rows: map<TokenId, Token>, secret: TokenId, now: Time): Pc {
    if secret !in rows then Done(Invalid)
    else if rows[secret].revokedAt.Some? then
      Revoking(OfFamily(rows[secret].family), ByReuse, Reused(rows[secret].family))
    else if rows[secret].expiresAt < now then Done(Expired)
    else Issuing(rows[secret])
  }

  predicate Presentable(s: State, secret: TokenId) { secret in s.rows ==> secret in s.released }

  function SetPc(s: State, c: CallId, pc: Pc): State
    requires c in s.calls
  {
    s.(calls := s.calls[c := s.calls[c].(pc := pc)])
  }

  predicate RotationAt(s: State, c: CallId) { c in s.calls && s.calls[c].Rotation? }

  predicate CanLogin(s: State, id: TokenId, fam: FamilyId) { id !in s.rows && fam !in s.families }

  function LoginStep(s: State, id: TokenId, fam: FamilyId, user: UserId, expiresAt: Time): State
    requires CanLogin(s, id, fam)
  {
    s.(rows := s.rows[id := FreshToken(fam, user, expiresAt)],
       released := s.released + {id},
       births := s.births[id := ByLogin(|s.rows|)],
       families := s.families[fam := Lineage(user, id, id)])
  }

  predicate CanIssue(s: State, c: CallId, id: TokenId) {
    RotationAt(s, c) && s.calls[c].pc.Issuing? && id !in s.rows
  }

  function IssueStep(s: State, c: CallId, id: TokenId, expiresAt: Time): State
    requires CanIssue(s, c, id)
  {
    var existing := s.calls[c].pc.existing;
    SetPc(s.(rows := s.rows[id := FreshToken(existing.family, existing.user, expiresAt)],
             births := s.births[id := ByRotate(c, s.calls[c].presented, |s.rows|)]),
          c, Claiming(existing, id))
  }

  predicate CanClaim(s: State, c: CallId) { RotationAt(s, c) && s.calls[c].pc.Claiming? }

  predicate ClaimWins(s: State, c: CallId)
    requires CanClaim(s, c)
  {
    s.calls[c].presented in s.rows && s.rows[s.calls[c].presented].revokedAt.None?
  }

  function WinStep(s: State, c: CallId, now: Time): State
    requires CanClaim(s, c) && ClaimWins(s, c)
  {
    var used := s.calls[c].presented;
    var next := s.calls[c].pc.next;
    var fam := s.calls[c].pc.existing.family;
    SetPc(s.(rows := s.rows[used := s.rows[used].(revokedAt := Some(now), reason := Some(ByRotation),
      replacedBy := Some(next))],
             released := s.released + {next},
             families := if fam in s.families then s.families[fam := s.families[fam].(tip := next)] else s.families),
          c, CheckingAccount(s.calls[c].pc.existing, next))
  }

  /** The conditional update `where id and revokedAt is null`; P2025 leads to handleReuse. */
  function ClaimStep(s: State, c: CallId, now: Time): State
    requires CanClaim(s, c)
  {
    if ClaimWins(s, c) then WinStep(s, c, now)
    else
      var fam := s.calls[c].pc.existing.family;
      SetPc(s, c, Revoking(OfFamily(fam), ByReuse, Reused(fam)))
  }

  predicate CanCheck(s: State, c: CallId) { c in s.calls && s.calls[c].pc.CheckingAccount? }

  function CheckStep(s: State, c: CallId): State
    requires CanCheck(s, c)
  {
    var pc := s.calls[c].pc;
    SetPc(s, c, if pc.token.user in s.disabled
                then Revoking(OfFamily(pc.token.family), ByDisable, AccountDisabled)
                else Done(Success(pc.next)))
  }

  predicate CanRevoke(s: State, c: CallId) { c in s.calls && s.calls[c].pc.Revoking? }

  function RevokeStep(s: State, c: CallId, now: Time): State
    requires CanRevoke(s, c)
  {
    var pc := s.calls[c].pc;
    SetPc(s.(rows := RevokeScope(s.rows, pc.scope, now, pc.reason)), c, Done(pc.answer))
  }

  function LogoutPc(s: State, secret: TokenId): Pc {
    if secret in s.rows then Revoking(OfFamily(s.rows[secret].family), ByLogout, Finished) else Done(Finished)
  }

  /** One statement of one call; a statement that no call is about to execute changes nothing. */
  function Step(s: State, e: Event): State {
    match e
    case Login(id, fam, user, expiresAt) => if CanLogin(s, id, fam) then LoginStep(s, id, fam, user, expiresAt) else s
    case Find(c, secret, now) =>
      if c in s.calls || !Presentable(s, secret) then s
      else s.(calls := s.calls[c := Rotation(secret, AfterFind(s.rows, secret, now))])
    case Issue(c, id, expiresAt) => if CanIssue(s, c, id) then IssueStep(s, c, id, expiresAt) else s
    case Claim(c, now) => if CanClaim(s, c) then ClaimStep(s, c, now) else s
    case CheckAccount(c) => if CanCheck(s, c) then CheckStep(s, c) else s
    case FindForLogout(c, secret) =>
      if c in s.calls || !Presentable(s, secret) then s
      else s.(calls := s.calls[c := Other(LogoutPc(s, secret))])
    case Disable(c, user) =>
      if c in s.calls then s
      else s.(disabled := s.disabled + {user},
              calls := s.calls[c := Other(Revoking(OfUser(user), ByDisable, Finished))])
    case Revoke(c, now) => if CanRevoke(s, c) then RevokeStep(s, c, now) else s
    case RevokeUser(user, now, reason) => s.(rows := RevokeScope(s.rows, OfUser(user), now, reason))
    case Throw(c) => if c in s.calls && !s.calls[c].pc.Done? then SetPc(s, c, Failed) else s
  }

  function Run(s: State, es: seq<Event>): State
    decreases |es|
  {
    if es == [] then s else Run(Step(s, es[0]), es[1..])
  }

  // ---------------------------------------------------------------------------
  // The invariant
  // ---------------------------------------------------------------------------

  predicate Live(s: State, id: TokenId) { id in s.rows && s.rows[id].revokedAt.None? }

  /** The last token of f that reached a client is revoked. */
  predicate Dead(s: State, f: FamilyId) { f in s.families && !Live(s, s.families[f].tip) }

  predicate Link(s: State, parent: TokenId, next: TokenId) {
    parent in s.rows && s.rows[parent].replacedBy == Some(next)
  }

  predicate BelongsTo(s: State, id: TokenId, f: FamilyId) { id in s.rows && s.rows[id].family == f }

  predicate Frame(s: State) { s.births.Keys == s.rows.Keys && s.released <= s.rows.Keys }

  predicate RowInv(s: State, id: TokenId)
    requires id in s.rows && Frame(s)
  {
    var t := s.rows[id];
    && s.births[id].index < |s.rows|
    && t.family in s.families
    && t.user == s.families[t.family].user
    && (id in s.released && t.revokedAt.None? ==> s.families[t.family].tip == id)
    && (t.replacedBy.Some? ==> t.revokedAt.Some? && LinkInv(s, id, t.replacedBy.value))
    && match s.births[id]
       case ByLogin(_) => id in s.released && s.families[t.family].root == id
       case ByRotate(c, parent, _) =>
         && c in s.calls
         && parent in s.released && BelongsTo(s, parent, t.family)
         && s.births[parent].index < s.births[id].index
         && (id in s.released ==> Link(s, parent, id))
         && (id !in s.released && t.revokedAt.None? ==> Attended(s, id, c))
  }

  predicate LinkInv(s: State, id: TokenId, next: TokenId)
    requires id in s.rows && Frame(s)
  {
    && id in s.released && next in s.released
    && BelongsTo(s, next, s.rows[id].family)
    && s.births[next].ByRotate? && s.births[next].parent == id
  }

  predicate FamilyInv(s: State, f: FamilyId)
    requires f in s.families
  {
    && BelongsTo(s, s.families[f].tip, f) && s.families[f].tip in s.released
    && BelongsTo(s, s.families[f].root, f) && s.families[f].root in s.released
  }

  /** An unrevoked token nobody has received yet is still its call's business. */
  predicate Attended(s: State, id: TokenId, c: CallId)
    requires id in s.rows && c in s.calls
  {
    match s.calls[c].pc
    case Claiming(_, next) => next == id
    case Revoking(scope, _, _) => InScope(s.rows[id], scope)
    case Failed => true
    case _ => false
  }

  predicate Copies(s: State, id: TokenId, t: Token) {
    id in s.rows && s.rows[id].family == t.family && s.rows[id].user == t.user
  }

  predicate BornBy(s: State, id: TokenId, c: CallId, parent: TokenId) {
    id in s.births && s.births[id].ByRotate? && s.births[id].call == c && s.births[id].parent == parent
  }

  /** What is known about a rotation from its position alone. */
  predicate RotationInv(s: State, c: CallId, presented: TokenId, pc: Pc) {
    match pc
    case Issuing(existing) => presented in s.released && Copies(s, presented, existing)
    case Claiming(existing, next) =>
      && presented in s.released && Copies(s, presented, existing)
      && Copies(s, next, existing) && next !in s.released && BornBy(s, next, c, presented)
    case CheckingAccount(token, next) =>
      Link(s, presented, next) && Copies(s, next, token) && BornBy(s, next, c, presented)
    case Revoking(scope, _, answer) =>
      && presented in s.released && presented in s.rows && scope == OfFamily(s.rows[presented].family)
      && (answer.AccountDisabled? || answer == Reused(s.rows[presented].family))
    case Done(outcome) =>
      && (outcome.Reused? || outcome.AccountDisabled? ==>
            presented in s.released && presented in s.rows && Dead(s, s.rows[presented].family))
      && (outcome.Reused? ==> outcome.family == s.rows[presented].family)
      && (outcome.Success? ==> Link(s, presented, outcome.next) && BornBy(s, outcome.next, c, presented))
      && !outcome.Finished?
    case Failed => true
  }

  predicate CallInv(s: State, c: CallId)
    requires c in s.calls
  {
    s.calls[c].Rotation? ==> RotationInv(s, c, s.calls[c].presented, s.calls[c].pc)
  }

  ghost predicate Inv(s: State) {
    && Frame(s)
    && (forall id {:trigger RowInv(s, id)} :: id in s.rows ==> RowInv(s, id))
    && (forall f {:trigger FamilyInv(s, f)} :: f in s.families ==> FamilyInv(s, f))
    && (forall c {:trigger CallInv(s, c)} :: c in s.calls ==> CallInv(s, c))
  }

  // One row, one family or one call at a time: what each kind of statement keeps.

  lemma LoginKeeps(s: State, id: TokenId, fam: FamilyId, user: UserId, expiresAt: Time)
    requires Inv(s) && CanLogin(s, id, fam)
    ensures Inv(LoginStep(s, id, fam, user, expiresAt))
  {
    var s' := LoginStep(s, id, fam, user, expiresAt);
    forall x | x in s'.rows ensures RowInv(s', x) { if x != id { LoginRow(s, id, fam, user, expiresAt, x); } }
    forall f | f in s'.families ensures FamilyInv(s', f) { if f != fam { assert FamilyInv(s, f); } }
    forall c | c in s'.calls ensures CallInv(s', c) { LoginCall(s, id, fam, user, expiresAt, c); }
  }

  lemma LoginRow(s: State, id: TokenId, fam: FamilyId, user: UserId, expiresAt: Time, x: TokenId)
    requires Frame(s) && CanLogin(s, id, fam)
    requires x in s.rows && RowInv(s, x)
    ensures RowInv(LoginStep(s, id, fam, user, expiresAt), x)
  {
  }

  lemma LoginCall(s: State, id: TokenId, fam: FamilyId, user: UserId, expiresAt: Time, c: CallId)
    requires Inv(s) && CanLogin(s, id, fam) && c in s.calls
    ensures CallInv(LoginStep(s, id, fam, user, expiresAt), c)
  {
    assert CallInv(s, c);
    var call := s.calls[c];
    if call.Rotation? && call.pc.Done? && call.presented in s.rows && s.rows[call.presented].family in s.families {
      assert FamilyInv(s, s.rows[call.presented].family);
    }
  }

  /** A call begins: only the calls and the disabled accounts change. */
  lemma BeginKeeps(s: State, c: CallId, call: Call, disabled: set<UserId>)
    requires Inv(s) && c !in s.calls
    requires call.Rotation? ==> Presentable(s, call.presented) && exists now ::
               call.pc == AfterFind(s.rows, call.presented, now)
    ensures Inv(s.(calls := s.calls[c := call], disabled := disabled))
  {
    var s' := s.(calls := s.calls[c := call], disabled := disabled);
    forall x | x in s'.rows ensures RowInv(s', x) { BeginRow(s, c, call, disabled, x); }
    forall f | f in s'.families ensures FamilyInv(s', f) { assert FamilyInv(s, f); }
    forall d | d in s'.calls ensures CallInv(s', d) { if d != c { assert CallInv(s, d); } }
  }

  lemma BeginRow(s: State, c: CallId, call: Call, disabled: set<UserId>, x: TokenId)
    requires Frame(s) && c !in s.calls && x in s.rows && RowInv(s, x)
    ensures RowInv(s.(calls := s.calls[c := call], disabled := disabled), x)
  {
  }

  lemma IssueKeeps(s: State, c: CallId, id: TokenId, expiresAt: Time)
    requires Inv(s) && CanIssue(s, c, id)
    ensures Inv(IssueStep(s, c, id, expiresAt))
  {
    var s' := IssueStep(s, c, id, expiresAt);
    assert CallInv(s, c) && RowInv(s, s.calls[c].presented);
    forall x | x in s'.rows ensures RowInv(s', x) { if x != id { IssueRow(s, c, id, expiresAt, x); } }
    forall f | f in s'.families ensures FamilyInv(s', f) { assert FamilyInv(s, f); }
    forall d | d in s'.calls ensures CallInv(s', d) { IssueCall(s, c, id, expiresAt, d); }
  }

  lemma IssueRow(s: State, c: CallId, id: TokenId, expiresAt: Time, x: TokenId)
    requires Frame(s) && CanIssue(s, c, id) && x in s.rows && RowInv(s, x)
    ensures RowInv(IssueStep(s, c, id, expiresAt), x)
  {
  }

  lemma IssueCall(s: State, c: CallId, id: TokenId, expiresAt: Time, d: CallId)
    requires Inv(s) && CanIssue(s, c, id) && d in s.calls
    ensures CallInv(IssueStep(s, c, id, expiresAt), d)
  {
    assert CallInv(s, d);
    var call := s.calls[d];
    if call.Rotation? && call.pc.Done? && call.presented in s.rows && s.rows[call.presented].family in s.families {
      assert FamilyInv(s, s.rows[call.presented].family);
    }
  }

  lemma WinKeeps(s: State, c: CallId, now: Time)
    requires Inv(s) && CanClaim(s, c) && ClaimWins(s, c)
    ensures Inv(WinStep(s, c, now))
  {
    var s' := WinStep(s, c, now);
    assert CallInv(s, c) && RowInv(s, s.calls[c].presented) && RowInv(s, s.calls[c].pc.next);
    forall x | x in s'.rows ensures RowInv(s', x) { assert RowInv(s, x); WinRow(s, c, now, x); }
    forall f | f in s'.families ensures FamilyInv(s', f) { assert FamilyInv(s, f); }
    forall d | d in s'.calls ensures CallInv(s', d) { WinCall(s, c, now, d); }
  }

  lemma WinRow(s: State, c: CallId, now: Time, x: TokenId)
    requires Frame(s) && CanClaim(s, c) && ClaimWins(s, c) && CallInv(s, c)
    requires RowInv(s, s.calls[c].presented) && RowInv(s, s.calls[c].pc.next)
    requires x in s.rows && RowInv(s, x)
    ensures RowInv(WinStep(s, c, now), x)
  {
  }

  lemma WinCall(s: State, c: CallId, now: Time, d: CallId)
    requires Inv(s) && CanClaim(s, c) && ClaimWins(s, c) && d in s.calls
    ensures CallInv(WinStep(s, c, now), d)
  {
    assert CallInv(s, c) && CallInv(s, d) && RowInv(s, s.calls[c].presented);
  }

  /** A call moves on without touching a row. */
  lemma MoveKeeps(s: State, c: CallId, pc: Pc)
    requires Inv(s) && c in s.calls
    requires s.calls[c].Rotation? ==> RotationInv(s, c, s.calls[c].presented, pc)
    requires forall x ::
               x in s.rows && s.births[x].ByRotate? && s.births[x].call == c && x !in s.released && Live(s, x) ==>
                           pc.Failed? || (pc.Revoking? && InScope(s.rows[x], pc.scope))
    ensures Inv(SetPc(s, c, pc))
  {
    var s' := SetPc(s, c, pc);
    forall x | x in s'.rows ensures RowInv(s', x) { assert RowInv(s, x); }
    forall f | f in s'.families ensures FamilyInv(s', f) { assert FamilyInv(s, f); }
    forall d | d in s'.calls ensures CallInv(s', d) { assert CallInv(s, d); }
  }

  /** A mass revocation, by a call that is then done or as a statement of its own. */
  lemma RevokeUserKeeps(s: State, user: UserId, now: Time, reason: Reason)
    requires Inv(s)
    ensures Inv(s.(rows := RevokeScope(s.rows, OfUser(user), now, reason)))
  {
    var s' := s.(rows := RevokeScope(s.rows, OfUser(user), now, reason));
    forall x | x in s'.rows ensures RowInv(s', x) { assert RowInv(s, x); RevokeRow(s, OfUser(user), now, reason, x); }
    forall f | f in s'.families ensures FamilyInv(s', f) { assert FamilyInv(s, f); }
    forall c | c in s'.calls ensures CallInv(s', c) { RevokeCall(s, OfUser(user), now, reason, c); }
  }

  lemma RevokeRow(s: State, scope: Scope, now: Time, reason: Reason, x: TokenId)
    requires Frame(s) && x in s.rows && RowInv(s, x)
    ensures Frame(s.(rows := RevokeScope(s.rows, scope, now, reason)))
    ensures RowInv(s.(rows := RevokeScope(s.rows, scope, now, reason)), x)
  {
    var s' := s.(rows := RevokeScope(s.rows, scope, now, reason));
    assert s'.rows.Keys == s.rows.Keys;
  }

  lemma RevokeCall(s: State, scope: Scope, now: Time, reason: Reason, c: CallId)
    requires Inv(s) && c in s.calls
    ensures CallInv(s.(rows := RevokeScope(s.rows, scope, now, reason)), c)
  {
    assert CallInv(s, c);
  }

  lemma RevokeKeeps(s: State, c: CallId, now: Time)
    requires Inv(s) && CanRevoke(s, c)
    ensures Inv(RevokeStep(s, c, now))
  {
    var pc := s.calls[c].pc;
    var r := s.(rows := RevokeScope(s.rows, pc.scope, now, pc.reason));
    var s' := RevokeStep(s, c, now);
    forall x | x in s'.rows ensures RowInv(s', x) {
      assert RowInv(s, x);
      RevokeRow(s, pc.scope, now, pc.reason, x);
      assert RowInv(r, x);
    }
    forall f | f in s'.families ensures FamilyInv(s', f) { assert FamilyInv(s, f); }
    forall d | d in s'.calls ensures CallInv(s', d) {
      RevokeCall(s, pc.scope, now, pc.reason, d);
      if d == c { RevokeDone(s, c, now); }
    }
  }

  lemma RevokeDone(s: State, c: CallId, now: Time)
    requires Inv(s) && CanRevoke(s, c)
    ensures CallInv(RevokeStep(s, c, now), c)
  {
    assert CallInv(s, c);
    var call := s.calls[c];
    if call.Rotation? {
      assert RowInv(s, call.presented);
      var f := s.rows[call.presented].family;
      assert FamilyInv(s, f);
    }
  }

  lemma StepKeeps(s: State, e: Event)
    requires Inv(s)
    ensures Inv(Step(s, e))
  {
    match e
    case Login(id, fam, user, expiresAt) => if CanLogin(s, id, fam) { LoginKeeps(s, id, fam, user, expiresAt); }
    case Find(c, secret, now) =>
      if c !in s.calls && Presentable(s, secret) {
        BeginKeeps(s, c, Rotation(secret, AfterFind(s.rows, secret, now)), s.disabled);
      }
    case Issue(c, id, expiresAt) => if CanIssue(s, c, id) { IssueKeeps(s, c, id, expiresAt); }
    case Claim(c, now) => if CanClaim(s, c) { ClaimKeeps(s, c, now); }
    case CheckAccount(c) => if CanCheck(s, c) { CheckKeeps(s, c); }
    case FindForLogout(c, secret) =>
      if c !in s.calls && Presentable(s, secret) { BeginKeeps(s, c, Other(LogoutPc(s, secret)), s.disabled); }
    case Disable(c, user) =>
      if c !in s.calls { BeginKeeps(s, c, Other(Revoking(OfUser(user), ByDisable, Finished)), s.disabled + {user}); }
    case Revoke(c, now) => if CanRevoke(s, c) { RevokeKeeps(s, c, now); }
    case RevokeUser(user, now, reason) => RevokeUserKeeps(s, user, now, reason);
    case Throw(c) => if c in s.calls && !s.calls[c].pc.Done? { MoveKeeps(s, c, Failed); }
  }

  lemma ClaimKeeps(s: State, c: CallId, now: Time)
    requires Inv(s) && CanClaim(s, c)
    ensures Inv(ClaimStep(s, c, now))
  {
    if ClaimWins(s, c) {
      WinKeeps(s, c, now);
    } else {
      assert CallInv(s, c);
      var fam := s.calls[c].pc.existing.family;
      UnreleasedOf(s, c);
      MoveKeeps(s, c, Revoking(OfFamily(fam), ByReuse, Reused(fam)));
    }
  }

  lemma CheckKeeps(s: State, c: CallId)
    requires Inv(s) && CanCheck(s, c)
    ensures Inv(CheckStep(s, c))
  {
    assert CallInv(s, c);
    var pc := s.calls[c].pc;
    UnreleasedOf(s, c);
    if s.calls[c].Rotation? { assert RowInv(s, s.calls[c].presented); }
    MoveKeeps(s, c, CheckStep(s, c).calls[c].pc);
  }

  /** A call in a position of its own choosing is answerable for at most the token it is claiming for. */
  lemma UnreleasedOf(s: State, c: CallId)
    requires Inv(s) && c in s.calls
    ensures forall x ::
              x in s.rows && s.births[x].ByRotate? && s.births[x].call == c && x !in s.released && Live(s, x) ==>
                          Attended(s, x, c)
  {
    forall x | x in s.rows && s.births[x].ByRotate? && s.births[x].call == c && x !in s.released && Live(s, x)
      ensures Attended(s, x, c)
    {
      assert RowInv(s, x);
    }
  }

  lemma {:induction false} RunKeeps(s: State, es: seq<Event>)
    requires Inv(s)
    ensures Inv(Run(s, es))
    decreases |es|
  {
    if es != [] {
      StepKeeps(s, es[0]);
      RunKeeps(Step(s, es[0]), es[1..]);
    }
  }

  lemma {:induction false} RunSplits(s: State, es: seq<Event>, fs: seq<Event>)
    ensures Run(s, es + fs) == Run(Run(s, es), fs)
    decreases |es|
  {
    if es == [] {
      assert es + fs == fs;
    } else {
      assert (es + fs)[1..] == es[1..] + fs;
      RunSplits(Step(s, es[0]), es[1..], fs);
    }
  }
}
