/**
 * One browser tab (frontend/src/features/auth/session.ts, session-store.ts) in front of the
 * refresh-token server. The tab's steps are the stretches of code between two awaits; the
 * server's are the statements of RefreshTokens. Responses may be lost at any moment and a
 * refresh request may reach the server long after the tab has given up on it.
 *
 * There is no logout, no second login and no revocation of this session's user meanwhile;
 * other users and other sessions do whatever they like.
 */
module BrowserSession {
  import opened Options
  import Server = RefreshTokens

  type Access = nat
  type RequestId = nat
  type CallId = Server.CallId
  type TokenId = Server.TokenId

  /** The module variable refreshPromise. */
  datatype Promise =
    | NoPromise
    | InFlight(call: CallId)     // POST /auth/refresh is out
    | Resolved(ok: bool)         // runRefresh has returned, `finally` has not run yet

  /** Where an authorizedRequest stands. */
  datatype Request =
    | FirstTry(used: Option<Access>)
    | Awaiting(promise: nat)     // the number of the promise it shares
    | SecondTry
    | Finished

  datatype Tab = Tab(
    access: Option<Access>,
    csrf: bool,
    cookie: TokenId,
    promise: Promise,
    promises: nat,                        // how many refresh promises there have been
    outcomes: map<nat, bool>,             // what the finished ones resolved to
    requests: map<RequestId, Request>,
    // History: times each request was sent, the refresh requests sent with the access token
    // held at that moment and the cookie they carried, and the access tokens ever received.
    sends: map<RequestId, nat>,
    refreshes: seq<Option<Access>>,
    sent: map<CallId, TokenId>,
    last: Option<CallId>,
    received: set<Access>)

  function ClearTokens(t: Tab): Tab { t.(access := None, csrf := false) }

  /** refreshSession: share the promise there is, or start runRefresh. */
  function RefreshSession(t: Tab, call: CallId): Tab {
    if !t.promise.NoPromise? then t
    else if !t.csrf then t.(promise := Resolved(false), promises := t.promises + 1)
    else t.(promise := InFlight(call), promises := t.promises + 1,
            refreshes := t.refreshes + [t.access], sent := t.sent[call := t.cookie], last := Some(call))
  }

  function SetRequest(t: Tab, r: RequestId, q: Request): Tab { t.(requests := t.requests[r := q]) }

  function SendAgain(t: Tab, r: RequestId): Tab
    requires r in t.sends
  {
    SetRequest(t, r, SecondTry).(sends := t.sends[r := t.sends[r] + 1])
  }

  function FirstSend(t: Tab, r: RequestId): Tab {
    SetRequest(t, r, FirstTry(t.access)).(sends := t.sends[r := 1])
  }

  /** The catch block of authorizedRequest after a 401. */
  function After401(t: Tab, r: RequestId, used: Option<Access>, call: CallId): Tab
    requires r in t.sends
  {
    if t.access.Some? && t.access != used then SendAgain(t, r)
    else SetRequest(RefreshSession(t, call), r, Awaiting(RefreshSession(t, call).promises))
  }

  /** The await of the shared promise is over. */
  function AfterPromise(t: Tab, r: RequestId, refreshed: bool): Tab
    requires r in t.sends
  {
    if refreshed then SendAgain(t, r) else SetRequest(ClearTokens(t), r, Finished)
  }

  /** `finally`: the promise variable is emptied and those who share it go on. */
  function Settle(t: Tab): Tab
    requires t.promise.Resolved?
  {
    t.(promise := NoPromise, outcomes := t.outcomes[t.promises := t.promise.ok])
  }

  datatype World = World(tab: Tab, server: Server.State)

  datatype Event =
    | Send(request: RequestId)
    | Answer(request: RequestId, unauthorized: bool, call: CallId)
    | Resume(request: RequestId)
    | AnswerAgain(request: RequestId, unauthorized: bool)
    | CallRefresh(call: CallId)                       // restoreSession and the like
    | RefreshAnswered(access: Access)
    | RefreshFails(cookieArrived: bool)               // refused, or the response is lost
    | RunFinally
    | ClearSession                                     // a 401 elsewhere in the application
    | Arrive(call: CallId, now: Server.Time)           // the server takes up a refresh request
    | Serve(statement: Server.Event)

  predicate FreshCall(w: World, call: CallId) { call !in w.tab.sent && call !in w.server.calls }

  /** The statement belongs to somebody else's session. */
  predicate Elsewhere(w: World, f: Server.FamilyId, e: Server.Event) {
    match e
    case Login(_, _, _, _) => true
    case Find(c, secret, _) => c !in w.tab.sent && !Server.BelongsTo(w.server, secret, f)
    case FindForLogout(c, secret) => c !in w.tab.sent && !Server.BelongsTo(w.server, secret, f)
    case Disable(c, user) => c !in w.tab.sent && f in w.server.families && user != w.server.families[f].user
    case RevokeUser(user, _, _) => f in w.server.families && user != w.server.families[f].user
    case _ => e.call !in w.tab.sent
  }

  /** A later statement of a refresh request of this tab. */
  predicate OwnStatement(w: World, e: Server.Event) {
    (e.Issue? || e.Claim? || e.CheckAccount? || e.Revoke? || e.Throw?) && e.call in w.tab.sent
  }

  /** The new cookie of an answered rotation. */
  function AnsweredWith(w: World): Option<TokenId> {
    if w.tab.promise.InFlight? && w.tab.promise.call in w.server.calls
       && w.server.calls[w.tab.promise.call].pc.Done? && w.server.calls[w.tab.promise.call].pc.outcome.Success?
    then Some(w.server.calls[w.tab.promise.call].pc.outcome.next)
    else None
  }

  function Step(w: World, f: Server.FamilyId, e: Event): World {
    var t := w.tab;
    match e
    case Send(r) => if r in t.requests || r in t.sends then w else w.(tab := FirstSend(t, r))
    case Answer(r, unauthorized, call) =>
      if r in t.requests && t.requests[r].FirstTry? && r in t.sends && FreshCall(w, call) then
        w.(tab := if unauthorized then After401(t, r, t.requests[r].used, call) else SetRequest(t, r, Finished))
      else w
    case Resume(r) =>
      if r in t.requests && t.requests[r].Awaiting? && t.requests[r].promise in t.outcomes && r in t.sends then
        w.(tab := AfterPromise(t, r, t.outcomes[t.requests[r].promise]))
      else w
    case AnswerAgain(r, unauthorized) =>
      if r in t.requests && t.requests[r].SecondTry? then
        w.(tab := SetRequest(if unauthorized then ClearTokens(t) else t, r, Finished))
      else w
    case CallRefresh(call) => if FreshCall(w, call) then w.(tab := RefreshSession(t, call)) else w
    case RefreshAnswered(access) =>
      if AnsweredWith(w).Some? && access !in t.received then
        w.(tab := t.(access := Some(access), csrf := true, cookie := AnsweredWith(w).value,
                     promise := Resolved(true), received := t.received + {access}))
      else w
    case RefreshFails(cookieArrived) =>
      if t.promise.InFlight? then
        w.(tab := ClearTokens(t).(promise := Resolved(false),
                                  cookie := if cookieArrived && AnsweredWith(w).Some?
                                    then AnsweredWith(w).value else t.cookie))
      else w
    case RunFinally => if t.promise.Resolved? then w.(tab := Settle(t)) else w
    case ClearSession => w.(tab := ClearTokens(t))
    case Arrive(call, now) =>
      if call in t.sent && call !in w.server.calls
        then w.(server := Server.Step(w.server, Server.Find(call, t.sent[call], now))) else w
    case Serve(s) => if OwnStatement(w, s) || Elsewhere(w, f, s) then w.(server := Server.Step(w.server, s)) else w
  }

  function Run(w: World, f: Server.FamilyId, es: seq<Event>): World
    decreases |es|
  {
    if es == [] then w else Run(Step(w, f, es[0]), f, es[1..])
  }

  /** Just logged in, or just reloaded: the cookie is good and nothing is in flight for the session. */
  ghost predicate Init(w: World, f: Server.FamilyId) {
    && Server.Inv(w.server)
    && f in w.server.families
    && GoodToken(w.server, f, w.tab.cookie)
    && (forall c :: c in w.server.calls ==> Quiet(w.server, f, c))
    && w.tab.promise.NoPromise? && w.tab.promises == 0 && w.tab.outcomes == map[]
    && w.tab.requests == map[] && w.tab.sends == map[] && w.tab.refreshes == [] && w.tab.sent == map[]
         && w.tab.last.None?
    && (w.tab.access.Some? ==> w.tab.access.value in w.tab.received)
  }

  /** No call on the family is under way. */
  predicate Quiet(s: Server.State, f: Server.FamilyId, c: CallId)
    requires c in s.calls && f in s.families
  {
    (s.calls[c].Rotation? && s.calls[c].pc.Done?) || Unrelated(s, f, c)
  }

  predicate GoodToken(s: Server.State, f: Server.FamilyId, id: TokenId) {
    Server.Live(s, id) && id in s.released && s.rows[id].family == f
  }

  /** A rotation that is over without having met a reused token. */
  predicate AtRest(pc: Server.Pc) { pc.Failed? || (pc.Done? && !pc.outcome.Reused?) }

  /** The call is over or concerns another family. */
  predicate Unrelated(s: Server.State, f: Server.FamilyId, c: CallId)
    requires c in s.calls && f in s.families
  {
    match s.calls[c]
    case Rotation(presented, pc) => AtRest(pc) || !Server.BelongsTo(s, presented, f)
    case Other(pc) =>
      pc.Done? || pc.Failed?
      || (pc.Revoking? && match pc.scope
                          case OfFamily(g) => g != f
                          case OfUser(u) => u != s.families[f].user)
  }

  // --- The tab by itself --------------------------------------------------------------

  predicate RequestInv(t: Tab, r: RequestId)
    requires r in t.requests
  {
    && r in t.sends
    && match t.requests[r]
       case FirstTry(_) => t.sends[r] == 1
       case Awaiting(promise) => t.sends[r] == 1 && promise <= t.promises
       case SecondTry => t.sends[r] == 2
       case Finished => t.sends[r] <= 2
  }

  predicate Distinct(s: seq<Option<Access>>) { forall i, j :: 0 <= i < j < |s| ==> s[i] != s[j] }

  predicate TokensInv(t: Tab) {
    && Distinct(t.refreshes)
    && (t.access.Some? ==> t.access.value in t.received)
    && (forall i :: 0 <= i < |t.refreshes| && t.refreshes[i].Some? ==> t.refreshes[i].value in t.received)
    && (t.csrf && !t.promise.InFlight? ==> t.access !in t.refreshes)
    && OutcomesInv(t)
  }

  /** Promises are numbered in order, and the current one has no outcome yet. */
  predicate OutcomesInv(t: Tab) {
    (forall n :: n in t.outcomes ==> n <= t.promises) && (!t.promise.NoPromise? ==> t.promises !in t.outcomes)
  }

  ghost predicate TabInv(t: Tab) {
    && TokensInv(t)
    && t.sends.Keys == t.requests.Keys
    && forall r {:trigger RequestInv(t, r)} :: r in t.requests ==> RequestInv(t, r)
  }

  lemma RequestKeeps(t: Tab, u: Tab, r: RequestId)
    requires TabInv(t) && TokensInv(u) && t.promises <= u.promises
    requires r in u.requests && r in u.sends && RequestInv(u, r)
    requires u.requests == t.requests[r := u.requests[r]] && u.sends == t.sends[r := u.sends[r]]
    ensures TabInv(u)
  {
    forall q | q in u.requests ensures RequestInv(u, q) { if q != r { assert RequestInv(t, q); } }
  }

  lemma OthersKeep(t: Tab, u: Tab)
    requires TabInv(t) && TokensInv(u) && t.promises <= u.promises && u.requests == t.requests && u.sends == t.sends
    ensures TabInv(u)
  {
    forall q | q in u.requests ensures RequestInv(u, q) { assert RequestInv(t, q); }
  }

  lemma RefreshKeepsTokens(t: Tab, call: CallId)
    requires TokensInv(t)
    ensures TokensInv(RefreshSession(t, call))
  {
  }

  lemma TabKeeps(w: World, f: Server.FamilyId, e: Event)
    requires TabInv(w.tab)
    ensures TabInv(Step(w, f, e).tab)
  {
    var t := w.tab;
    var u := Step(w, f, e).tab;
    match e
    case Send(r) => if r !in t.requests { RequestKeeps(t, u, r); }
    case Answer(r, _, call) => if u != t { AnswerKeeps(w, f, e); }
    case Resume(r) => if u != t { assert RequestInv(t, r); RequestKeeps(t, u, r); }
    case AnswerAgain(r, _) => if u != t { assert RequestInv(t, r); RequestKeeps(t, u, r); }
    case _ => TokensKeep(w, f, e);
  }

  lemma After401Keeps(t: Tab, r: RequestId, used: Option<Access>, call: CallId)
    requires TabInv(t) && r in t.requests && t.requests[r].FirstTry?
    ensures r in t.sends && TabInv(After401(t, r, used, call))
  {
    assert RequestInv(t, r);
    RefreshKeepsTokens(t, call);
    RequestKeeps(t, After401(t, r, used, call), r);
  }

  lemma AnswerKeeps(w: World, f: Server.FamilyId, e: Event)
    requires TabInv(w.tab) && e.Answer? && Step(w, f, e).tab != w.tab
    ensures TabInv(Step(w, f, e).tab)
  {
    if e.unauthorized {
      After401Keeps(w.tab, e.request, w.tab.requests[e.request].used, e.call);
    } else {
      assert RequestInv(w.tab, e.request);
      RequestKeeps(w.tab, SetRequest(w.tab, e.request, Finished), e.request);
    }
  }

  lemma TokensKeep(w: World, f: Server.FamilyId, e: Event)
    requires TabInv(w.tab) && !e.Send? && !e.Answer? && !e.Resume? && !e.AnswerAgain?
    ensures TabInv(Step(w, f, e).tab)
  {
    if e.CallRefresh? { RefreshKeepsTokens(w.tab, e.call); }
    OthersKeep(w.tab, Step(w, f, e).tab);
  }

  // --- The tab and the server ------------------------------------------------------------

  /** A refresh request of the tab that has not been answered with success. */
  predicate LastInv(s: Server.State, f: Server.FamilyId, c: CallId, cookie: TokenId) {
    if c !in s.calls then GoodToken(s, f, cookie)
    else
      && s.calls[c].Rotation? && s.calls[c].presented == cookie
      && match s.calls[c].pc
         case Issuing(_) => GoodToken(s, f, cookie)
         case Claiming(_, next) => GoodToken(s, f, cookie) && Server.Live(s, next) && s.rows[next].family == f
         case CheckingAccount(_, next) => GoodToken(s, f, next)
         case Revoking(_, reason, answer) => reason.ByDisable? && answer.AccountDisabled?
         case Done(outcome) => !outcome.Reused? && (outcome.Success? ==> GoodToken(s, f, outcome.next))
         case Failed => true
  }

  predicate Succeeded(s: Server.State, c: CallId) {
    c in s.calls && s.calls[c].pc.Done? && s.calls[c].pc.outcome.Success?
  }

  predicate LinkInv(w: World, f: Server.FamilyId) {
    var t := w.tab;
    && (forall c :: c in t.sent && t.last != Some(c) ==> Succeeded(w.server, c))
    && (t.promise.InFlight? ==> t.last == Some(t.promise.call))
    && (t.last.Some? ==> t.last.value in t.sent && LastInv(w.server, f, t.last.value, t.sent[t.last.value]))
    && (t.last.None? ==> t.sent == map[])
    && (t.csrf && !t.promise.InFlight? ==>
          && GoodToken(w.server, f, t.cookie)
          && (t.last.Some? ==> Succeeded(w.server, t.last.value)))
  }

  ghost predicate Inv(w: World, f: Server.FamilyId) {
    && TabInv(w.tab)
    && Server.Inv(w.server)
    && f in w.server.families
    && LinkInv(w, f)
    && forall c {:trigger Unrelated(w.server, f, c)} :: c in w.server.calls && c !in w.tab.sent ==>
         Unrelated(w.server, f, c)
  }

  predicate LiveIn(s: Server.State, f: Server.FamilyId, id: TokenId) { Server.Live(s, id) && s.rows[id].family == f }

  /** A statement that is none of family f's business. */
  predicate Aloof(s: Server.State, f: Server.FamilyId, e: Server.Event)
    requires f in s.families
  {
    match e
    case Login(_, _, _, _) => true
    case Find(c, secret, _) => !Server.BelongsTo(s, secret, f)
    case FindForLogout(c, secret) => !Server.BelongsTo(s, secret, f)
    case Disable(c, user) => user != s.families[f].user
    case RevokeUser(user, _, _) => user != s.families[f].user
    case _ => e.call in s.calls ==> Unrelated(s, f, e.call)
  }

  lemma AloofKeepsLive(s: Server.State, f: Server.FamilyId, e: Server.Event, id: TokenId)
    requires Server.Inv(s) && f in s.families && Aloof(s, f, e) && LiveIn(s, f, id)
    ensures LiveIn(Server.Step(s, e), f, id)
  {
    assert Server.RowInv(s, id);
    if (e.Claim? || e.Revoke?) && e.call in s.calls { assert Server.CallInv(s, e.call); }
  }

  lemma AloofKeepsFamily(s: Server.State, f: Server.FamilyId, e: Server.Event)
    requires Server.Inv(s) && f in s.families
    ensures f in Server.Step(s, e).families && Server.Step(s, e).families[f].user == s.families[f].user
    ensures s.released <= Server.Step(s, e).released
  {
  }

  lemma AloofKeepsUnrelated(s: Server.State, f: Server.FamilyId, e: Server.Event, d: CallId)
    requires Server.Inv(s) && f in s.families && Aloof(s, f, e)
    requires d in Server.Step(s, e).calls && (d in s.calls ==> Unrelated(s, f, d))
    ensures f in Server.Step(s, e).families && Unrelated(Server.Step(s, e), f, d)
  {
    if d in s.calls { assert Server.CallInv(s, d); }
    if e.FindForLogout? && e.secret in s.rows { assert Server.RowInv(s, e.secret); }
  }

  /** A statement of the tab's own refresh request leaves the calls of others unrelated. */
  lemma OwnKeepsUnrelated(s: Server.State, f: Server.FamilyId, e: Server.Event, d: CallId)
    requires Server.Inv(s) && f in s.families && d in s.calls && Unrelated(s, f, d)
    requires (e.Find? || e.Issue? || e.Claim? || e.CheckAccount? || e.Revoke? || e.Throw?) && e.call != d
    ensures f in Server.Step(s, e).families && d in Server.Step(s, e).calls && Unrelated(Server.Step(s, e), f, d)
  {
    assert Server.CallInv(s, d);
  }

  lemma OwnKeepsLast(s: Server.State, f: Server.FamilyId, e: Server.Event, cookie: TokenId)
    requires Server.Inv(s) && f in s.families
    requires e.Issue? || e.Claim? || e.CheckAccount? || e.Revoke? || e.Throw?
    requires LastInv(s, f, e.call, cookie)
    ensures LastInv(Server.Step(s, e), f, e.call, cookie)
  {
    if e.call in s.calls { assert Server.CallInv(s, e.call); }
  }

  lemma ArriveKeepsLast(s: Server.State, f: Server.FamilyId, c: CallId, cookie: TokenId, now: Server.Time)
    requires c !in s.calls && GoodToken(s, f, cookie)
    ensures LastInv(Server.Step(s, Server.Find(c, cookie, now)), f, c, cookie)
  {
  }

  lemma AloofKeepsLast(s: Server.State, f: Server.FamilyId, e: Server.Event, c: CallId, cookie: TokenId)
    requires Server.Inv(s) && f in s.families && Aloof(s, f, e) && LastInv(s, f, c, cookie)
    requires !e.Login? && !e.RevokeUser? ==> e.call != c
    ensures LastInv(Server.Step(s, e), f, c, cookie)
  {
    AloofKeepsFamily(s, f, e);
    if Server.Live(s, cookie) && s.rows[cookie].family == f { AloofKeepsLive(s, f, e, cookie); }
    if c in s.calls {
      match s.calls[c].pc
      case Claiming(_, next) => AloofKeepsLive(s, f, e, next);
      case CheckingAccount(_, next) => AloofKeepsLive(s, f, e, next);
      case Done(outcome) => if outcome.Success? { AloofKeepsLive(s, f, e, outcome.next); }
      case _ =>
    }
  }

  // --- Every step of the composition ---------------------------------------------------

  lemma AloofKeepsGood(s: Server.State, f: Server.FamilyId, e: Server.Event, id: TokenId)
    requires Server.Inv(s) && f in s.families && Aloof(s, f, e) && GoodToken(s, f, id)
    ensures GoodToken(Server.Step(s, e), f, id)
  {
    AloofKeepsLive(s, f, e, id);
    AloofKeepsFamily(s, f, e);
  }

  /** A call that has succeeded has no statement left. */
  lemma SucceededIsInert(s: Server.State, e: Server.Event, c: CallId)
    requires Succeeded(s, c)
    ensures Succeeded(Server.Step(s, e), c)
    ensures (e.Issue? || e.Claim? || e.CheckAccount? || e.Revoke? || e.Throw?) && e.call == c ==> Server.Step(s, e) == s
  {
  }

  lemma TabKeepsLink(w: World, f: Server.FamilyId, e: Event)
    requires Inv(w, f) && !e.Arrive? && !e.Serve?
    ensures LinkInv(Step(w, f, e), f) && Step(w, f, e).server == w.server
    ensures w.tab.sent.Keys <= Step(w, f, e).tab.sent.Keys
  {
    match e
    case Answer(r, unauthorized, call) => AnswerKeepsLink(w, f, e);
    case CallRefresh(call) => if FreshCall(w, call) { RefreshKeepsLink(w, f, call); }
    case RefreshAnswered(_) =>
    case RefreshFails(_) => FailKeepsLink(w, f, e);
    case _ => QuietKeepsLink(w, f, Step(w, f, e).tab);
  }

  lemma AnswerKeepsLink(w: World, f: Server.FamilyId, e: Event)
    requires Inv(w, f) && e.Answer?
    ensures LinkInv(Step(w, f, e), f) && Step(w, f, e).server == w.server
    ensures w.tab.sent.Keys <= Step(w, f, e).tab.sent.Keys
  {
    if FreshCall(w, e.call) { RefreshKeepsLink(w, f, e.call); }
    QuietKeepsLink(w, f, SetRequest(w.tab, e.request, Finished));
  }

  lemma FailKeepsLink(w: World, f: Server.FamilyId, e: Event)
    requires LinkInv(w, f) && e.RefreshFails?
    ensures LinkInv(Step(w, f, e), f) && Step(w, f, e).server == w.server && w.tab.sent == Step(w, f, e).tab.sent
  {
  }

  lemma QuietKeepsLink(w: World, f: Server.FamilyId, u: Tab)
    requires LinkInv(w, f)
    requires u.sent == w.tab.sent && u.last == w.tab.last && u.cookie == w.tab.cookie && (u.csrf ==> w.tab.csrf)
    requires u.promise == w.tab.promise || (!u.promise.InFlight? && !w.tab.promise.InFlight?)
    ensures LinkInv(w.(tab := u), f)
  {
  }

  lemma RefreshKeepsLink(w: World, f: Server.FamilyId, call: CallId)
    requires Inv(w, f) && FreshCall(w, call)
    ensures LinkInv(w.(tab := RefreshSession(w.tab, call)), f)
  {
  }

  lemma ArriveKeeps(w: World, f: Server.FamilyId, c: CallId, now: Server.Time)
    requires Inv(w, f) && c in w.tab.sent && c !in w.server.calls
    ensures Inv(Step(w, f, Arrive(c, now)), f)
  {
    var s := w.server;
    var find := Server.Find(c, w.tab.sent[c], now);
    var s' := Server.Step(s, find);
    Server.StepKeeps(s, find);
    assert w.tab.last == Some(c);
    ArriveKeepsLast(s, f, c, w.tab.sent[c], now);
    forall d | d in s'.calls && d !in w.tab.sent ensures Unrelated(s', f, d) {
      assert Unrelated(s, f, d);
      OwnKeepsUnrelated(s, f, find, d);
    }
  }

  lemma OwnKeeps(w: World, f: Server.FamilyId, e: Server.Event)
    requires Inv(w, f) && OwnStatement(w, e)
    ensures Inv(Step(w, f, Serve(e)), f)
  {
    var s := w.server;
    var s' := Server.Step(s, e);
    if Succeeded(s, e.call) {
      SucceededIsInert(s, e, e.call);
    } else {
      Server.StepKeeps(s, e);
      assert w.tab.last == Some(e.call);
      OwnKeepsLast(s, f, e, w.tab.sent[e.call]);
      OwnKeepsRest(w, f, e);
    }
  }

  lemma OwnKeepsRest(w: World, f: Server.FamilyId, e: Server.Event)
    requires Inv(w, f) && OwnStatement(w, e)
    ensures f in Server.Step(w.server, e).families
    ensures forall c :: c in w.tab.sent && w.tab.last != Some(c) ==> Succeeded(Server.Step(w.server, e), c)
    ensures forall d {:trigger Unrelated(Server.Step(w.server, e), f, d)} ::
              d in Server.Step(w.server, e).calls && d !in w.tab.sent ==> Unrelated(Server.Step(w.server, e), f, d)
  {
    var s' := Server.Step(w.server, e);
    forall c | c in w.tab.sent && w.tab.last != Some(c) ensures Succeeded(s', c) { SucceededIsInert(w.server, e, c); }
    AloofKeepsFamily(w.server, f, e);
    forall d | d in s'.calls && d !in w.tab.sent ensures Unrelated(s', f, d) {
      assert Unrelated(w.server, f, d);
      OwnKeepsUnrelated(w.server, f, e, d);
    }
  }

  lemma ElsewhereIsAloof(w: World, f: Server.FamilyId, e: Server.Event)
    requires Inv(w, f) && Elsewhere(w, f, e)
    ensures Aloof(w.server, f, e)
  {
  }

  lemma ElsewhereKeeps(w: World, f: Server.FamilyId, e: Server.Event)
    requires Inv(w, f) && Elsewhere(w, f, e)
    ensures Inv(Step(w, f, Serve(e)), f)
  {
    var s := w.server;
    var s' := Server.Step(s, e);
    Server.StepKeeps(s, e);
    ElsewhereIsAloof(w, f, e);
    AloofKeepsFamily(s, f, e);
    forall d | d in s'.calls && d !in w.tab.sent ensures Unrelated(s', f, d) { AloofKeepsUnrelated(s, f, e, d); }
    if GoodToken(s, f, w.tab.cookie) { AloofKeepsGood(s, f, e, w.tab.cookie); }
    forall c | c in w.tab.sent && Succeeded(s, c) ensures Succeeded(s', c) { SucceededIsInert(s, e, c); }
    if w.tab.last.Some? { AloofKeepsLast(s, f, e, w.tab.last.value, w.tab.sent[w.tab.last.value]); }
  }

  lemma StepKeeps(w: World, f: Server.FamilyId, e: Event)
    requires Inv(w, f)
    ensures Inv(Step(w, f, e), f)
  {
    TabKeeps(w, f, e);
    match e
    case Arrive(c, now) => if c in w.tab.sent && c !in w.server.calls { ArriveKeeps(w, f, c, now); }
    case Serve(s) =>
      if OwnStatement(w, s) { OwnKeeps(w, f, s); } else if Elsewhere(w, f, s) { ElsewhereKeeps(w, f, s); }
    case _ => TabKeepsLink(w, f, e);
  }

  lemma {:induction false} RunKeeps(w: World, f: Server.FamilyId, es: seq<Event>)
    requires Inv(w, f)
    ensures Inv(Run(w, f, es), f)
    decreases |es|
  {
    if es != [] {
      StepKeeps(w, f, es[0]);
      RunKeeps(Step(w, f, es[0]), f, es[1..]);
    }
  }

  lemma {:induction false} RunSplits(w: World, f: Server.FamilyId, es: seq<Event>, fs: seq<Event>)
    ensures Run(w, f, es + fs) == Run(Run(w, f, es), f, fs)
    decreases |es|
  {
    if es == [] {
      assert es + fs == fs;
    } else {
      assert (es + fs)[1..] == es[1..] + fs;
      RunSplits(Step(w, f, es[0]), f, es[1..], fs);
    }
  }

  lemma InitKeeps(w: World, f: Server.FamilyId)
    requires Init(w, f)
    ensures Inv(w, f)
  {
    assert Server.RowInv(w.server, w.tab.cookie);
    forall c | c in w.server.calls ensures Unrelated(w.server, f, c) { assert Server.CallInv(w.server, c); }
  }

  /** The tab after verifyLogin. */
  function SignedIn(cookie: TokenId, access: Access): Tab {
    Tab(Some(access), true, cookie, NoPromise, 0, map[], map[], map[], [], map[], None, {access})
  }

  /** No logout of the family and no mass revocation of the user is under way. */
  predicate NoRevocation(s: Server.State, f: Server.FamilyId, user: Server.UserId) {
    forall c :: c in s.calls && s.calls[c].Other? && s.calls[c].pc.Revoking? ==>
      s.calls[c].pc.scope != Server.OfFamily(f) && s.calls[c].pc.scope != Server.OfUser(user)
  }

  predicate OthersAreOver(s: Server.State) {
    forall c :: c in s.calls && s.calls[c].Other? ==>
      s.calls[c].pc.Done? || s.calls[c].pc.Failed? || s.calls[c].pc.Revoking?
  }

  /** Where the theorems start from: a login puts the tab and the server into it. */
  lemma LoginStartsASession(s: Server.State, e: Server.Event, access: Access)
    requires Server.Inv(s) && e.Login? && Server.CanLogin(s, e.id, e.fam)
    requires NoRevocation(s, e.fam, e.user) && OthersAreOver(s)
    ensures Init(World(SignedIn(e.id, access), Server.Step(s, e)), e.fam)
  {
    var t := Server.Step(s, e);
    Server.StepKeeps(s, e);
    forall c | c in t.calls ensures Quiet(t, e.fam, c) {
      assert Server.CallInv(s, c);
      if s.calls[c].Rotation? && s.calls[c].presented in s.rows { assert Server.RowInv(s, s.calls[c].presented); }
    }
  }

  // --- What the user sees -----------------------------------------------------------------

  /** The server treats a token of family f as reused, or has done so. */
  predicate SuspectsReuse(s: Server.State, f: Server.FamilyId, c: CallId)
    requires c in s.calls
  {
    match s.calls[c]
    case Rotation(presented, pc) =>
      Server.BelongsTo(s, presented, f) && ((pc.Revoking? && pc.reason.ByReuse?) || (pc.Done? && pc.outcome.Reused?))
    case Other(pc) => pc.Revoking? && pc.scope == Server.OfFamily(f)
  }

  /**
   * However many requests are answered 401 at once, and whichever refresh responses are lost: an access token
   * leads to at most one /auth/refresh, a request goes out at most twice, and the server never takes the tab's
   * cookie for a stolen one.
   */
  lemma OneTabNeverLooksLikeTheft(w: World, f: Server.FamilyId, es: seq<Event>)
    requires Init(w, f)
    ensures Distinct(Run(w, f, es).tab.refreshes)
    ensures forall r :: r in Run(w, f, es).tab.sends ==> Run(w, f, es).tab.sends[r] <= 2
    ensures forall c :: c in Run(w, f, es).server.calls ==> !SuspectsReuse(Run(w, f, es).server, f, c)
  {
    InitKeeps(w, f);
    RunKeeps(w, f, es);
    var v := Run(w, f, es);
    forall r | r in v.tab.sends ensures v.tab.sends[r] <= 2 { assert RequestInv(v.tab, r); }
    forall c | c in v.server.calls ensures !SuspectsReuse(v.server, f, c) {
      if c !in v.tab.sent { assert Unrelated(v.server, f, c); }
    }
  }

  /** While the tab can refresh and nothing is in flight, its cookie is the family's one live token. */
  lemma CookieStaysGood(w: World, f: Server.FamilyId, es: seq<Event>)
    requires Init(w, f)
    ensures Run(w, f, es).tab.csrf && !Run(w, f, es).tab.promise.InFlight? ==>
              && GoodToken(Run(w, f, es).server, f, Run(w, f, es).tab.cookie)
              && f in Run(w, f, es).server.families
              && Run(w, f, es).server.families[f].tip == Run(w, f, es).tab.cookie
  {
    InitKeeps(w, f);
    RunKeeps(w, f, es);
    var v := Run(w, f, es);
    if v.tab.csrf && !v.tab.promise.InFlight? { assert Server.RowInv(v.server, v.tab.cookie); }
  }

  predicate SignedOut(t: Tab) { !t.csrf && t.access.None? && !t.promise.InFlight? }

  /**
   * A refresh that fails - refused, or its answer lost - signs the tab out: whatever happens afterwards, no other
   * /auth/refresh is sent and no access token is left.
   */
  lemma LostAnswerEndsTheSession(w: World, f: Server.FamilyId, e: Event, es: seq<Event>)
    requires e.RefreshFails? && w.tab.promise.InFlight?
    ensures var t := Run(Step(w, f, e), f, es).tab;
            t.refreshes == w.tab.refreshes && !t.csrf && t.access.None? && !t.promise.InFlight?
  {
    StaysSignedOut(Step(w, f, e), f, es);
  }

  lemma {:induction false} StaysSignedOut(w: World, f: Server.FamilyId, es: seq<Event>)
    requires SignedOut(w.tab)
    ensures SignedOut(Run(w, f, es).tab) && Run(w, f, es).tab.refreshes == w.tab.refreshes
    decreases |es|
  {
    if es != [] {
      SignedOutStep(w, f, es[0]);
      StaysSignedOut(Step(w, f, es[0]), f, es[1..]);
    }
  }

  lemma SignedOutStep(w: World, f: Server.FamilyId, e: Event)
    requires SignedOut(w.tab)
    ensures SignedOut(Step(w, f, e).tab) && Step(w, f, e).tab.refreshes == w.tab.refreshes
  {
  }
}
