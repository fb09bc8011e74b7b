/**
 * The module variables of session.ts and session-store.ts, updated in place by the stretches of code
 * between two awaits, with the server on the other side. `env` is what happens elsewhere meanwhile:
 * other requests of the tab, refresh answers, statements of the server.
 */
module BrowserTab {
  import opened Options
  import opened BrowserSession
  import Server = RefreshTokens

  /** How an authorizedRequest ended. */
  datatype End =
    | Answered                       // no 401 at first
    | RepeatedAtOnce                 // the access token had changed meanwhile
    | RepeatedAfter(promise: nat)    // the shared refresh succeeded
    | SignedOut(promise: nat)        // it failed
    | Waiting(promise: nat)          // it is still out

  /** The event is not one of request r. */
  predicate Foreign(e: Event, r: RequestId) {
    match e
    case Send(q) => q != r
    case Answer(q, _, _) => q != r
    case Resume(q) => q != r
    case AnswerAgain(q, _) => q != r
    case _ => true
  }

  predicate AllForeign(es: seq<Event>, r: RequestId) { forall e :: e in es ==> Foreign(e, r) }

  lemma {:induction false} ForeignRun(w: World, f: Server.FamilyId, es: seq<Event>, r: RequestId)
    requires AllForeign(es, r) && r in w.tab.requests && r in w.tab.sends
    ensures r in Run(w, f, es).tab.requests && Run(w, f, es).tab.requests[r] == w.tab.requests[r]
    ensures r in Run(w, f, es).tab.sends && Run(w, f, es).tab.sends[r] == w.tab.sends[r]
    decreases |es|
  {
    if es != [] {
      assert es[0] in es;
      ForeignStep(w, f, es[0], r);
      ForeignRun(Step(w, f, es[0]), f, es[1..], r);
    }
  }

  predicate SameRequest(t: Tab, u: Tab, r: RequestId) {
    && r in t.requests && r in u.requests && t.requests[r] == u.requests[r]
    && r in t.sends && r in u.sends && t.sends[r] == u.sends[r]
  }

  lemma ForeignStep(w: World, f: Server.FamilyId, e: Event, r: RequestId)
    requires Foreign(e, r) && r in w.tab.requests && r in w.tab.sends
    ensures SameRequest(w.tab, Step(w, f, e).tab, r)
  {
    match e
    case Answer(q, _, call) => ForeignAnswer(w, f, e, r);
    case CallRefresh(call) => assert SameRequest(w.tab, RefreshSession(w.tab, call), r);
    case _ =>
  }

  lemma ForeignAnswer(w: World, f: Server.FamilyId, e: Event, r: RequestId)
    requires e.Answer? && e.request != r && r in w.tab.requests && r in w.tab.sends
    ensures SameRequest(w.tab, Step(w, f, e).tab, r)
  {
    assert SameRequest(w.tab, RefreshSession(w.tab, e.call), r);
    if e.request in w.tab.requests && e.request in w.tab.sends && w.tab.requests[e.request].FirstTry? {
      assert SameRequest(w.tab, After401(w.tab, e.request, w.tab.requests[e.request].used, e.call), r);
    }
  }

  /** What a promise resolved to stays. */
  lemma {:induction false} OutcomesStay(w: World, f: Server.FamilyId, es: seq<Event>)
    requires TabInv(w.tab)
    ensures forall n :: n in w.tab.outcomes ==>
              n in Run(w, f, es).tab.outcomes && Run(w, f, es).tab.outcomes[n] == w.tab.outcomes[n]
    decreases |es|
  {
    if es != [] {
      TabKeeps(w, f, es[0]);
      OutcomeStep(w, f, es[0]);
      OutcomesStay(Step(w, f, es[0]), f, es[1..]);
    }
  }

  lemma OutcomeStep(w: World, f: Server.FamilyId, e: Event)
    requires TabInv(w.tab)
    ensures forall n :: n in w.tab.outcomes ==>
              n in Step(w, f, e).tab.outcomes && Step(w, f, e).tab.outcomes[n] == w.tab.outcomes[n]
  {
  }

  lemma NeverTheft(w: World, f: Server.FamilyId)
    requires BrowserSession.Inv(w, f)
    ensures Distinct(w.tab.refreshes) && forall c :: c in w.server.calls ==> !SuspectsReuse(w.server, f, c)
  {
    forall c | c in w.server.calls ensures !SuspectsReuse(w.server, f, c) {
      if c !in w.tab.sent { assert Unrelated(w.server, f, c); }
    }
  }

  lemma OneMore(w: World, f: Server.FamilyId, es: seq<Event>, e: Event)
    ensures Run(w, f, es + [e]) == Step(Run(w, f, es), f, e)
  {
    RunSplits(w, f, es, [e]);
    assert [e][1..] == [];
  }

  class SessionModule {
    var accessToken: Option<Access>
    var csrfToken: bool
    var refreshPromise: Promise
    var cookie: TokenId                 // kept by the browser
    var server: Server.State
    // Promises, requests and the history of BrowserSession.Tab.
    var promises: nat
    var outcomes: map<nat, bool>
    var requests: map<RequestId, Request>
    var sends: map<RequestId, nat>
    var refreshes: seq<Option<Access>>
    var sent: map<CallId, TokenId>
    var last: Option<CallId>
    var received: set<Access>

    function View(): World
      reads this
    {
      World(Tab(accessToken, csrfToken, cookie, refreshPromise, promises, outcomes, requests, sends, refreshes, sent,
        last, received),
            server)
    }

    /** A whole request, or as much of it as has happened when its shared refresh is still out. */
    method AuthorizedRequest(r: RequestId, call: CallId, first401: bool, second401: bool, env: seq<seq<Event>>,
                             f: Server.FamilyId)
      returns (end: End, tokenUsed: Option<Access>, tokenAgain: Option<Access>, trace: seq<Event>)
      requires BrowserSession.Inv(View(), f) && r !in requests && |env| == 3 && forall es ::
                 es in env ==> AllForeign(es, r)
      requires FreshCall(Run(Step(View(), f, Event.Send(r)), f, env[0]), call)
      modifies this
      ensures View() == Run(old(View()), f, trace) && BrowserSession.Inv(View(), f)
      ensures tokenUsed == old(accessToken) && (end.Answered? <==> !first401)
      ensures r in sends && sends[r] == if end.RepeatedAtOnce? || end.RepeatedAfter? then 2 else 1
      ensures end.RepeatedAtOnce? ==> tokenAgain.Some? && tokenAgain != tokenUsed
      ensures end.RepeatedAfter? ==> end.promise in outcomes && outcomes[end.promise]
      ensures end.SignedOut? ==> end.promise in outcomes && !outcomes[end.promise] && accessToken.None? && !csrfToken
      ensures end.Waiting? ==> end.promise !in outcomes
      ensures Distinct(refreshes) && forall c :: c in server.calls ==> !SuspectsReuse(server, f, c)
    {
      ghost var w := View();
      tokenAgain := None;
      NotSent(w, f, r);
      tokenUsed := SendFirst(r);
      trace := Logged(w, f, [], Event.Send(r));
      trace := Elsewhere(w, f, trace, r, env[0]);
      if !first401 {
        requests := requests[r := Finished];
        trace := Logged(w, f, trace, Answer(r, false, call));
        end := Answered;
      } else {
        end, tokenAgain, trace := CatchUnauthorized(r, call, second401, env[1..], w, f, trace);
      }
      NeverTheft(View(), f);
    }

    /** The catch block of authorizedRequest, from the 401 on. */
    method CatchUnauthorized(r: RequestId, call: CallId, second401: bool, env: seq<seq<Event>>, ghost w: World,
                             f: Server.FamilyId, trace: seq<Event>)
      returns (end: End, tokenAgain: Option<Access>, grown: seq<Event>)
      requires View() == Run(w, f, trace) && BrowserSession.Inv(View(), f) && FreshCall(View(), call)
      requires r in requests && requests[r].FirstTry? && r in sends && sends[r] == 1
      requires |env| == 2 && forall es :: es in env ==> AllForeign(es, r)
      modifies this
      ensures View() == Run(w, f, grown) && BrowserSession.Inv(View(), f) && !end.Answered?
      ensures r in sends && sends[r] == if end.RepeatedAtOnce? || end.RepeatedAfter? then 2 else 1
      ensures end.RepeatedAtOnce? ==> tokenAgain.Some? && tokenAgain != old(requests[r].used)
      ensures end.RepeatedAfter? ==> end.promise in outcomes && outcomes[end.promise]
      ensures end.SignedOut? ==> end.promise in outcomes && !outcomes[end.promise] && accessToken.None? && !csrfToken
      ensures end.Waiting? ==> end.promise !in outcomes
    {
      var retried := Handle401(r, requests[r].used, call);
      grown := Logged(w, f, trace, Answer(r, true, call));
      tokenAgain := None;
      if retried {
        end, tokenAgain := RepeatedAtOnce, accessToken;
      } else {
        end, grown := AwaitRefresh(r, env[0], w, f, grown);
      }
      if end.RepeatedAtOnce? || end.RepeatedAfter? { grown := FinishSecond(r, second401, env[1], w, f, grown); }
    }

    /** await refreshSession(), then either the repeat or the end of the session. */
    method AwaitRefresh(r: RequestId, env: seq<Event>, ghost w: World, f: Server.FamilyId, trace: seq<Event>)
      returns (end: End, grown: seq<Event>)
      requires View() == Run(w, f, trace) && BrowserSession.Inv(View(), f) && AllForeign(env, r)
      requires r in requests && requests[r].Awaiting? && r in sends && sends[r] == 1
      modifies this
      ensures View() == Run(w, f, grown) && BrowserSession.Inv(View(), f)
      ensures end == Waiting(old(requests[r].promise)) || end == RepeatedAfter(old(requests[r].promise))
              || end == End.SignedOut(old(requests[r].promise))
      ensures r in requests && r in sends && sends[r] == (if end.RepeatedAfter? then 2 else 1)
      ensures end.RepeatedAfter? ==> requests[r].SecondTry? && end.promise in outcomes && outcomes[end.promise]
      ensures end.SignedOut? ==> end.promise in outcomes && !outcomes[end.promise] && accessToken.None? && !csrfToken
      ensures end.Waiting? ==> end.promise !in outcomes
    {
      grown := Elsewhere(w, f, trace, r, env);
      var n := requests[r].promise;
      if n !in outcomes { return Waiting(n), grown; }
      var refreshed := outcomes[n];
      ResumeRequest(r, refreshed);
      grown := Logged(w, f, grown, Resume(r));
      end := if refreshed then RepeatedAfter(n) else End.SignedOut(n);
    }

    /** retryOnce after its second request. */
    method FinishSecond(r: RequestId, second401: bool, env: seq<Event>, ghost w: World, f: Server.FamilyId,
                        trace: seq<Event>)
      returns (grown: seq<Event>)
      requires View() == Run(w, f, trace) && BrowserSession.Inv(View(), f) && AllForeign(env, r)
      requires r in requests && requests[r].SecondTry? && r in sends && sends[r] == 2
      modifies this
      ensures View() == Run(w, f, grown) && BrowserSession.Inv(View(), f)
      ensures r in sends && sends[r] == 2
      ensures forall n :: n in old(outcomes) ==> n in outcomes && outcomes[n] == old(outcomes)[n]
    {
      OutcomesStay(View(), f, env);
      grown := Elsewhere(w, f, trace, r, env);
      if second401 { ClearTokens(); }
      requests := requests[r := Finished];
      grown := Logged(w, f, grown, AnswerAgain(r, second401));
    }

    /** What happens elsewhere while request r waits. */
    method Elsewhere(ghost w: World, f: Server.FamilyId, trace: seq<Event>, r: RequestId, env: seq<Event>)
      returns (grown: seq<Event>)
      requires View() == Run(w, f, trace) && BrowserSession.Inv(View(), f)
      requires AllForeign(env, r) && r in requests && r in sends
      modifies this
      ensures View() == Run(w, f, grown) == Run(old(View()), f, env) && BrowserSession.Inv(View(), f)
      ensures r in requests && requests[r] == old(requests)[r] && r in sends && sends[r] == old(sends)[r]
    {
      ForeignRun(View(), f, env, r);
      RunKeeps(View(), f, env);
      RunSplits(w, f, trace, env);
      grown := trace + env;
      Become(env, f);
    }

    method Become(env: seq<Event>, f: Server.FamilyId)
      modifies this
      ensures View() == Run(old(View()), f, env)
    {
      Take(Run(View(), f, env));
    }

    method Take(s: World)
      modifies this
      ensures View() == s
    {
      server := s.server;
      accessToken, csrfToken, cookie, refreshPromise := s.tab.access, s.tab.csrf, s.tab.cookie, s.tab.promise;
      promises, outcomes, requests, sends := s.tab.promises, s.tab.outcomes, s.tab.requests, s.tab.sends;
      refreshes, sent, last, received := s.tab.refreshes, s.tab.sent, s.tab.last, s.tab.received;
    }

    /** The step just taken joins the trace. */
    method Logged(ghost w: World, f: Server.FamilyId, trace: seq<Event>, e: Event) returns (grown: seq<Event>)
      requires View() == Step(Run(w, f, trace), f, e) && BrowserSession.Inv(Run(w, f, trace), f)
      ensures grown == trace + [e] && View() == Run(w, f, grown) && BrowserSession.Inv(View(), f)
    {
      OneMore(w, f, trace, e);
      StepKeeps(Run(w, f, trace), f, e);
      grown := trace + [e];
    }

    method ClearTokens()
      modifies this`accessToken, this`csrfToken
      ensures View() == old(View()).(tab := BrowserSession.ClearTokens(old(View()).tab))
    {
      accessToken := None;
      csrfToken := false;
    }

    /** refreshSession with runRefresh up to its request; `call` is the request, should one go out. */
    method RefreshSession(call: CallId) returns (requested: bool)
      modifies this
      ensures View() == old(View()).(tab := BrowserSession.RefreshSession(old(View()).tab, call))
      ensures requested <==> old(refreshPromise).NoPromise? && old(csrfToken)
      ensures requested <==> refreshes != old(refreshes)
      ensures !refreshPromise.NoPromise?
    {
      requested := false;
      if refreshPromise.NoPromise? {
        if !csrfToken {
          refreshPromise := Resolved(false);
        } else {
          requested := true;
          refreshPromise := InFlight(call);
          refreshes, sent, last := refreshes + [accessToken], sent[call := cookie], Some(call);
        }
        promises := promises + 1;
      }
    }

    /** authorizedRequest up to its first request. */
    method SendFirst(r: RequestId) returns (tokenUsed: Option<Access>)
      modifies this
      ensures tokenUsed == accessToken && View() == old(View()).(tab := FirstSend(old(View()).tab, r))
    {
      tokenUsed := accessToken;
      requests, sends := requests[r := FirstTry(tokenUsed)], sends[r := 1];
    }

    /** The catch block after a 401. */
    method Handle401(r: RequestId, tokenUsed: Option<Access>, call: CallId) returns (retried: bool)
      requires r in sends
      modifies this
      ensures View() == old(View()).(tab := After401(old(View()).tab, r, tokenUsed, call))
      ensures retried <==> old(accessToken).Some? && old(accessToken) != tokenUsed
      ensures retried ==> requests[r].SecondTry? && refreshes == old(refreshes) && accessToken == old(accessToken)
      ensures !retried ==> requests[r].Awaiting? && requests[r].promise == promises
    {
      retried := accessToken.Some? && accessToken != tokenUsed;
      if retried {
        Retry(r);
      } else {
        var _ := RefreshSession(call);
        requests := requests[r := Awaiting(promises)];
      }
    }

    method Retry(r: RequestId)
      requires r in sends
      modifies this`requests, this`sends
      ensures View() == old(View()).(tab := SendAgain(old(View()).tab, r))
    {
      requests, sends := requests[r := SecondTry], sends[r := sends[r] + 1];
    }

    /** authorizedRequest after `await refreshSession()`. */
    method ResumeRequest(r: RequestId, refreshed: bool)
      requires r in sends
      modifies this
      ensures View() == old(View()).(tab := AfterPromise(old(View()).tab, r, refreshed))
      ensures sends[r] == old(sends[r]) + if refreshed then 1 else 0
    {
      if refreshed {
        Retry(r);
      } else {
        ClearTokens();
        requests := requests[r := Finished];
      }
    }

    /**
     * runRefresh after its answer: the Set-Cookie header, the two tokens, the result. Afterwards the tab holds an
     * access token it has never refreshed with, and its cookie is the live and latest token of its family.
     */
    method OnRefreshed(f: Server.FamilyId, access: Access)
      requires BrowserSession.Inv(View(), f) && AnsweredWith(View()).Some? && access !in received
      modifies this`cookie, this`accessToken, this`csrfToken, this`refreshPromise, this`received
      ensures View() == Step(old(View()), f, RefreshAnswered(access)) && BrowserSession.Inv(View(), f)
      ensures accessToken == Some(access) && csrfToken && refreshPromise == Resolved(true) && Some(access) !in refreshes
      ensures f in server.families && GoodToken(server, f, cookie) && server.families[f].tip == cookie
    {
      AnswerIsGood(View(), f, access);
      cookie := AnsweredWith(View()).value;
      accessToken, csrfToken := Some(access), true;
      refreshPromise := Resolved(true);
      received := received + {access};
    }

    /** runRefresh's catch: a refusal, or no answer at all. Nothing that follows sends another refresh. */
    method OnRefreshFailed(f: Server.FamilyId, cookieArrived: bool)
      requires BrowserSession.Inv(View(), f) && refreshPromise.InFlight?
      modifies this
      ensures View() == Step(old(View()), f, RefreshFails(cookieArrived)) && BrowserSession.Inv(View(), f)
      ensures accessToken.None? && !csrfToken
      ensures forall es :: Run(View(), f, es).tab.refreshes == refreshes
    {
      StepKeeps(View(), f, RefreshFails(cookieArrived));
      if cookieArrived && AnsweredWith(View()).Some? {
        cookie := AnsweredWith(View()).value;
      }
      ClearTokens();
      refreshPromise := Resolved(false);
      forall es ensures Run(View(), f, es).tab.refreshes == refreshes { StaysSignedOut(View(), f, es); }
    }

    /** `finally`: the promise variable is emptied, and those who share the promise learn its outcome. */
    method RunFinally(f: Server.FamilyId) returns (ok: bool)
      requires BrowserSession.Inv(View(), f) && refreshPromise.Resolved?
      modifies this
      ensures View() == Step(old(View()), f, Event.RunFinally) && BrowserSession.Inv(View(), f)
      ensures ok == old(refreshPromise).ok && promises in outcomes && outcomes[promises] == ok
    {
      StepKeeps(View(), f, Event.RunFinally);
      ok := refreshPromise.ok;
      refreshPromise := NoPromise;
      outcomes := outcomes[promises := ok];
    }
  }

  /** What an answered refresh leaves the tab with. */
  lemma AnswerIsGood(w: World, f: Server.FamilyId, access: Access)
    requires BrowserSession.Inv(w, f) && AnsweredWith(w).Some? && access !in w.tab.received
    ensures var u := Step(w, f, RefreshAnswered(access));
            && BrowserSession.Inv(u, f) && Some(access) !in u.tab.refreshes
            && GoodToken(u.server, f, u.tab.cookie) && u.server.families[f].tip == u.tab.cookie
  {
    var u := Step(w, f, RefreshAnswered(access));
    StepKeeps(w, f, RefreshAnswered(access));
    GoodIsTip(u, f);
  }

  lemma GoodIsTip(w: World, f: Server.FamilyId)
    requires BrowserSession.Inv(w, f) && w.tab.csrf && !w.tab.promise.InFlight?
    ensures GoodToken(w.server, f, w.tab.cookie) && w.server.families[f].tip == w.tab.cookie
  {
    assert Server.RowInv(w.server, w.tab.cookie);
  }

  lemma NotSent(w: World, f: Server.FamilyId, r: RequestId)
    requires BrowserSession.Inv(w, f) && r !in w.tab.requests
    ensures r !in w.tab.sends && Step(w, f, Event.Send(r)) == w.(tab := FirstSend(w.tab, r)) && Run(w, f, []) == w
  {
  }
}
