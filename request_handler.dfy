/** The context-passing copy of the request handling in src/request_handler.c.
    Its router opens the cache connection itself for every "/vzw" path,
    passes it to the handler, and releases it once the handler has returned;
    the handlers' bodies, the firmware download and the 404 are those of the
    split files. Like the split router, it completes the request again after
    the handler did. */
module RequestHandler {
  import opened CStrings
  import opened Unit
  import opened Router
  import VzwHandler
  import Credentials
  import Redis

  /** Nothing opens or releases a cache connection. */
  predicate NoConnection(events: seq<Event>) {
    forall i :: 0 <= i < |events| ==> !events[i].ConnectCache? && !events[i].FreeConnection?
  }

  /** A handler on a connection it was given neither opens nor frees one. */
  lemma BracketedWithoutConnection(events: seq<Event>, rc: int)
    requires VzwHandler.Bracketed(events, rc, false)
    ensures NoConnection(events)
  {
    var t := VzwHandler.Teardown(rc, false);
    VzwHandler.TeardownReleases(rc, false);
    assert t == [FreeResponse, RequestDone(rc)];
    forall i | 0 <= i < |events|
      ensures !events[i].ConnectCache? && !events[i].FreeConnection?
    {
      if i < |events| - |t| {
        assert events[i] == events[..|events| - |t|][i];
        assert Inner(events[0..|events| - |t|][i]);
      } else {
        assert events[i] == events[|events| - |t|..][i - (|events| - |t|)];
      }
    }
  }

  /** The three ThingSpace handlers, on the router's connection, leave the
      connection alone and complete the request themselves. */
  lemma SharedHandlerCompletes(r: Target, ok: nat -> bool, k: nat, m: CStr, contentLength: nat, requestBufSize: nat,
                               up: VzwHandler.Upstream, cred: Credentials.Outcome, dl: Download)
    requires r.UnderVzw()
    ensures var h := Handled(r, false, ok, k, m, contentLength, requestBufSize, up, cred, dl).events;
      NoConnection(h) && CompletedOnce(h)
  {
    var h := Handled(r, false, ok, k, m, contentLength, requestBufSize, up, cred, dl);
    match r
    case SendNidd =>
      VzwHandler.NiddBracketed(false, ok, k, requestBufSize, up, cred);
      BracketedWithoutConnection(h.events, h.rc);
    case CallbackListeners =>
      VzwHandler.ListenersBracketed(false, ok, k, m, requestBufSize, up, cred);
      BracketedWithoutConnection(h.events, h.rc);
    case Callback =>
      VzwHandler.CallbackNeverForwards(ok, k, contentLength);
  }

  /** request_router of the context-passing copy, from position k: for
      "/vzw", redis_connect, the handler on that connection, redisFree; then
      request_done with 0 on every path. */
  function ContextLog(r: Target, ok: nat -> bool, k: nat, m: CStr, contentLength: nat, requestBufSize: nat,
                      up: VzwHandler.Upstream, cred: Credentials.Outcome, dl: Download): seq<Event> {
    if r.UnderVzw() then
      [ConnectCache] + Handled(r, false, ok, k + 1, m, contentLength, requestBufSize, up, cred, dl).events + [FreeConnection, RequestDone(0)]
    else Completed(Handled(r, false, ok, k, m, contentLength, requestBufSize, up, cred, dl).events)
  }

  /** A "/vzw" request opens one connection, first, and frees it once, after
      the handler has completed the request. */
  lemma OneConnectionPerVzwRequest(r: Target, ok: nat -> bool, k: nat, m: CStr, contentLength: nat, requestBufSize: nat,
                                   up: VzwHandler.Upstream, cred: Credentials.Outcome, dl: Download)
    requires r.UnderVzw()
    ensures var e := ContextLog(r, ok, k, m, contentLength, requestBufSize, up, cred, dl);
      && |e| >= 4 && e[0] == ConnectCache && e[|e| - 2] == FreeConnection && e[|e| - 3].RequestDone?
      && forall i :: 0 < i < |e| - 2 ==> !e[i].ConnectCache? && !e[i].FreeConnection?
  {
    var h := Handled(r, false, ok, k + 1, m, contentLength, requestBufSize, up, cred, dl).events;
    var e := ContextLog(r, ok, k, m, contentLength, requestBufSize, up, cred, dl);
    SharedHandlerCompletes(r, ok, k + 1, m, contentLength, requestBufSize, up, cred, dl);
    assert e == [ConnectCache] + h + [FreeConnection, RequestDone(0)];
    forall i | 0 < i < |e| - 2
      ensures !e[i].ConnectCache? && !e[i].FreeConnection?
    {
      assert e[i] == h[i - 1];
    }
  }

  /** As written, every routed request is completed twice here too: by the
      handler and by the router's end label. */
  lemma ContextRequestsCompleteTwice(r: Target, ok: nat -> bool, k: nat, m: CStr, contentLength: nat, requestBufSize: nat,
                                     up: VzwHandler.Upstream, cred: Credentials.Outcome, dl: Download)
    requires r != NotFound
    ensures var e := ContextLog(r, ok, k, m, contentLength, requestBufSize, up, cred, dl);
      e[|e| - 1] == RequestDone(0) && !CompletedOnce(e)
  {
    var e := ContextLog(r, ok, k, m, contentLength, requestBufSize, up, cred, dl);
    if r.UnderVzw() {
      OneConnectionPerVzwRequest(r, ok, k, m, contentLength, requestBufSize, up, cred, dl);
    } else {
      HandlerCompletes(r, false, ok, k, m, contentLength, requestBufSize, up, cred, dl);
      CompletedAgain(Handled(r, false, ok, k, m, contentLength, requestBufSize, up, cred, dl).events);
    }
  }

  /** The context-passing router as intended: the handler's request_done is
      the only one, the connection is freed after it, and the 404 keeps
      response_init's result. */
  function CorrectedContextLog(r: Target, ok: nat -> bool, k: nat, m: CStr, contentLength: nat, requestBufSize: nat,
                               up: VzwHandler.Upstream, cred: Credentials.Outcome, dl: Download): seq<Event> {
    if r.UnderVzw() then
      [ConnectCache] + Handled(r, false, ok, k + 1, m, contentLength, requestBufSize, up, cred, dl).events + [FreeConnection]
    else CorrectedRouterLog(r, ok, k, m, contentLength, requestBufSize, up, cred, dl)
  }

  lemma CorrectedContextCompletesOnce(r: Target, ok: nat -> bool, k: nat, m: CStr, contentLength: nat, requestBufSize: nat,
                                      up: VzwHandler.Upstream, cred: Credentials.Outcome, dl: Download)
    ensures var e := CorrectedContextLog(r, ok, k, m, contentLength, requestBufSize, up, cred, dl);
      if r.UnderVzw() then e[|e| - 1] == FreeConnection && CompletedOnce(e[..|e| - 1])
      else CompletedOnce(e)
  {
    var e := CorrectedContextLog(r, ok, k, m, contentLength, requestBufSize, up, cred, dl);
    if r.UnderVzw() {
      var h := Handled(r, false, ok, k + 1, m, contentLength, requestBufSize, up, cred, dl).events;
      SharedHandlerCompletes(r, ok, k + 1, m, contentLength, requestBufSize, up, cred, dl);
      var p := e[..|e| - 1];
      assert p == [ConnectCache] + h;
      forall i | 0 < i < |p|
        ensures p[i] == h[i - 1]
      {
      }
    } else {
      CorrectedRouterCompletesOnce(r, ok, k, m, contentLength, requestBufSize, up, cred, dl);
    }
  }

  /** request_router of src/request_handler.c on the request. */
  method RequestRouter(req: RequestInfo, server: Redis.Server, up: VzwHandler.Upstream, auth: array<char>, session: array<char>,
                       dl: Download, ghost cred: Credentials.Outcome)
    requires auth != session
    requires Route(req.path).UnderVzw() ==>
      && Credentials.Ready(VzwHandler.Connected(server.store, up), auth[..], session[..], up.mintAuth, up.mintSession)
      && cred == VzwHandler.Resolved(up, VzwHandler.Connected(server.store, up), auth[..], session[..])
    modifies req, server, auth, session
    ensures req.events == old(req.events)
      + ContextLog(Route(req.path), req.succeeds, |old(req.events)|, req.httpMethod, req.contentLength, req.requestBufSize, up, cred, dl)
  {
    var r := Route(req.path);
    ghost var k := |req.events|;
    if r.UnderVzw() {
      ServeVzw(req, server, up, auth, session, r, dl, cred);
    } else {
      DispatchOther(req, r, up, dl, cred);
    }
    ghost var logged := req.events;
    req.Record(RequestDone(0));
    assert req.events == logged + [RequestDone(0)];
  }

  /** redis_connect, the handler on that connection, redisFree. */
  method ServeVzw(req: RequestInfo, server: Redis.Server, up: VzwHandler.Upstream, auth: array<char>, session: array<char>,
                  r: Target, dl: Download, ghost cred: Credentials.Outcome)
    requires auth != session && r.UnderVzw()
    requires Credentials.Ready(VzwHandler.Connected(server.store, up), auth[..], session[..], up.mintAuth, up.mintSession)
    requires cred == VzwHandler.Resolved(up, VzwHandler.Connected(server.store, up), auth[..], session[..])
    modifies req, server, auth, session
    ensures req.events == old(req.events) + ([ConnectCache]
      + Handled(r, false, req.succeeds, |old(req.events)| + 1, req.httpMethod, req.contentLength, req.requestBufSize, up, cred, dl).events
      + [FreeConnection])
  {
    var c := new Redis.Context.Connect(server, up.connected, up.link, up.refusal);
    req.Record(ConnectCache);
    assert c.State() == VzwHandler.Connected(old(server.store), up) && auth[..] == old(auth[..]) && session[..] == old(session[..]);
    ghost var connected := req.events;
    DispatchShared(req, c, up, auth, session, r, dl, cred);
    ghost var h := Handled(r, false, req.succeeds, |connected|, req.httpMethod, req.contentLength, req.requestBufSize, up, cred, dl).events;
    req.Record(FreeConnection);
    Regroup(old(req.events), [ConnectCache], h, [FreeConnection]);
  }

  /** The three ThingSpace handlers of src/request_handler.c, on the
      router's connection ctx. */
  method DispatchShared(req: RequestInfo, ctx: Redis.Context, up: VzwHandler.Upstream, auth: array<char>, session: array<char>,
                        r: Target, dl: Download, ghost cred: Credentials.Outcome)
    requires auth != session && r.UnderVzw()
    requires Credentials.Ready(ctx.State(), auth[..], session[..], up.mintAuth, up.mintSession)
    requires cred == VzwHandler.Resolved(up, ctx.State(), auth[..], session[..])
    modifies req, ctx, ctx.server, auth, session
    ensures req.events == old(req.events)
      + Handled(r, false, req.succeeds, |old(req.events)|, req.httpMethod, req.contentLength, req.requestBufSize, up, cred, dl).events
  {
    ghost var k := |req.events|;
    match r
    case SendNidd =>
      VzwHandler.NiddWith(req, ctx, up, auth, session, false, k, cred);
      VzwHandler.NiddLogShared(req.succeeds, k, req.requestBufSize, up, cred);
    case CallbackListeners =>
      VzwHandler.ListenersWith(req, ctx, up, auth, session, false, k, cred);
      VzwHandler.ListenersLogShared(req.succeeds, k, req.httpMethod, req.requestBufSize, up, cred);
    case Callback =>
      VzwHandler.Callback(req);
  }

  lemma Regroup<T>(start: seq<T>, a: seq<T>, b: seq<T>, c: seq<T>)
    ensures start + a + b + c == start + (a + b + c)
  {
  }
}
