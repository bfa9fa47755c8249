/** request_router of src/request/router.c: the path decides which handler
    runs; paths under "/vzw" go to the ThingSpace handlers, "/firmware" to the
    firmware download, anything else gets a 404. After a handler the router
    completes the request itself, although every handler already did. */
module Router {
  import opened CStrings
  import opened Unit
  import VzwHandler
  import Credentials
  import Firmware
  import Redis

  const VzwPrefix: CStr := "/vzw"
  const NiddPath: CStr := "/nidd"
  const ListenersPath: CStr := "/registered_callback_listeners"
  const FirmwarePath: CStr := "/firmware"
  const NotFoundBody: string := "Error 404"

  /** The handler a path selects. */
  datatype Target = SendNidd | CallbackListeners | Callback | FirmwareDownload | NotFound {
    /** The handlers behind "/vzw", which use the credential cache. */
    predicate UnderVzw() {
      SendNidd? || CallbackListeners? || Callback?
    }
  }

  /** The three strncmp tests against "/vzw", then on path + 4 against
      "/nidd" and "/registered_callback_listeners", and against "/firmware". */
  function Route(path: CStr): Target {
    if StrNEqual(path, VzwPrefix, 4) then
      StrNEqualIsPrefix(path, VzwPrefix);
      var rest := path[4..];
      if StrNEqual(rest, NiddPath, 5) then SendNidd
      else if StrNEqual(rest, ListenersPath, 30) then CallbackListeners
      else Callback
    else if StrNEqual(path, FirmwarePath, 9) then FirmwareDownload
    else NotFound
  }

  lemma StartsWithJoined(s: string, a: string, b: string)
    ensures StartsWith(s, a + b) <==> StartsWith(s, a) && StartsWith(s[|a|..], b)
  {
    if StartsWith(s, a) && StartsWith(s[|a|..], b) {
      assert s[..|a + b|] == s[..|a|] + s[|a|..][..|b|];
    }
    if StartsWith(s, a + b) {
      assert s[..|a|] == (a + b)[..|a|];
      assert s[|a|..][..|b|] == (a + b)[|a|..];
    }
  }

  /** Each handler is selected exactly by its path prefix, tested in the
      router's order: "/vzw/nidd" and "/vzw/registered_callback_listeners"
      before the callback, which takes every other path that starts with
      "/vzw" (even "/vzwx"), then "/firmware". */
  lemma RouteByPrefix(path: CStr)
    ensures Route(path) == SendNidd <==> StartsWith(path, VzwPrefix + NiddPath)
    ensures Route(path) == CallbackListeners <==> StartsWith(path, VzwPrefix + ListenersPath)
    ensures Route(path) == Callback <==>
      StartsWith(path, VzwPrefix) && !StartsWith(path, VzwPrefix + NiddPath) && !StartsWith(path, VzwPrefix + ListenersPath)
    ensures Route(path) == FirmwareDownload <==> !StartsWith(path, VzwPrefix) && StartsWith(path, FirmwarePath)
    ensures Route(path) == NotFound <==> !StartsWith(path, VzwPrefix) && !StartsWith(path, FirmwarePath)
  {
    StrNEqualIsPrefix(path, VzwPrefix);
    StrNEqualIsPrefix(path, FirmwarePath);
    StartsWithJoined(path, VzwPrefix, NiddPath);
    StartsWithJoined(path, VzwPrefix, ListenersPath);
    if StartsWith(path, VzwPrefix) {
      StrNEqualIsPrefix(path[4..], NiddPath);
      StrNEqualIsPrefix(path[4..], ListenersPath);
      if StartsWith(path[4..], NiddPath) {
        assert path[4..][1] == 'n' != ListenersPath[1];
      }
    }
  }

  /** The firmware upload, as firmware_request_handler finds it: the
      download's return code, the file, what fstat reports and whether the
      stream's error flag is set. */
  datatype Download = Download(rc: int, data: seq<char>, stat: Option<Firmware.FileStat>, readFails: bool)

  /** The 404 answer: response_init's result is discarded, so the body is
      written whatever the header calls returned, and rc stays 0. */
  function NotFoundLog(ok: nat -> bool, k: nat): Tail {
    Tail(HeaderCalls(ok, k, 404, TextPlainUtf8) + [WriteBody(NotFoundBody)], 0)
  }

  /** What the selected handler does, from position k; the 404 steps stop
      before the router's own request_done. */
  function Handled(r: Target, ownsConnection: bool, ok: nat -> bool, k: nat, m: CStr, contentLength: nat, requestBufSize: nat,
                   up: VzwHandler.Upstream, cred: Credentials.Outcome, dl: Download): Tail {
    match r
    case SendNidd => VzwHandler.NiddLog(ownsConnection, ok, k, requestBufSize, up, cred)
    case CallbackListeners => VzwHandler.ListenersLog(ownsConnection, ok, k, m, requestBufSize, up, cred)
    case Callback => VzwHandler.CallbackLog(ok, k, contentLength)
    case FirmwareDownload => Firmware.FirmwareLog(ok, k, dl.rc, dl.data, dl.stat, dl.readFails)
    case NotFound => NotFoundLog(ok, k)
  }

  /** Every handler completes the request itself, as its last step. */
  lemma HandlerCompletes(r: Target, ownsConnection: bool, ok: nat -> bool, k: nat, m: CStr, contentLength: nat, requestBufSize: nat,
                         up: VzwHandler.Upstream, cred: Credentials.Outcome, dl: Download)
    requires r != NotFound
    ensures CompletedOnce(Handled(r, ownsConnection, ok, k, m, contentLength, requestBufSize, up, cred, dl).events)
  {
    match r
    case SendNidd => VzwHandler.NiddBracketed(ownsConnection, ok, k, requestBufSize, up, cred);
    case CallbackListeners => VzwHandler.ListenersBracketed(ownsConnection, ok, k, m, requestBufSize, up, cred);
    case Callback => VzwHandler.CallbackNeverForwards(ok, k, contentLength);
    case FirmwareDownload => Firmware.FirmwareFinishes(ok, k, dl.rc, dl.data, dl.stat, dl.readFails);
  }

  /** The request_done at the router's end label, with rc still 0. */
  function Completed(events: seq<Event>): seq<Event> {
    events + [RequestDone(0)]
  }

  /** A handler's log followed by the router's request_done completes the
      request twice: once by the handler and once more, with 0, by the
      router. */
  lemma CompletedAgain(events: seq<Event>)
    requires CompletedOnce(events)
    ensures var e := Completed(events);
      && |e| >= 2 && e[|e| - 2].RequestDone? && e[|e| - 1] == RequestDone(0)
      && !CompletedOnce(e)
  {
  }

  /** As written, every routed request is completed twice. */
  lemma RoutedRequestsCompleteTwice(r: Target, ok: nat -> bool, k: nat, m: CStr, contentLength: nat, requestBufSize: nat,
                                    up: VzwHandler.Upstream, cred: Credentials.Outcome, dl: Download)
    requires r != NotFound
    ensures var e := Completed(Handled(r, true, ok, k, m, contentLength, requestBufSize, up, cred, dl).events);
      && |e| >= 2 && e[|e| - 2].RequestDone? && e[|e| - 1] == RequestDone(0)
      && !CompletedOnce(e)
  {
    HandlerCompletes(r, true, ok, k, m, contentLength, requestBufSize, up, cred, dl);
    CompletedAgain(Handled(r, true, ok, k, m, contentLength, requestBufSize, up, cred, dl).events);
  }

  /** As written, a 404 whose header calls failed still writes its body and
      completes with 0. */
  lemma NotFoundIgnoresHeaders(ok: nat -> bool, k: nat)
    requires !HeadersSent(ok, k)
    ensures var e := Completed(NotFoundLog(ok, k).events);
      && WriteBody(NotFoundBody) in e && e[|e| - 1] == RequestDone(0)
      && CompletedOnce(e)
  {
    var h := HeaderCalls(ok, k, 404, TextPlainUtf8);
    var e := Completed(NotFoundLog(ok, k).events);
    HeaderCallsStop(ok, k, 404, TextPlainUtf8);
    assert e == h + [WriteBody(NotFoundBody), RequestDone(0)];
    assert e[|h|] == WriteBody(NotFoundBody);
    forall i | 0 <= i < |e| - 1
      ensures !e[i].RequestDone?
    {
      if i < |h| {
        assert e[i] == HeaderEvents(404, TextPlainUtf8)[i];
      }
    }
  }

  /** The 404 with response_init's result kept in rc: the body only after
      the headers went out, and request_done with that result. */
  function CorrectedNotFound(ok: nat -> bool, k: nat): seq<Event> {
    var h := HeaderCalls(ok, k, 404, TextPlainUtf8);
    if HeadersSent(ok, k) then h + [WriteBody(NotFoundBody), RequestDone(0)]
    else h + [RequestDone(1)]
  }

  lemma CorrectedNotFoundWritesAfterHeaders(ok: nat -> bool, k: nat)
    ensures var e := CorrectedNotFound(ok, k);
      && (WriteBody(NotFoundBody) in e <==> HeadersSent(ok, k))
      && e[|e| - 1] == RequestDone(if HeadersSent(ok, k) then 0 else 1)
      && CompletedOnce(e)
  {
    var h := HeaderCalls(ok, k, 404, TextPlainUtf8);
    var e := CorrectedNotFound(ok, k);
    HeaderCallsStop(ok, k, 404, TextPlainUtf8);
    forall i | 0 <= i < |h|
      ensures !h[i].RequestDone? && !h[i].WriteBody?
    {
      assert h[i] == HeaderEvents(404, TextPlainUtf8)[i];
    }
    if HeadersSent(ok, k) {
      assert e[|h|] == WriteBody(NotFoundBody);
    } else {
      assert e == h + [RequestDone(1)];
      assert forall i :: 0 <= i < |e| ==> e[i] == if i < |h| then h[i] else RequestDone(1);
    }
  }

  /** The router as intended: a handler's own request_done is the request's
      only one, and the 404 keeps response_init's result. */
  function CorrectedRouterLog(r: Target, ok: nat -> bool, k: nat, m: CStr, contentLength: nat, requestBufSize: nat,
                              up: VzwHandler.Upstream, cred: Credentials.Outcome, dl: Download): seq<Event> {
    if r == NotFound then CorrectedNotFound(ok, k)
    else Handled(r, true, ok, k, m, contentLength, requestBufSize, up, cred, dl).events
  }

  lemma CorrectedRouterCompletesOnce(r: Target, ok: nat -> bool, k: nat, m: CStr, contentLength: nat, requestBufSize: nat,
                                     up: VzwHandler.Upstream, cred: Credentials.Outcome, dl: Download)
    ensures CompletedOnce(CorrectedRouterLog(r, ok, k, m, contentLength, requestBufSize, up, cred, dl))
  {
    if r == NotFound {
      CorrectedNotFoundWritesAfterHeaders(ok, k);
    } else {
      HandlerCompletes(r, true, ok, k, m, contentLength, requestBufSize, up, cred, dl);
    }
  }

  /** request_router on the request. The token buffers of the ThingSpace
      handlers and the cache are parameters; cred is what the credential
      protocol yields on them, which only the "/vzw" handlers use. */
  method RequestRouter(req: RequestInfo, server: Redis.Server, up: VzwHandler.Upstream, auth: array<char>, session: array<char>,
                       dl: Download, ghost cred: Credentials.Outcome)
    requires auth != session
    requires Route(req.path).UnderVzw() ==>
      && Credentials.Ready(VzwHandler.Connected(server.store, up), auth[..], session[..], up.mintAuth, up.mintSession)
      && cred == VzwHandler.Resolved(up, VzwHandler.Connected(server.store, up), auth[..], session[..])
    modifies req, server, auth, session
    ensures req.events == old(req.events)
      + Completed(Handled(Route(req.path), true, req.succeeds, |old(req.events)|, req.httpMethod, req.contentLength, req.requestBufSize, up, cred, dl).events)
  {
    var r := Route(req.path);
    if r.UnderVzw() {
      DispatchVzw(req, server, up, auth, session, r, dl, cred);
    } else {
      DispatchOther(req, r, up, dl, cred);
    }
    ghost var h := Handled(r, true, req.succeeds, |old(req.events)|, req.httpMethod, req.contentLength, req.requestBufSize, up, cred, dl);
    req.Record(RequestDone(0));
    Associative(old(req.events), h.events, [RequestDone(0)]);
  }

  /** The three ThingSpace handlers, each on its own cache connection. */
  method DispatchVzw(req: RequestInfo, server: Redis.Server, up: VzwHandler.Upstream, auth: array<char>, session: array<char>,
                     r: Target, dl: Download, ghost cred: Credentials.Outcome)
    requires auth != session && r.UnderVzw()
    requires Credentials.Ready(VzwHandler.Connected(server.store, up), auth[..], session[..], up.mintAuth, up.mintSession)
    requires cred == VzwHandler.Resolved(up, VzwHandler.Connected(server.store, up), auth[..], session[..])
    modifies req, server, auth, session
    ensures req.events == old(req.events)
      + Handled(r, true, req.succeeds, |old(req.events)|, req.httpMethod, req.contentLength, req.requestBufSize, up, cred, dl).events
  {
    match r
    case SendNidd =>
      VzwHandler.SendNidd(req, server, up, auth, session);
    case CallbackListeners =>
      VzwHandler.RegisteredCallbackListeners(req, server, up, auth, session);
    case Callback =>
      VzwHandler.Callback(req);
  }

  /** The firmware download and the 404. */
  method DispatchOther(req: RequestInfo, r: Target, up: VzwHandler.Upstream, dl: Download, ghost cred: Credentials.Outcome)
    requires !r.UnderVzw()
    modifies req
    ensures req.events == old(req.events)
      + Handled(r, true, req.succeeds, |old(req.events)|, req.httpMethod, req.contentLength, req.requestBufSize, up, cred, dl).events
  {
    if r == FirmwareDownload {
      Firmware.FirmwareRequestHandler(req, dl.rc, dl.data, dl.stat, dl.readFails);
    } else {
      var ignored := req.ResponseInit(404, TextPlainUtf8);
      req.Record(WriteBody(NotFoundBody));
      Associative(old(req.events), HeaderCalls(req.succeeds, |old(req.events)|, 404, TextPlainUtf8), [WriteBody(NotFoundBody)]);
    }
  }
}
