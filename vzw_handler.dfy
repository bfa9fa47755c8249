/** The ThingSpace handlers of src/request/vzw_handler.c: the registered
    callback listeners endpoint, the NIDD send endpoint and the callback
    endpoint. Each handler of that file opens its own cache connection and
    releases it at its exit label; the context-passing copy in
    src/request_handler.c runs the same bodies on a connection its router
    opened, which `ownsConnection` selects.

    The vzw_nidd library the handlers call is not part of this model: it is an
    oracle from a call's name and arguments to the code it returns and the
    response_data it fills. */
module VzwHandler {
  import opened CStrings
  import opened Unit
  import opened Redis
  import opened VzwFields
  import Credentials

  /** What a vzw_nidd library call returns: its code and the response text. */
  datatype Reply = Reply(rc: int, response: seq<char>)

  type Library = (Api, seq<string>) -> Reply

  /** Everything outside the request a vzw handler depends on: the
      configuration, whether redis_connect reached the server, how many
      commands the link then carries and the error text, if any, the server
      answers them with, the two token mint outcomes, the library, and the
      TEST_MDN device number. */
  datatype Upstream = Upstream(
    secrets: Secrets, connected: bool, link: nat, refusal: Option<string>,
    mintAuth: Credentials.Mint, mintSession: Credentials.Mint,
    lib: Library, testMdn: CStr)

  /** The cache as redis_connect finds it. */
  function Connected(store: map<string, Entry>, up: Upstream): Db {
    Db(store, up.refusal, !up.connected, up.link)
  }

  /** The credential protocol on the handler's cache and token buffers. */
  function Resolved(up: Upstream, db: Db, auth: seq<char>, session: seq<char>): (out: Credentials.Outcome)
    requires Credentials.Ready(db, auth, session, up.mintAuth, up.mintSession)
    ensures out.rc == 0 || out.rc == 1
  {
    Credentials.Run(up.secrets, db, auth, session, up.mintAuth, up.mintSession)
  }

  // ---------------------------------------------------------------- dispatch

  datatype ListenerOp = List | Delete | Create

  /** The switch on http_method[0], with http_method[1] deciding a 'P':
      the terminator of an empty method or of "P" matches no case. */
  function MethodDispatch(m: CStr): Option<ListenerOp> {
    if |m| == 0 then None
    else if m[0] == 'G' then Some(List)
    else if m[0] == 'D' then Some(Delete)
    else if m[0] == 'P' && |m| > 1 && m[1] == 'O' then Some(Create)
    else None
  }

  /** The standard methods: GET lists, DELETE deletes, POST creates, and PUT,
      PATCH, HEAD and OPTIONS are not allowed. */
  lemma StandardMethods()
    ensures MethodDispatch("GET") == Some(List) && MethodDispatch("DELETE") == Some(Delete)
    ensures MethodDispatch("POST") == Some(Create)
    ensures MethodDispatch("PUT") == None && MethodDispatch("PATCH") == None
    ensures MethodDispatch("HEAD") == None && MethodDispatch("OPTIONS") == None
  {
  }

  /** Only the first two characters of the method take part in the switch. */
  lemma DispatchReadsTwoCharacters(m: CStr, n: CStr)
    requires m[..Min(2, |m|)] == n[..Min(2, |n|)]
    ensures MethodDispatch(m) == MethodDispatch(n)
  {
    if |m| > 0 {
      assert m[0] == m[..Min(2, |m|)][0];
      assert n[0] == n[..Min(2, |n|)][0];
    }
    if |m| > 1 {
      assert m[1] == m[..2][1];
      assert |n| > 1 && n[1] == n[..2][1];
    }
  }

  /** The library call of each operation: the account name and the two
      tokens, and for delete and create the "NiddService" service name (and an
      empty callback URL for create). */
  function ListenerCall(op: ListenerOp, account: string, auth: string, session: string): (e: Event)
    ensures e.LibraryCall? && |e.args| >= 3 && e.args[..3] == [account, auth, session]
  {
    match op
    case List => LibraryCall(GetRegisteredCallbackListeners, [account, auth, session])
    case Delete => LibraryCall(DeleteRegisteredCallbackListeners, [account, auth, session, "NiddService"])
    case Create => LibraryCall(SetRegisteredCallbackListeners, [account, auth, session, "NiddService", ""])
  }

  // ------------------------------------------------------------ exit paths

  /** The exit label: free(response_data.response), redisFree when the
      handler owns the connection, and nxt_unit_request_done(rc). */
  function Teardown(rc: int, ownsConnection: bool): (t: seq<Event>)
    ensures |t| >= 2 && t[0] == FreeResponse && t[|t| - 1] == RequestDone(rc)
  {
    [FreeResponse] + (if ownsConnection then [FreeConnection] else []) + [RequestDone(rc)]
  }

  /** The exit label only releases and completes: it opens nothing and
      sends nothing. */
  lemma TeardownReleases(rc: int, ownsConnection: bool)
    ensures var t := Teardown(rc, ownsConnection);
      forall i :: 0 <= i < |t| ==> !t[i].ConnectCache? && !Inner(t[i])
  {
  }

  /** redis_connect at the top of a handler that owns its connection. */
  function Opening(ownsConnection: bool): seq<Event> {
    if ownsConnection then [ConnectCache] else []
  }

  /** A handler's log: its opening, then only inner steps, then its exit
      label; so the buffer and the connection are released once, at the end,
      and the request is completed once, by the last step. */
  predicate Bracketed(events: seq<Event>, rc: int, ownsConnection: bool) {
    var o := Opening(ownsConnection);
    var t := Teardown(rc, ownsConnection);
    && |o| + |t| <= |events|
    && events[..|o|] == o
    && events[|events| - |t|..] == t
    && Working(events[|o|..|events| - |t|])
  }

  lemma BracketedAround(o: seq<Event>, mid: seq<Event>, t: seq<Event>, rc: int, ownsConnection: bool)
    requires o == Opening(ownsConnection) && t == Teardown(rc, ownsConnection) && Working(mid)
    ensures Bracketed(o + mid + t, rc, ownsConnection)
  {
    var events := o + mid + t;
    assert events[..|o|] == o;
    assert events[|events| - |t|..] == t;
    assert events[|o|..|events| - |t|] == mid;
  }

  /** A bracketed log completes the request once. */
  lemma BracketedCompletesOnce(events: seq<Event>, rc: int, ownsConnection: bool)
    requires Bracketed(events, rc, ownsConnection)
    ensures CompletedOnce(events)
  {
    var o := Opening(ownsConnection);
    var t := Teardown(rc, ownsConnection);
    forall i | 0 <= i < |events| - 1
      ensures !events[i].RequestDone?
    {
      if i < |o| {
        assert events[i] == events[..|o|][i];
      } else if i < |events| - |t| {
        assert events[i] == events[|o|..|events| - |t|][i - |o|];
      } else {
        assert events[i] == events[|events| - |t|..][i - (|events| - |t|)];
      }
    }
    assert events[|events| - 1] == events[|events| - |t|..][|t| - 1];
  }

  /** The steps of a handler followed by its exit label. */
  function Closed(ownsConnection: bool, steps: Tail): seq<Event> {
    steps.events + Teardown(steps.rc, ownsConnection)
  }

  /** A handler's whole log: its opening, its steps and its exit label, which
      completes the request with the code the steps ended with. */
  function Handler(ownsConnection: bool, steps: Tail): Tail {
    Tail(Opening(ownsConnection) + Closed(ownsConnection, steps), steps.rc)
  }

  /** A handler whose steps are all inner steps is bracketed: the buffer and
      its own connection are released once, at the end, and the request is
      completed once, by the last step. */
  lemma HandlerBracketed(ownsConnection: bool, steps: Tail)
    requires Working(steps.events)
    ensures Bracketed(Handler(ownsConnection, steps).events, steps.rc, ownsConnection)
    ensures CompletedOnce(Handler(ownsConnection, steps).events)
  {
    var o := Opening(ownsConnection);
    var t := Teardown(steps.rc, ownsConnection);
    Associative(o, steps.events, t);
    BracketedAround(o, steps.events, t, steps.rc, ownsConnection);
    BracketedCompletesOnce(Handler(ownsConnection, steps).events, steps.rc, ownsConnection);
  }

  /** nxt_unit_response_buf_alloc for the request buffer's size plus the
      response, the response copied in, and nxt_unit_buf_send; an allocation
      that fails sets NXT_UNIT_ERROR. */
  function Deliver(ok: nat -> bool, k: nat, response: seq<char>, requestBufSize: nat): (t: Tail)
    ensures Working(t.events) && (t.rc == UnitOk || t.rc == UnitError)
    ensures t.rc == UnitOk <==> ok(k) && ok(k + 1)
    ensures ok(k) ==> t.events == [AllocBuf(requestBufSize + |response|), SendBuf(response, |response|)]
  {
    var alloc := AllocBuf(requestBufSize + |response|);
    if !ok(k) then Tail([alloc], UnitError)
    else Tail([alloc, SendBuf(response, |response|)], Outcome(ok, k + 1))
  }

  method DeliverResponse(req: RequestInfo, response: seq<char>) returns (rc: int)
    modifies req
    ensures var t := Deliver(req.succeeds, |old(req.events)|, response, req.requestBufSize);
      req.events == old(req.events) + t.events && rc == t.rc
  {
    rc := req.Call(AllocBuf(req.requestBufSize + |response|));
    if rc != UnitOk {
      return UnitError;
    }
    rc := req.Call(SendBuf(response, |response|));
  }

  method Exit(req: RequestInfo, rc: int, ownsConnection: bool)
    modifies req
    ensures req.events == old(req.events) + Teardown(rc, ownsConnection)
  {
    req.Record(FreeResponse);
    if ownsConnection {
      req.Record(FreeConnection);
    }
    req.Record(RequestDone(rc));
  }

  // ------------------------------------------------ registered callback listeners

  /** vzw_registered_callback_listeners after vzw_credentials_handler returned
      credRc: a failure goes straight to the exit label; a method outside the
      switch gets a bare 405 (no field, no body) whose send result becomes rc;
      otherwise the library call, then 202 JSON headers, then the response in
      one buffer. */
  function ListenersBody(ok: nat -> bool, k: nat, m: CStr, credRc: int, account: string, auth: string, session: string, lib: Library, requestBufSize: nat): (t: Tail)
    ensures Working(t.events)
  {
    if credRc == 1 then Tail([], 1)
    else match MethodDispatch(m)
      case None => Tail([InitResponse(405, 0, 0), SendHeaders], Outcome(ok, k + 1))
      case Some(op) =>
        var call := ListenerCall(op, account, auth, session);
        var reply := lib(call.api, call.args);
        if reply.rc == 1 then Tail([call], 1)
        else
          var h := HeaderCalls(ok, k + 1, 202, JsonUtf8);
          HeaderCallsWorking(ok, k + 1, 202, JsonUtf8);
          if !HeadersSent(ok, k + 1) then Tail([call] + h, 1)
          else
            var d := Deliver(ok, k + 4, reply.response, requestBufSize);
            WorkingAppend([call] + h, d.events);
            Tail([call] + h + d.events, d.rc)
  }

  method ListenersAfterCredentials(req: RequestInfo, credRc: int, account: string, auth: string, session: string, lib: Library)
    returns (rc: int)
    modifies req
    ensures var t := ListenersBody(req.succeeds, |old(req.events)|, req.httpMethod, credRc, account, auth, session, lib, req.requestBufSize);
      req.events == old(req.events) + t.events && rc == t.rc
  {
    if credRc == 1 {
      return 1;
    }
    var op := MethodDispatch(req.httpMethod);
    if op.None? {
      rc := req.Call(InitResponse(405, 0, 0));
      rc := req.Call(SendHeaders);
      return;
    }
    var call := ListenerCall(op.value, account, auth, session);
    var reply := lib(call.api, call.args);
    req.Record(call);
    if reply.rc == 1 {
      return 1;
    }
    ghost var before := req.events;
    rc := req.ResponseInit(202, JsonUtf8);
    if rc == 1 {
      return;
    }
    ghost var headed := req.events;
    rc := DeliverResponse(req, reply.response);
    Associative(old(req.events), [call], HeaderCalls(req.succeeds, |before|, 202, JsonUtf8));
    Associative(old(req.events), [call] + HeaderCalls(req.succeeds, |before|, 202, JsonUtf8), req.events[|headed|..]);
  }

  /** The listener handler from the credential step to the exit label: that
      step and the body. */
  function ListenersSteps(ok: nat -> bool, k: nat, m: CStr, requestBufSize: nat, account: string, lib: Library, credRc: int, auth: string, session: string): (t: Tail)
    ensures Working(t.events)
  {
    var b := ListenersBody(ok, k + 1, m, credRc, account, auth, session, lib, requestBufSize);
    WorkingAppend([ResolveCredentials(credRc)], b.events);
    Tail([ResolveCredentials(credRc)] + b.events, b.rc)
  }

  /** The whole listener handler, with the credential outcome cred. */
  function ListenersLog(ownsConnection: bool, ok: nat -> bool, k: nat, m: CStr, requestBufSize: nat, up: Upstream, cred: Credentials.Outcome): Tail {
    Handler(ownsConnection, ListenersSteps(ok, k + |Opening(ownsConnection)|, m, requestBufSize, up.secrets.accountName, up.lib, cred.rc, CString(cred.auth), CString(cred.session)))
  }

  /** The parts of the listener log, with the body starting after the opening
      and the credential step. */
  lemma ListenersLogParts(ownsConnection: bool, ok: nat -> bool, k: nat, m: CStr, requestBufSize: nat, up: Upstream, cred: Credentials.Outcome)
    ensures var o := Opening(ownsConnection);
      var b := ListenersBody(ok, k + |o| + 1, m, cred.rc, up.secrets.accountName, CString(cred.auth), CString(cred.session), up.lib, requestBufSize);
      var t := ListenersLog(ownsConnection, ok, k, m, requestBufSize, up, cred);
      t.events == o + ([ResolveCredentials(cred.rc)] + b.events + Teardown(b.rc, ownsConnection)) && t.rc == b.rc
  {
  }

  /** The credentials are resolved before the method is looked at; when they
      fail the handler goes to its exit label without any response status. */
  lemma ListenersCredentialsFirst(ownsConnection: bool, ok: nat -> bool, k: nat, m: CStr, requestBufSize: nat, up: Upstream, cred: Credentials.Outcome)
    ensures var t := ListenersLog(ownsConnection, ok, k, m, requestBufSize, up, cred);
      var o := Opening(ownsConnection);
      && t.events[|o|] == ResolveCredentials(cred.rc)
      && (cred.rc == 1 ==> t.events == o + ([ResolveCredentials(1)] + Teardown(1, ownsConnection)) && t.rc == 1)
  {
    ListenersLogParts(ownsConnection, ok, k, m, requestBufSize, up, cred);
  }

  /** A method outside the switch gets 405 with no field and no body, after
      the credentials were resolved; rc is the result of sending the headers. */
  lemma MethodNotAllowed(ownsConnection: bool, ok: nat -> bool, k: nat, m: CStr, requestBufSize: nat, up: Upstream, cred: Credentials.Outcome)
    requires cred.rc != 1 && MethodDispatch(m).None?
    ensures var t := ListenersLog(ownsConnection, ok, k, m, requestBufSize, up, cred);
      var o := Opening(ownsConnection);
      && t.events == o + ([ResolveCredentials(cred.rc)] + [InitResponse(405, 0, 0), SendHeaders] + Teardown(t.rc, ownsConnection))
      && (t.rc == UnitOk <==> ok(k + |o| + 2))
  {
    ListenersLogParts(ownsConnection, ok, k, m, requestBufSize, up, cred);
  }

  /** When the credentials, the library call and every transport call
      succeed, the handler answers 202 with the JSON content type and the
      library's response as the body, byte for byte, and completes with 0. */
  lemma ListenersAccepted(ownsConnection: bool, ok: nat -> bool, k: nat, m: CStr, requestBufSize: nat, up: Upstream, cred: Credentials.Outcome)
    requires cred.rc == 0 && MethodDispatch(m).Some?
    requires forall j :: ok(j)
    ensures var call := ListenerCall(MethodDispatch(m).value, up.secrets.accountName, CString(cred.auth), CString(cred.session));
      var reply := up.lib(call.api, call.args);
      var t := ListenersLog(ownsConnection, ok, k, m, requestBufSize, up, cred);
      reply.rc != 1 ==>
        && t.rc == 0
        && t.events == Opening(ownsConnection) + ([ResolveCredentials(0)] + ([call] + HeaderEvents(202, JsonUtf8)
             + [AllocBuf(requestBufSize + |reply.response|), SendBuf(reply.response, |reply.response|)])
             + Teardown(0, ownsConnection))
  {
    var o := Opening(ownsConnection);
    var call := ListenerCall(MethodDispatch(m).value, up.secrets.accountName, CString(cred.auth), CString(cred.session));
    var reply := up.lib(call.api, call.args);
    ListenersLogParts(ownsConnection, ok, k, m, requestBufSize, up, cred);
    if reply.rc != 1 {
      var b := ListenersBody(ok, k + |o| + 1, m, cred.rc, up.secrets.accountName, CString(cred.auth), CString(cred.session), up.lib, requestBufSize);
      assert HeadersSent(ok, k + |o| + 2);
      HeaderCallsStop(ok, k + |o| + 2, 202, JsonUtf8);
      assert b.events == [call] + HeaderEvents(202, JsonUtf8)
        + [AllocBuf(requestBufSize + |reply.response|), SendBuf(reply.response, |reply.response|)];
      assert b.rc == 0;
    }
  }

  /** Every exit of the listener handler releases the buffer (and its own
      connection) once and completes the request once. */
  lemma ListenersBracketed(ownsConnection: bool, ok: nat -> bool, k: nat, m: CStr, requestBufSize: nat, up: Upstream, cred: Credentials.Outcome)
    ensures var t := ListenersLog(ownsConnection, ok, k, m, requestBufSize, up, cred);
      Bracketed(t.events, t.rc, ownsConnection) && CompletedOnce(t.events)
  {
    HandlerBracketed(ownsConnection, ListenersSteps(ok, k + |Opening(ownsConnection)|, m, requestBufSize, up.secrets.accountName, up.lib, cred.rc, CString(cred.auth), CString(cred.session)));
  }

  /** On a connection it was given, the handler's log is its steps and its
      exit label. */
  lemma ListenersLogShared(ok: nat -> bool, k: nat, m: CStr, requestBufSize: nat, up: Upstream, cred: Credentials.Outcome)
    ensures ListenersLog(false, ok, k, m, requestBufSize, up, cred).events
      == Closed(false, ListenersSteps(ok, k, m, requestBufSize, up.secrets.accountName, up.lib, cred.rc, CString(cred.auth), CString(cred.session)))
  {
  }

  /** With its own connection the handler's steps start one event later. */
  lemma ListenersLogOwned(ok: nat -> bool, k: nat, m: CStr, requestBufSize: nat, up: Upstream, cred: Credentials.Outcome)
    ensures ListenersLog(true, ok, k, m, requestBufSize, up, cred)
      == Handler(true, ListenersSteps(ok, k + 1, m, requestBufSize, up.secrets.accountName, up.lib, cred.rc, CString(cred.auth), CString(cred.session)))
  {
  }

  /** vzw_registered_callback_listeners of src/request/vzw_handler.c, with its
      own cache connection. The two token buffers are the handler's stack
      arrays, passed in so that their unspecified contents can be named. */
  method RegisteredCallbackListeners(req: RequestInfo, server: Server, up: Upstream, auth: array<char>, session: array<char>)
    requires auth != session
    requires Credentials.Ready(Connected(server.store, up), auth[..], session[..], up.mintAuth, up.mintSession)
    modifies req, server, auth, session
    ensures var cred := Resolved(up, Connected(old(server.store), up), old(auth[..]), old(session[..]));
      && req.events == old(req.events) + ListenersLog(true, req.succeeds, |old(req.events)|, req.httpMethod, req.requestBufSize, up, cred).events
      && server.store == cred.db.store && auth[..] == cred.auth && session[..] == cred.session
  {
    var ctx := new Context.Connect(server, up.connected, up.link, up.refusal);
    req.Record(ConnectCache);
    assert ctx.State() == Connected(old(server.store), up) && auth[..] == old(auth[..]) && session[..] == old(session[..]);
    ghost var k := |old(req.events)|;
    ghost var cred := Resolved(up, Connected(old(server.store), up), old(auth[..]), old(session[..]));
    ListenersWith(req, ctx, up, auth, session, true, k + 1, cred);
    ghost var steps := ListenersSteps(req.succeeds, k + 1, req.httpMethod, req.requestBufSize, up.secrets.accountName, up.lib, cred.rc, CString(cred.auth), CString(cred.session));
    ListenersLogOwned(req.succeeds, k, req.httpMethod, req.requestBufSize, up, cred);
    Associative(old(req.events), [ConnectCache], Closed(true, steps));
  }

  /** The listener handler from the credential step on, on the connection
      ctx; k is the position of the credential step in the log and cred the
      outcome of the credential protocol on ctx and the two buffers. */
  method ListenersWith(req: RequestInfo, ctx: Context, up: Upstream, auth: array<char>, session: array<char>, ownsConnection: bool,
                       ghost k: nat, ghost cred: Credentials.Outcome)
    requires auth != session && Credentials.Ready(ctx.State(), auth[..], session[..], up.mintAuth, up.mintSession)
    requires k == |req.events| && cred == Resolved(up, ctx.State(), auth[..], session[..])
    modifies req, ctx, ctx.server, auth, session
    ensures req.events == old(req.events) + Closed(ownsConnection, ListenersSteps(req.succeeds, k, req.httpMethod, req.requestBufSize,
      up.secrets.accountName, up.lib, cred.rc, CString(cred.auth), CString(cred.session)))
    ensures ctx.State() == cred.db && auth[..] == cred.auth && session[..] == cred.session
  {
    var credRc := Authenticate(ctx, up, auth, session);
    ListenersRest(req, ownsConnection, credRc, up.secrets.accountName, CString(auth[..]), CString(session[..]), up.lib);
  }

  method ListenersRest(req: RequestInfo, ownsConnection: bool, credRc: int, account: string, auth: string, session: string, lib: Library)
    modifies req
    ensures req.events == old(req.events) + Closed(ownsConnection, ListenersSteps(req.succeeds, |old(req.events)|, req.httpMethod, req.requestBufSize,
      account, lib, credRc, auth, session))
  {
    req.Record(ResolveCredentials(credRc));
    ghost var pre := req.events;
    var rc := ListenersAfterCredentials(req, credRc, account, auth, session, lib);
    ghost var mid := req.events;
    Exit(req, rc, ownsConnection);
    Logged(old(req.events), [ResolveCredentials(credRc)], mid[|pre|..], Teardown(rc, ownsConnection), pre, mid, req.events);
  }

  /** vzw_credentials_handler on a connection and the two token buffers. */
  method Authenticate(ctx: Context, up: Upstream, auth: array<char>, session: array<char>) returns (rc: int)
    requires auth != session && Credentials.Ready(ctx.State(), auth[..], session[..], up.mintAuth, up.mintSession)
    modifies ctx, ctx.server, auth, session
    ensures var out := Resolved(up, old(ctx.State()), old(auth[..]), old(session[..]));
      rc == out.rc && ctx.State() == out.db && auth[..] == out.auth && session[..] == out.session
  {
    var trace;
    rc, trace := Credentials.Handle(ctx, up.secrets, auth, session, up.mintAuth, up.mintSession);
  }

  /** The log grows by an opening, a body and a teardown in turn. */
  lemma Logged(start: seq<Event>, o: seq<Event>, body: seq<Event>, t: seq<Event>, pre: seq<Event>, mid: seq<Event>, end: seq<Event>)
    requires pre == start + o && mid == pre + body && end == mid + t
    ensures end == start + (o + body + t)
  {
  }

  // --------------------------------------------------------------- send NIDD

  /** The library call of vzw_send_nidd: the account, the two tokens, the
      TEST_MDN device, a maximum delivery time of "400" and a fixed message. */
  function NiddCall(account: string, auth: string, session: string, mdn: string): Event {
    LibraryCall(SendNiddData, [account, auth, session, mdn, "400", "Hello world!\n"])
  }

  /** vzw_send_nidd after vzw_credentials_handler returned credRc: a failure
      goes to the fail label, otherwise the library call and the response in
      one buffer. No header call is left: they went out before the credentials. */
  function NiddBody(ok: nat -> bool, k: nat, credRc: int, account: string, auth: string, session: string, mdn: string, lib: Library, requestBufSize: nat): (t: Tail)
    ensures Working(t.events)
    ensures forall i :: 0 <= i < |t.events| ==> !t.events[i].InitResponse?
  {
    if credRc == 1 then Tail([], 1)
    else
      var call := NiddCall(account, auth, session, mdn);
      var reply := lib(call.api, call.args);
      if reply.rc == 1 then Tail([call], 1)
      else
        var d := Deliver(ok, k + 1, reply.response, requestBufSize);
        WorkingAppend([call], d.events);
        Tail([call] + d.events, d.rc)
  }

  method NiddAfterCredentials(req: RequestInfo, credRc: int, account: string, auth: string, session: string, mdn: string, lib: Library)
    returns (rc: int)
    modifies req
    ensures var t := NiddBody(req.succeeds, |old(req.events)|, credRc, account, auth, session, mdn, lib, req.requestBufSize);
      req.events == old(req.events) + t.events && rc == t.rc
  {
    if credRc == 1 {
      return 1;
    }
    var call := NiddCall(account, auth, session, mdn);
    var reply := lib(call.api, call.args);
    req.Record(call);
    if reply.rc == 1 {
      return 1;
    }
    ghost var called := req.events;
    rc := DeliverResponse(req, reply.response);
    Associative(old(req.events), [call], req.events[|called|..]);
  }

  /** vzw_send_nidd from response_init to the fail label: the 202 JSON
      header calls; when they fail, nothing more and 1; otherwise the
      credential step and the body. */
  function NiddSteps(ok: nat -> bool, k: nat, requestBufSize: nat, account: string, lib: Library, mdn: string, credRc: int, auth: string, session: string): (t: Tail)
    ensures Working(t.events)
  {
    var h := HeaderCalls(ok, k, 202, JsonUtf8);
    HeaderCallsWorking(ok, k, 202, JsonUtf8);
    if !HeadersSent(ok, k) then Tail(h, 1)
    else
      var b := NiddBody(ok, k + 4, credRc, account, auth, session, mdn, lib, requestBufSize);
      WorkingAppend(h, [ResolveCredentials(credRc)]);
      WorkingAppend(h + [ResolveCredentials(credRc)], b.events);
      Tail(h + [ResolveCredentials(credRc)] + b.events, b.rc)
  }

  /** Headers that fail leave nothing more to do before the fail label, and 1. */
  lemma NiddStepsUnsent(ok: nat -> bool, k: nat, requestBufSize: nat, account: string, lib: Library, mdn: string, credRc: int, auth: string, session: string)
    requires !HeadersSent(ok, k)
    ensures NiddSteps(ok, k, requestBufSize, account, lib, mdn, credRc, auth, session) == Tail(HeaderCalls(ok, k, 202, JsonUtf8), 1)
  {
  }

  /** Headers that went out are followed by the credential step and the body. */
  lemma NiddStepsSent(ok: nat -> bool, k: nat, requestBufSize: nat, account: string, lib: Library, mdn: string, credRc: int, auth: string, session: string)
    requires HeadersSent(ok, k)
    ensures var s := NiddSteps(ok, k, requestBufSize, account, lib, mdn, credRc, auth, session);
      var b := NiddBody(ok, k + 4, credRc, account, auth, session, mdn, lib, requestBufSize);
      s.events == HeaderCalls(ok, k, 202, JsonUtf8) + [ResolveCredentials(credRc)] + b.events && s.rc == b.rc
  {
  }

  /** The whole NIDD handler, with the credential outcome cred. */
  function NiddLog(ownsConnection: bool, ok: nat -> bool, k: nat, requestBufSize: nat, up: Upstream, cred: Credentials.Outcome): Tail {
    Handler(ownsConnection, NiddSteps(ok, k + |Opening(ownsConnection)|, requestBufSize, up.secrets.accountName, up.lib, up.testMdn, cred.rc, CString(cred.auth), CString(cred.session)))
  }

  predicate NoStatus(events: seq<Event>) {
    forall i :: 0 <= i < |events| ==> !events[i].InitResponse?
  }

  /** The steps start with status and initialise no other. */
  predicate StatusFirst(events: seq<Event>, status: Event) {
    |events| > 0 && events[0] == status && NoStatus(events[1..])
  }

  lemma NoStatusAppend(a: seq<Event>, b: seq<Event>)
    requires NoStatus(a) && NoStatus(b)
    ensures NoStatus(a + b)
  {
  }

  /** The steps start with the 202 status and initialise no other. */
  lemma NiddStepsStatus(ok: nat -> bool, k: nat, requestBufSize: nat, account: string, lib: Library, mdn: string, credRc: int, auth: string, session: string)
    ensures StatusFirst(NiddSteps(ok, k, requestBufSize, account, lib, mdn, credRc, auth, session).events, InitResponse(202, 1, FieldsSize(JsonUtf8)))
  {
    var h := HeaderCalls(ok, k, 202, JsonUtf8);
    var s := NiddSteps(ok, k, requestBufSize, account, lib, mdn, credRc, auth, session);
    HeaderCallsStop(ok, k, 202, JsonUtf8);
    assert NoStatus(h[1..]) by {
      forall i | 0 <= i < |h[1..]|
        ensures !h[1..][i].InitResponse?
      {
        assert h[1..][i] == HeaderEvents(202, JsonUtf8)[i + 1];
      }
    }
    if HeadersSent(ok, k) {
      var b := NiddBody(ok, k + 4, credRc, account, auth, session, mdn, lib, requestBufSize);
      NiddStepsSent(ok, k, requestBufSize, account, lib, mdn, credRc, auth, session);
      NoStatusAppend(h[1..], [ResolveCredentials(credRc)]);
      NoStatusAppend(h[1..] + [ResolveCredentials(credRc)], b.events);
      assert s.events[1..] == h[1..] + [ResolveCredentials(credRc)] + b.events;
    } else {
      NiddStepsUnsent(ok, k, requestBufSize, account, lib, mdn, credRc, auth, session);
    }
  }

  /** The 202 JSON headers are the handler's first transport calls, and no
      other status is ever initialised: whatever fails later, the status
      stays 202. */
  lemma NiddStatusCommitted(ownsConnection: bool, ok: nat -> bool, k: nat, requestBufSize: nat, up: Upstream, cred: Credentials.Outcome)
    ensures var o := Opening(ownsConnection);
      var t := NiddLog(ownsConnection, ok, k, requestBufSize, up, cred);
      && |t.events| > |o| && t.events[|o|] == InitResponse(202, 1, FieldsSize(JsonUtf8))
      && forall i :: |o| < i < |t.events| ==> !t.events[i].InitResponse?
  {
    NiddStepsStatus(ok, k + |Opening(ownsConnection)|, requestBufSize, up.secrets.accountName, up.lib, up.testMdn, cred.rc, CString(cred.auth), CString(cred.session));
    HandlerStatusOnce(ownsConnection, NiddSteps(ok, k + |Opening(ownsConnection)|, requestBufSize, up.secrets.accountName, up.lib, up.testMdn, cred.rc, CString(cred.auth), CString(cred.session)),
      InitResponse(202, 1, FieldsSize(JsonUtf8)));
  }

  /** A handler whose steps start with one status and initialise no other has
      that status right after its opening and no other anywhere after it. */
  lemma HandlerStatusOnce(ownsConnection: bool, steps: Tail, status: Event)
    requires StatusFirst(steps.events, status)
    ensures var o := Opening(ownsConnection);
      var events := Handler(ownsConnection, steps).events;
      && |events| > |o| && events[|o|] == status
      && forall i :: |o| < i < |events| ==> !events[i].InitResponse?
  {
    var o := Opening(ownsConnection);
    var t := Teardown(steps.rc, ownsConnection);
    var events := Handler(ownsConnection, steps).events;
    TeardownReleases(steps.rc, ownsConnection);
    assert events == o + (steps.events + t);
    forall i | |o| < i < |events|
      ensures !events[i].InitResponse?
    {
      if i < |o| + |steps.events| {
        assert events[i] == steps.events[1..][i - |o| - 1];
      } else {
        assert events[i] == t[i - |o| - |steps.events|];
      }
    }
  }

  /** When the headers fail the credentials are never resolved and the
      library is never called: the handler goes to its fail label with 1. */
  lemma NiddNoCredentialsWithoutHeaders(ownsConnection: bool, ok: nat -> bool, k: nat, requestBufSize: nat, up: Upstream, cred: Credentials.Outcome)
    requires !HeadersSent(ok, k + |Opening(ownsConnection)|)
    ensures var t := NiddLog(ownsConnection, ok, k, requestBufSize, up, cred);
      && t.rc == 1
      && t.events == Opening(ownsConnection) + (HeaderCalls(ok, k + |Opening(ownsConnection)|, 202, JsonUtf8) + Teardown(1, ownsConnection))
      && forall i :: 0 <= i < |t.events| ==> !t.events[i].ResolveCredentials? && !t.events[i].LibraryCall?
  {
    var o := Opening(ownsConnection);
    var h := HeaderCalls(ok, k + |o|, 202, JsonUtf8);
    NiddStepsUnsent(ok, k + |o|, requestBufSize, up.secrets.accountName, up.lib, up.testMdn, cred.rc, CString(cred.auth), CString(cred.session));
    HeaderCallsStop(ok, k + |o|, 202, JsonUtf8);
    TeardownReleases(1, ownsConnection);
    Untouched(Handler(ownsConnection, Tail(h, 1)).events, o, h, Teardown(1, ownsConnection));
  }

  /** An opening, some of the header calls and a teardown resolve no
      credentials and call no library. */
  lemma Untouched(events: seq<Event>, o: seq<Event>, h: seq<Event>, t: seq<Event>)
    requires o == [] || o == [ConnectCache]
    requires |h| <= 3 && h == HeaderEvents(202, JsonUtf8)[..|h|]
    requires forall i :: 0 <= i < |t| ==> !Inner(t[i])
    requires events == o + (h + t)
    ensures forall i :: 0 <= i < |events| ==> !events[i].ResolveCredentials? && !events[i].LibraryCall?
  {
    forall i | 0 <= i < |events|
      ensures !events[i].ResolveCredentials? && !events[i].LibraryCall?
    {
      if i < |o| {
        assert events[i] == o[i];
      } else if i < |o| + |h| {
        assert events[i] == h[i - |o|] == HeaderEvents(202, JsonUtf8)[i - |o|];
      } else {
        assert events[i] == t[i - |o| - |h|];
      }
    }
  }

  /** When the credentials, the library call and every transport call
      succeed, the handler answers 202 JSON with the library's response as the
      body and completes with 0. */
  lemma NiddDelivered(ownsConnection: bool, ok: nat -> bool, k: nat, requestBufSize: nat, up: Upstream, cred: Credentials.Outcome)
    requires cred.rc == 0 && forall j :: ok(j)
    ensures var call := NiddCall(up.secrets.accountName, CString(cred.auth), CString(cred.session), up.testMdn);
      var reply := up.lib(call.api, call.args);
      var t := NiddLog(ownsConnection, ok, k, requestBufSize, up, cred);
      reply.rc != 1 ==>
        && t.rc == 0
        && t.events == Opening(ownsConnection) + (HeaderEvents(202, JsonUtf8) + [ResolveCredentials(0)] + ([call]
             + [AllocBuf(requestBufSize + |reply.response|), SendBuf(reply.response, |reply.response|)])
             + Teardown(0, ownsConnection))
  {
    var o := Opening(ownsConnection);
    assert HeadersSent(ok, k + |o|);
    NiddStepsSent(ok, k + |o|, requestBufSize, up.secrets.accountName, up.lib, up.testMdn, cred.rc, CString(cred.auth), CString(cred.session));
    HeaderCallsStop(ok, k + |o|, 202, JsonUtf8);
  }

  /** Every exit of the NIDD handler releases the buffer (and its own
      connection) once and completes the request once. */
  lemma NiddBracketed(ownsConnection: bool, ok: nat -> bool, k: nat, requestBufSize: nat, up: Upstream, cred: Credentials.Outcome)
    ensures var t := NiddLog(ownsConnection, ok, k, requestBufSize, up, cred);
      Bracketed(t.events, t.rc, ownsConnection) && CompletedOnce(t.events)
  {
    HandlerBracketed(ownsConnection, NiddSteps(ok, k + |Opening(ownsConnection)|, requestBufSize, up.secrets.accountName, up.lib, up.testMdn, cred.rc, CString(cred.auth), CString(cred.session)));
  }

  /** On a connection it was given, the handler's log is its steps and its
      exit label. */
  lemma NiddLogShared(ok: nat -> bool, k: nat, requestBufSize: nat, up: Upstream, cred: Credentials.Outcome)
    ensures NiddLog(false, ok, k, requestBufSize, up, cred).events
      == Closed(false, NiddSteps(ok, k, requestBufSize, up.secrets.accountName, up.lib, up.testMdn, cred.rc, CString(cred.auth), CString(cred.session)))
  {
  }

  /** With its own connection the handler's steps start one event later. */
  lemma NiddLogOwned(ok: nat -> bool, k: nat, requestBufSize: nat, up: Upstream, cred: Credentials.Outcome)
    ensures NiddLog(true, ok, k, requestBufSize, up, cred)
      == Handler(true, NiddSteps(ok, k + 1, requestBufSize, up.secrets.accountName, up.lib, up.testMdn, cred.rc, CString(cred.auth), CString(cred.session)))
  {
  }

  /** vzw_send_nidd of src/request/vzw_handler.c, with its own cache
      connection; the cache and the token buffers change only when the headers
      went out and the credentials were resolved. */
  method SendNidd(req: RequestInfo, server: Server, up: Upstream, auth: array<char>, session: array<char>)
    requires auth != session
    requires Credentials.Ready(Connected(server.store, up), auth[..], session[..], up.mintAuth, up.mintSession)
    modifies req, server, auth, session
    ensures var cred := Resolved(up, Connected(old(server.store), up), old(auth[..]), old(session[..]));
      && req.events == old(req.events) + NiddLog(true, req.succeeds, |old(req.events)|, req.requestBufSize, up, cred).events
      && if HeadersSent(req.succeeds, |old(req.events)| + 1)
         then server.store == cred.db.store && auth[..] == cred.auth && session[..] == cred.session
         else server.store == old(server.store) && auth[..] == old(auth[..]) && session[..] == old(session[..])
  {
    var ctx := new Context.Connect(server, up.connected, up.link, up.refusal);
    req.Record(ConnectCache);
    assert ctx.State() == Connected(old(server.store), up) && auth[..] == old(auth[..]) && session[..] == old(session[..]);
    ghost var k := |old(req.events)|;
    ghost var cred := Resolved(up, Connected(old(server.store), up), old(auth[..]), old(session[..]));
    NiddWith(req, ctx, up, auth, session, true, k + 1, cred);
    ghost var steps := NiddSteps(req.succeeds, k + 1, req.requestBufSize, up.secrets.accountName, up.lib, up.testMdn, cred.rc, CString(cred.auth), CString(cred.session));
    NiddLogOwned(req.succeeds, k, req.requestBufSize, up, cred);
    Associative(old(req.events), [ConnectCache], Closed(true, steps));
  }

  /** The NIDD handler from response_init on, on the connection ctx; k is the
      position of the first header call and cred the outcome the credential
      protocol would have on ctx and the two buffers. */
  method NiddWith(req: RequestInfo, ctx: Context, up: Upstream, auth: array<char>, session: array<char>, ownsConnection: bool,
                  ghost k: nat, ghost cred: Credentials.Outcome)
    requires auth != session && Credentials.Ready(ctx.State(), auth[..], session[..], up.mintAuth, up.mintSession)
    requires k == |req.events| && cred == Resolved(up, ctx.State(), auth[..], session[..])
    modifies req, ctx, ctx.server, auth, session
    ensures req.events == old(req.events) + Closed(ownsConnection, NiddSteps(req.succeeds, k, req.requestBufSize,
      up.secrets.accountName, up.lib, up.testMdn, cred.rc, CString(cred.auth), CString(cred.session)))
    ensures HeadersSent(req.succeeds, k) ==> ctx.State() == cred.db && auth[..] == cred.auth && session[..] == cred.session
    ensures !HeadersSent(req.succeeds, k) ==> unchanged(ctx, ctx.server, auth, session)
  {
    var rc := req.ResponseInit(202, JsonUtf8);
    ghost var mid := req.events;
    NiddAfterInit(req, ctx, up, auth, session, ownsConnection, rc, cred);
    NiddClosedAfter(old(req.events), mid, req.succeeds, req.requestBufSize, up.secrets.accountName, up.lib, up.testMdn, cred.rc, CString(cred.auth), CString(cred.session), ownsConnection, rc);
  }

  /** The NIDD handler after response_init returned rc. */
  method NiddAfterInit(req: RequestInfo, ctx: Context, up: Upstream, auth: array<char>, session: array<char>, ownsConnection: bool,
                       rc: int, ghost cred: Credentials.Outcome)
    requires auth != session && Credentials.Ready(ctx.State(), auth[..], session[..], up.mintAuth, up.mintSession)
    requires cred == Resolved(up, ctx.State(), auth[..], session[..])
    modifies req, ctx, ctx.server, auth, session
    ensures req.events == old(req.events) + NiddAfter(req.succeeds, |old(req.events)|, req.requestBufSize,
      up.secrets.accountName, up.lib, up.testMdn, cred.rc, CString(cred.auth), CString(cred.session), ownsConnection, rc)
    ensures rc == 0 ==> ctx.State() == cred.db && auth[..] == cred.auth && session[..] == cred.session
    ensures rc != 0 ==> unchanged(ctx, ctx.server, auth, session)
  {
    if rc != 0 {
      Exit(req, 1, ownsConnection);
    } else {
      NiddSent(req, ctx, up, auth, session, ownsConnection, cred);
    }
  }

  /** What follows the header calls: the fail label alone when they failed,
      otherwise the credentials, the body and the fail label. */
  function NiddAfter(ok: nat -> bool, k: nat, requestBufSize: nat, account: string, lib: Library, mdn: string, credRc: int, auth: string, session: string, ownsConnection: bool, rc: int): seq<Event> {
    if rc != 0 then Teardown(1, ownsConnection)
    else
      var b := NiddBody(ok, k + 1, credRc, account, auth, session, mdn, lib, requestBufSize);
      [ResolveCredentials(credRc)] + b.events + Teardown(b.rc, ownsConnection)
  }

  lemma NiddClosedAfter(start: seq<Event>, mid: seq<Event>, ok: nat -> bool, requestBufSize: nat, account: string, lib: Library, mdn: string, credRc: int, auth: string, session: string, ownsConnection: bool, rc: int)
    requires mid == start + HeaderCalls(ok, |start|, 202, JsonUtf8)
    requires rc == (if HeadersSent(ok, |start|) then 0 else 1)
    ensures mid + NiddAfter(ok, |mid|, requestBufSize, account, lib, mdn, credRc, auth, session, ownsConnection, rc)
      == start + Closed(ownsConnection, NiddSteps(ok, |start|, requestBufSize, account, lib, mdn, credRc, auth, session))
  {
    if HeadersSent(ok, |start|) {
      NiddClosedSent(start, ok, |start|, requestBufSize, account, lib, mdn, credRc, auth, session, ownsConnection);
    } else {
      NiddClosedUnsent(start, ok, |start|, requestBufSize, account, lib, mdn, credRc, auth, session, ownsConnection);
    }
  }

  /** Failed headers, then the fail label, close the NIDD steps. */
  lemma NiddClosedUnsent(start: seq<Event>, ok: nat -> bool, k: nat, requestBufSize: nat, account: string, lib: Library, mdn: string, credRc: int, auth: string, session: string, ownsConnection: bool)
    requires !HeadersSent(ok, k)
    ensures start + HeaderCalls(ok, k, 202, JsonUtf8) + Teardown(1, ownsConnection)
      == start + Closed(ownsConnection, NiddSteps(ok, k, requestBufSize, account, lib, mdn, credRc, auth, session))
  {
    NiddStepsUnsent(ok, k, requestBufSize, account, lib, mdn, credRc, auth, session);
    Associative(start, HeaderCalls(ok, k, 202, JsonUtf8), Teardown(1, ownsConnection));
  }

  /** Headers that went out, then the credentials, the body and the fail
      label, close the NIDD steps. */
  lemma NiddClosedSent(start: seq<Event>, ok: nat -> bool, k: nat, requestBufSize: nat, account: string, lib: Library, mdn: string, credRc: int, auth: string, session: string, ownsConnection: bool)
    requires HeadersSent(ok, k)
    ensures var b := NiddBody(ok, k + 4, credRc, account, auth, session, mdn, lib, requestBufSize);
      start + HeaderCalls(ok, k, 202, JsonUtf8) + ([ResolveCredentials(credRc)] + b.events + Teardown(b.rc, ownsConnection))
      == start + Closed(ownsConnection, NiddSteps(ok, k, requestBufSize, account, lib, mdn, credRc, auth, session))
  {
    var b := NiddBody(ok, k + 4, credRc, account, auth, session, mdn, lib, requestBufSize);
    NiddStepsSent(ok, k, requestBufSize, account, lib, mdn, credRc, auth, session);
    Regroup(start, HeaderCalls(ok, k, 202, JsonUtf8), [ResolveCredentials(credRc)], b.events, Teardown(b.rc, ownsConnection));
  }

  lemma Regroup<T>(start: seq<T>, h: seq<T>, a: seq<T>, b: seq<T>, t: seq<T>)
    ensures start + h + (a + b + t) == start + (h + a + b + t)
  {
  }

  /** The NIDD handler once its headers went out: the credentials on ctx and
      the two buffers, then the body and the fail label. */
  method NiddSent(req: RequestInfo, ctx: Context, up: Upstream, auth: array<char>, session: array<char>, ownsConnection: bool,
                  ghost cred: Credentials.Outcome)
    requires auth != session && Credentials.Ready(ctx.State(), auth[..], session[..], up.mintAuth, up.mintSession)
    requires cred == Resolved(up, ctx.State(), auth[..], session[..])
    modifies req, ctx, ctx.server, auth, session
    ensures var b := NiddBody(req.succeeds, |old(req.events)| + 1, cred.rc, up.secrets.accountName, CString(cred.auth), CString(cred.session), up.testMdn, up.lib, req.requestBufSize);
      req.events == old(req.events) + ([ResolveCredentials(cred.rc)] + b.events + Teardown(b.rc, ownsConnection))
    ensures ctx.State() == cred.db && auth[..] == cred.auth && session[..] == cred.session
  {
    var credRc := Authenticate(ctx, up, auth, session);
    NiddRest(req, ownsConnection, credRc, up.secrets.accountName, CString(auth[..]), CString(session[..]), up.testMdn, up.lib);
  }

  method NiddRest(req: RequestInfo, ownsConnection: bool, credRc: int, account: string, auth: string, session: string, mdn: string, lib: Library)
    modifies req
    ensures var b := NiddBody(req.succeeds, |old(req.events)| + 1, credRc, account, auth, session, mdn, lib, req.requestBufSize);
      req.events == old(req.events) + ([ResolveCredentials(credRc)] + b.events + Teardown(b.rc, ownsConnection))
  {
    req.Record(ResolveCredentials(credRc));
    ghost var pre := req.events;
    var rc := NiddAfterCredentials(req, credRc, account, auth, session, mdn, lib);
    ghost var mid := req.events;
    Exit(req, rc, ownsConnection);
    Logged(old(req.events), [ResolveCredentials(credRc)], mid[|pre|..], Teardown(rc, ownsConnection), pre, mid, req.events);
  }

  // ---------------------------------------------------------------- callback

  /** vzw_callback: 204 with no field, the headers sent whatever the first
      call returned, content_length bytes read from the request and never
      used, and the request completed with the result of sending the headers. */
  function CallbackLog(ok: nat -> bool, k: nat, contentLength: nat): (t: Tail)
  {
    var rc := Outcome(ok, k + 1);
    Tail([InitResponse(204, 0, 0), SendHeaders, ReadBody(contentLength), RequestDone(rc)], rc)
  }

  /** The callback answers 204 with no field and no body, reads the whole
      body, forwards nothing, and completes the request once with the
      result of sending the headers. */
  lemma CallbackNeverForwards(ok: nat -> bool, k: nat, contentLength: nat)
    ensures var t := CallbackLog(ok, k, contentLength);
      && (forall i :: 0 <= i < |t.events| && t.events[i].InitResponse? ==> t.events[i] == InitResponse(204, 0, 0))
      && (forall i :: 0 <= i < |t.events| ==> !t.events[i].AddContentType? && !t.events[i].SendBuf? && !t.events[i].WriteBody? && !t.events[i].LibraryCall?)
      && ReadBody(contentLength) in t.events
      && CompletedOnce(t.events)
      && (t.rc == UnitOk <==> ok(k + 1))
  {
    var t := CallbackLog(ok, k, contentLength);
    assert t.events[2] == ReadBody(contentLength);
  }

  method Callback(req: RequestInfo)
    modifies req
    ensures req.events == old(req.events) + CallbackLog(req.succeeds, |old(req.events)|, req.contentLength).events
  {
    var rc := req.Call(InitResponse(204, 0, 0));
    rc := req.Call(SendHeaders);
    req.Record(ReadBody(req.contentLength));
    req.Record(RequestDone(rc));
  }
}
