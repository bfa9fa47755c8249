/** The NGINX Unit side of a request as the handlers use it: the request's
    path, method and sizes, and an ordered log of what the handler does on its
    behalf. Whether a transport call succeeds is outside the program; it is an
    oracle indexed by the position the call takes in the log. */
module Unit {
  import opened CStrings

  /** NXT_UNIT_OK and NXT_UNIT_ERROR; a failing transport call returns the latter. */
  const UnitOk: int := 0
  const UnitError: int := 1

  const ContentType: CStr := "Content-Type"

  /** The three content types the handlers send. */
  datatype Media = TextPlainUtf8 | JsonUtf8 | OctetStream

  function MediaType(m: Media): string {
    match m
    case TextPlainUtf8 => "text/plain; charset=utf-8"
    case JsonUtf8 => "application/json; charset=utf-8"
    case OctetStream => "application/octet-stream;"
  }

  /** The fields size response_init announces for its one Content-Type field:
      the length of the field name plus that of its value. */
  function FieldsSize(m: Media): nat {
    match m
    case TextPlainUtf8 => 37
    case JsonUtf8 => 43
    case OctetStream => 37
  }

  lemma FieldsSizeCounts(m: Media)
    ensures FieldsSize(m) == |ContentType| + |MediaType(m)|
  {
  }

  /** The vzw_nidd library entry points the handlers call. */
  datatype Api =
    | GetRegisteredCallbackListeners     // vzw_get_registered_callback_listeners
    | DeleteRegisteredCallbackListeners  // vzw_delete_registered_callback_listeners
    | SetRegisteredCallbackListeners     // vzw_set_registered_callback_listeners
    | SendNiddData                       // vzw_send_nidd_data

  /** One step of handling a request, in the order it is taken. */
  datatype Event =
    | InitResponse(status: int, fields: nat, fieldsSize: nat)  // nxt_unit_response_init
    | AddContentType(media: Media)                               // nxt_unit_response_add_field of Content-Type
    | SendHeaders                                                // nxt_unit_response_send
    | AllocBuf(size: int)                                        // nxt_unit_response_buf_alloc
    | SendBuf(data: seq<char>, length: int)                      // nxt_unit_buf_send: the bytes written and free - start
    | WriteBody(body: string)                                    // nxt_unit_response_write
    | ReadBody(count: nat)                                       // nxt_unit_request_read
    | RequestDone(rc: int)                                       // nxt_unit_request_done
    | ConnectCache                                               // redis_connect
    | FreeConnection                                             // redisFree
    | FreeResponse                                               // free(response_data.response)
    | CloseFile(streamOpen: bool)                                // fclose, on a stream that was or was not opened
    | LibraryCall(api: Api, args: seq<string>)                   // a call into the vzw_nidd library
    | ResolveCredentials(rc: int)                                // vzw_credentials_handler and what it returned

  /** The log of a piece of a handler and the return code it ends with. */
  datatype Tail = Tail(events: seq<Event>, rc: int)

  /** The outcome of a transport call at log position k. */
  function Outcome(ok: nat -> bool, k: nat): (rc: int)
    ensures rc == UnitOk <==> ok(k)
    ensures rc == UnitOk || rc == UnitError
  {
    if ok(k) then UnitOk else UnitError
  }

  /** The three calls of response_init: the status with one field of the
      given content type, the field, the headers. */
  function HeaderEvents(status: int, media: Media): seq<Event> {
    [InitResponse(status, 1, FieldsSize(media)), AddContentType(media), SendHeaders]
  }

  /** All three header calls from position k succeed. */
  predicate HeadersSent(ok: nat -> bool, k: nat) {
    ok(k) && ok(k + 1) && ok(k + 2)
  }

  /** The header calls response_init makes from position k: up to and
      including the first that fails. */
  function HeaderCalls(ok: nat -> bool, k: nat, status: int, media: Media): seq<Event> {
    var all := HeaderEvents(status, media);
    if !ok(k) then all[..1] else if !ok(k + 1) then all[..2] else all
  }

  /** response_init makes the header calls in order and stops at the first
      that fails; it makes all three exactly when they all succeed. */
  lemma HeaderCallsStop(ok: nat -> bool, k: nat, status: int, media: Media)
    ensures var r := HeaderCalls(ok, k, status, media);
      && 1 <= |r| <= 3 && r == HeaderEvents(status, media)[..|r|]
      && (|r| >= 2 ==> ok(k))
      && (|r| == 3 ==> ok(k + 1))
      && (|r| == 3 || !ok(k + |r| - 1))
      && (HeadersSent(ok, k) ==> r == HeaderEvents(status, media))
  {
  }

  /** A step that neither opens nor releases anything and does not end the
      request: everything a handler does between its set-up and its exit label. */
  predicate Inner(e: Event) {
    !(e.ConnectCache? || e.FreeConnection? || e.FreeResponse? || e.CloseFile? || e.RequestDone?)
  }

  predicate Working(events: seq<Event>) {
    forall i :: 0 <= i < |events| ==> Inner(events[i])
  }

  lemma WorkingAppend(a: seq<Event>, b: seq<Event>)
    requires Working(a) && Working(b)
    ensures Working(a + b)
  {
  }

  /** The header calls of response_init are all inner steps. */
  lemma HeaderCallsWorking(ok: nat -> bool, k: nat, status: int, media: Media)
    ensures Working(HeaderCalls(ok, k, status, media))
  {
    var r := HeaderCalls(ok, k, status, media);
    HeaderCallsStop(ok, k, status, media);
    forall i | 0 <= i < |r|
      ensures Inner(r[i])
    {
      assert r[i] == HeaderEvents(status, media)[i];
    }
  }

  /** The request is completed exactly once, by the last step. */
  predicate CompletedOnce(events: seq<Event>) {
    && |events| > 0 && events[|events| - 1].RequestDone?
    && forall i :: 0 <= i < |events| - 1 ==> !events[i].RequestDone?
  }

  /** The request as the handlers see it. */
  class RequestInfo {
    const path: CStr
    const httpMethod: CStr
    const contentLength: nat
    /** request_buf->end - request_buf->start */
    const requestBufSize: nat
    const succeeds: nat -> bool
    var events: seq<Event>

    constructor (path: CStr, httpMethod: CStr, contentLength: nat, requestBufSize: nat, succeeds: nat -> bool)
      ensures this.path == path && this.httpMethod == httpMethod && this.contentLength == contentLength
      ensures this.requestBufSize == requestBufSize && this.succeeds == succeeds && events == []
    {
      this.path := path;
      this.httpMethod := httpMethod;
      this.contentLength := contentLength;
      this.requestBufSize := requestBufSize;
      this.succeeds := succeeds;
      events := [];
    }

    /** A transport call whose result the handler inspects. */
    method Call(e: Event) returns (rc: int)
      modifies this
      ensures events == old(events) + [e] && rc == Outcome(succeeds, |old(events)|)
    {
      rc := Outcome(succeeds, |events|);
      events := events + [e];
    }

    /** A step whose result is not inspected. */
    method Record(e: Event)
      modifies this
      ensures events == old(events) + [e]
    {
      events := events + [e];
    }

    /** response_init: 0 when the status, the content type field and the
        headers all went out, 1 at the first call that failed. */
    method ResponseInit(status: int, media: Media) returns (rc: int)
      modifies this
      ensures events == old(events) + HeaderCalls(succeeds, |old(events)|, status, media)
      ensures rc == (if HeadersSent(succeeds, |old(events)|) then 0 else 1)
    {
      var k := |events|;
      rc := Call(InitResponse(status, 1, FieldsSize(media)));
      if rc != UnitOk {
        return 1;
      }
      rc := Call(AddContentType(media));
      if rc != UnitOk {
        return 1;
      }
      rc := Call(SendHeaders);
      if rc != UnitOk {
        return 1;
      }
      assert events == old(events) + HeaderEvents(status, media);
    }
  }
}
