/** The part of libcurl the ThingSpace client relies on, as the model sees it:
    every call sends one POST and the server's reply is an input. The reply of
    a call whose body is searched for a token carries the tokenizer's result
    for that body. */
module Curl {
  import opened CStrings
  import opened Jsmn

  datatype Request = Post(url: string, headers: seq<string>, body: string)

  /** The calls on a curl handle, in order: the handle's creation, the
      transfer and the cleanup that releases the handle. */
  datatype Event = EasyInit | Perform(request: Request) | Cleanup

  /** A CURLcode other than CURLE_OK. */
  type ErrorCode = c: int | c != 0 witness 1

  datatype Reply = Failed(code: ErrorCode) | Received(body: string, parse: Parse)

  /** The reply's tokens are what the tokenizer may produce for its body. */
  predicate Tokenized(reply: Reply) {
    reply.Received? ==> ParseWellFormed(reply.body, reply.parse)
  }

  /** The return code of a call that performs and then looks up key: the
      failed transfer's code, otherwise extract_token's result; dst is the
      destination's new contents. */
  function TokenOutcome(reply: Reply, key: string, dst: seq<char>): (r: Extracted)
    requires Tokenized(reply)
    ensures r.Extracted? ==> |r.dst| == |dst|
    ensures reply.Failed? ==> r == Extracted(reply.code, dst)
    ensures r.Extracted? && r.rc == 0 ==> reply.Received? && reply.parse.Parsed?
  {
    match reply
    case Failed(code) => Extracted(code, dst)
    case Received(body, parse) => ExtractToken(body, parse, key, dst)
  }

  /** The return code of a call that only performs. */
  function PerformCode(reply: Reply): (rc: int)
    ensures rc == 0 <==> reply.Received?
  {
    if reply.Failed? then reply.code else 0
  }
}
