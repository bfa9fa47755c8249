/** `extract_token`, the field lookup both copies of vzw_connect.c share: a
    linear scan over the tokens the jsmn tokenizer produced for a response
    body. The tokenizer itself is outside the model; its result is an input. */
module Jsmn {
  import opened CStrings

  /** `jsmntok_t tokens[10]`: the tokenizer fills at most ten tokens. */
  const TokenCapacity: nat := 10

  datatype Kind = Undefined | Object | Array | Str | Primitive

  /** A token: its kind and the character range [start, end) of the source it covers. */
  datatype Token = Token(kind: Kind, start: int, end: int)

  /** The tokenizer's verdict: an error (the result eval_jsmn_return rejects)
      or the parsed tokens, whose number is jsmn_parse's return value. */
  datatype Parse = ParseError | Parsed(tokens: seq<Token>)

  /** What jsmn guarantees of a successful parse of src. */
  predicate WellFormed(src: string, tokens: seq<Token>) {
    && |tokens| <= TokenCapacity
    && forall i :: 0 <= i < |tokens| ==> 0 <= tokens[i].start <= tokens[i].end <= |src|
  }

  predicate ParseWellFormed(src: string, parse: Parse) {
    parse.Parsed? ==> WellFormed(src, parse.tokens)
  }

  /** `jsoneq(src, tok, s)`: the token is a JSON string whose text is s. */
  predicate JsonEq(src: string, tok: Token, s: string) {
    tok.kind == Str && 0 <= tok.start <= tok.end <= |src| && src[tok.start..tok.end] == s
  }

  predicate IsErrorKey(src: string, tok: Token) {
    JsonEq(src, tok, "error") || JsonEq(src, tok, "errorCode")
  }

  function Text(src: string, tok: Token): string
    requires 0 <= tok.start <= tok.end <= |src|
  {
    src[tok.start..tok.end]
  }

  /** Every value the scan may copy for key, the token after a match, fits a
      destination of cap characters (the callers' token buffers). */
  predicate Fits(src: string, tokens: seq<Token>, key: string, cap: nat) {
    forall i :: 0 <= i < |tokens| - 1 && JsonEq(src, tokens[i], key) ==> tokens[i + 1].end - tokens[i + 1].start <= cap
  }

  /** The return code and the destination buffer after a scan, or the index of
      the key whose value memcpy would copy past the end of the destination, a
      write C leaves undefined. */
  datatype Extracted = Extracted(rc: int, dst: seq<char>) | Overflow(at: nat)

  /** The scan from token t on, over the parsed tokens only: a token equal to
      the key copies the text of the token after it into dst (no terminator)
      and the scan goes on; an "error" or "errorCode" token stops it with 1. A
      key in the last token has no parsed value after it and copies nothing. */
  function Scan(src: string, tokens: seq<Token>, key: string, dst: seq<char>, t: nat): (r: Extracted)
    requires WellFormed(src, tokens) && t <= |tokens|
    ensures r.Extracted? ==> |r.dst| == |dst| && (r.rc == 0 || r.rc == 1)
    decreases |tokens| - t
  {
    if t == |tokens| then Extracted(0, dst)
    else if JsonEq(src, tokens[t], key) then
      if t + 1 == |tokens| then Extracted(0, dst)
      else if tokens[t + 1].end - tokens[t + 1].start > |dst| then Overflow(t)
      else Scan(src, tokens, key, CopyInto(dst, Text(src, tokens[t + 1])), t + 1)
    else if IsErrorKey(src, tokens[t]) then Extracted(1, dst)
    else Scan(src, tokens, key, dst, t + 1)
  }

  /** `extract_token(src, dst, key)`: 1 when the tokenizer failed, otherwise the scan. */
  function ExtractToken(src: string, parse: Parse, key: string, dst: seq<char>): (r: Extracted)
    requires ParseWellFormed(src, parse)
    ensures parse.ParseError? ==> r == Extracted(1, dst)
  {
    match parse
    case ParseError => Extracted(1, dst)
    case Parsed(tokens) => Scan(src, tokens, key, dst, 0)
  }

  /** Token e is an error key the scan reaches as such (not shadowed by a key match). */
  predicate StopsAt(src: string, tokens: seq<Token>, key: string, e: int)
    requires 0 <= e < |tokens|
  {
    IsErrorKey(src, tokens[e]) && !JsonEq(src, tokens[e], key)
  }

  /** Token m is a key whose value is longer than cap characters. */
  predicate LongMatch(src: string, tokens: seq<Token>, key: string, cap: nat, m: int)
    requires 0 <= m < |tokens|
  {
    m + 1 < |tokens| && JsonEq(src, tokens[m], key) && tokens[m + 1].end - tokens[m + 1].start > cap
  }

  /** The scan returns 1 exactly when it meets an error key, the last token
      included, before any key whose value overflows dst. */
  lemma {:induction false} ScanFailsIff(src: string, tokens: seq<Token>, key: string, dst: seq<char>, t: nat)
    requires WellFormed(src, tokens) && t <= |tokens|
    ensures var r := Scan(src, tokens, key, dst, t);
      r.Extracted? && r.rc == 1 <==>
      exists e :: t <= e < |tokens| && StopsAt(src, tokens, key, e)
        && forall i :: t <= i < e ==> !LongMatch(src, tokens, key, |dst|, i)
    decreases |tokens| - t
  {
    if t == |tokens| {
    } else if JsonEq(src, tokens[t], key) {
      assert !StopsAt(src, tokens, key, t);
      if t + 1 == |tokens| {
      } else if tokens[t + 1].end - tokens[t + 1].start > |dst| {
        assert LongMatch(src, tokens, key, |dst|, t);
      } else {
        var d := CopyInto(dst, Text(src, tokens[t + 1]));
        ScanFailsIff(src, tokens, key, d, t + 1);
        assert !LongMatch(src, tokens, key, |dst|, t);
      }
    } else if IsErrorKey(src, tokens[t]) {
      assert StopsAt(src, tokens, key, t);
    } else {
      ScanFailsIff(src, tokens, key, dst, t + 1);
      assert !StopsAt(src, tokens, key, t) && !LongMatch(src, tokens, key, |dst|, t);
    }
  }

  /** The copy overflows dst exactly when the scan reaches a key whose value is
      longer than dst before any error key. */
  lemma {:induction false} ScanOverflowsIff(src: string, tokens: seq<Token>, key: string, dst: seq<char>, t: nat)
    requires WellFormed(src, tokens) && t <= |tokens|
    ensures Scan(src, tokens, key, dst, t).Overflow? <==>
      exists m :: t <= m < |tokens| && LongMatch(src, tokens, key, |dst|, m)
        && forall i :: t <= i < m ==> !StopsAt(src, tokens, key, i)
    decreases |tokens| - t
  {
    if t == |tokens| {
    } else if JsonEq(src, tokens[t], key) {
      assert !StopsAt(src, tokens, key, t);
      if t + 1 == |tokens| {
      } else if tokens[t + 1].end - tokens[t + 1].start > |dst| {
        assert LongMatch(src, tokens, key, |dst|, t);
      } else {
        var d := CopyInto(dst, Text(src, tokens[t + 1]));
        ScanOverflowsIff(src, tokens, key, d, t + 1);
        assert !LongMatch(src, tokens, key, |dst|, t);
      }
    } else if IsErrorKey(src, tokens[t]) {
      assert StopsAt(src, tokens, key, t) && !LongMatch(src, tokens, key, |dst|, t);
    } else {
      ScanOverflowsIff(src, tokens, key, dst, t + 1);
      assert !StopsAt(src, tokens, key, t) && !LongMatch(src, tokens, key, |dst|, t);
    }
  }

  /** When every value the key selects fits the destination, the scan never overflows. */
  lemma FitsNeverOverflows(src: string, tokens: seq<Token>, key: string, dst: seq<char>, t: nat)
    requires WellFormed(src, tokens) && t <= |tokens| && Fits(src, tokens, key, |dst|)
    ensures Scan(src, tokens, key, dst, t).Extracted?
  {
    ScanOverflowsIff(src, tokens, key, dst, t);
    forall m | t <= m < |tokens|
      ensures !LongMatch(src, tokens, key, |dst|, m)
    {
    }
  }

  /** With no match and no error key from t on, the scan leaves dst alone and succeeds. */
  lemma {:induction false} ScanQuiet(src: string, tokens: seq<Token>, key: string, dst: seq<char>, t: nat)
    requires WellFormed(src, tokens) && t <= |tokens|
    requires forall i :: t <= i < |tokens| ==> !JsonEq(src, tokens[i], key) && !IsErrorKey(src, tokens[i])
    ensures Scan(src, tokens, key, dst, t) == Extracted(0, dst)
    decreases |tokens| - t
  {
    if t < |tokens| {
      ScanQuiet(src, tokens, key, dst, t + 1);
    }
  }

  /** The last match wins: when m is the last token equal to the key and no
      error key stands from t on, a scan that does not overflow succeeds and dst
      starts with the text of the token after m, whatever earlier matches
      copied; it does not overflow when the key's values fit. */
  lemma {:induction false} LastMatchWins(src: string, tokens: seq<Token>, key: string, dst: seq<char>, t: nat, m: nat)
    requires WellFormed(src, tokens) && t <= m
    requires m + 1 < |tokens| && JsonEq(src, tokens[m], key)
    requires forall i :: m < i < |tokens| ==> !JsonEq(src, tokens[i], key)
    requires forall i :: t <= i < |tokens| ==> !IsErrorKey(src, tokens[i])
    ensures var r := Scan(src, tokens, key, dst, t);
      var v := Text(src, tokens[m + 1]);
      && (r.Extracted? ==> r.rc == 0 && StartsWith(r.dst, v))
      && (Fits(src, tokens, key, |dst|) ==> r.Extracted?)
    decreases m - t
  {
    if Fits(src, tokens, key, |dst|) {
      FitsNeverOverflows(src, tokens, key, dst, t);
    }
    if JsonEq(src, tokens[t], key) && tokens[t + 1].end - tokens[t + 1].start > |dst| {
    } else if t == m {
      ScanQuiet(src, tokens, key, CopyInto(dst, Text(src, tokens[m + 1])), m + 1);
    } else if JsonEq(src, tokens[t], key) {
      LastMatchWins(src, tokens, key, CopyInto(dst, Text(src, tokens[t + 1])), t + 1, m);
    } else {
      LastMatchWins(src, tokens, key, dst, t + 1, m);
    }
  }

  /** `extract_token` as a loop over the parsed tokens writing into the
      caller's buffer, on replies whose copies stay inside it; a value read
      after a key is read only when it was parsed. */
  method ExtractTokenInto(src: string, parse: Parse, key: string, dst: array<char>) returns (rc: int)
    requires ParseWellFormed(src, parse)
    requires ExtractToken(src, parse, key, dst[..]).Extracted?
    modifies dst
    ensures ExtractToken(src, parse, key, old(dst[..])) == Extracted(rc, dst[..])
  {
    if parse.ParseError? {
      return 1;
    }
    var tokens := parse.tokens;
    var t := 0;
    while t < |tokens|
      invariant 0 <= t <= |tokens|
      invariant Scan(src, tokens, key, dst[..], t) == Scan(src, tokens, key, old(dst[..]), 0)
      decreases |tokens| - t
    {
      if JsonEq(src, tokens[t], key) {
        if t + 1 < |tokens| {
          MemCpy(dst, 0, Text(src, tokens[t + 1]));
        }
      } else if IsErrorKey(src, tokens[t]) {
        return 1;
      }
      t := t + 1;
    }
    return 0;
  }

  /** The token indices the loop reads as written from iteration t on: it runs
      while t < ret, reads tokens[t] and tokens[t + 1] on every iteration, and
      tokens[t + 3] for the message of an error key. */
  function AsWrittenReads(src: string, tokens: seq<Token>, key: string, t: nat): (r: set<int>)
    ensures t < |tokens| ==> t in r && t + 1 in r
    decreases |tokens| - t
  {
    if t >= |tokens| then {}
    else if JsonEq(src, tokens[t], key) then {t, t + 1} + AsWrittenReads(src, tokens, key, t + 1)
    else if IsErrorKey(src, tokens[t]) then {t, t + 1, t + 3}
    else {t, t + 1} + AsWrittenReads(src, tokens, key, t + 1)
  }

  /** Whenever the scan gets through without an error key, the loop as written
      reads tokens[ret], one past the parsed tokens. */
  lemma {:induction false} AsWrittenReadsPastParsed(src: string, tokens: seq<Token>, key: string, t: nat)
    requires t < |tokens|
    requires forall e :: t <= e < |tokens| ==> !StopsAt(src, tokens, key, e)
    ensures |tokens| in AsWrittenReads(src, tokens, key, t)
    decreases |tokens| - t
  {
    if t + 1 < |tokens| {
      assert !StopsAt(src, tokens, key, t);
      AsWrittenReadsPastParsed(src, tokens, key, t + 1);
    }
  }

  /** With all ten tokens parsed and no error key, the loop as written reads
      tokens[10], outside the ten-element token array. */
  lemma AsWrittenOverrunsTokenArray(src: string, tokens: seq<Token>, key: string)
    requires WellFormed(src, tokens) && |tokens| == TokenCapacity
    requires forall e :: 0 <= e < |tokens| ==> !StopsAt(src, tokens, key, e)
    ensures TokenCapacity in AsWrittenReads(src, tokens, key, 0)
  {
    AsWrittenReadsPastParsed(src, tokens, key, 0);
  }

  /** The token indices the corrected loop reads from iteration t on: tokens[t]
      on every iteration, and the value after a key only when it was parsed.
      The message of an error key is only printed, which the model leaves out. */
  function Reads(src: string, tokens: seq<Token>, key: string, t: nat): (r: set<int>)
    ensures forall i :: i in r ==> t <= i < |tokens|
    decreases |tokens| - t
  {
    if t >= |tokens| then {}
    else if JsonEq(src, tokens[t], key) then
      (if t + 1 < |tokens| then {t, t + 1} else {t}) + Reads(src, tokens, key, t + 1)
    else if IsErrorKey(src, tokens[t]) then {t}
    else {t} + Reads(src, tokens, key, t + 1)
  }
}
