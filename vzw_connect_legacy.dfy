/** The older ThingSpace client of src/vzw_connect.c: the same three calls,
    with the header and login texts written by memcpy at computed offsets and
    explicit terminator writes, and a NIDD body buffer with a six-byte margin. */
module VzwConnectLegacy {
  import opened CStrings
  import opened Base64
  import opened Jsmn
  import opened VzwFields
  import opened Curl

  /** ENC_LEN: BASE64LEN of the keys plus the terminator. */
  function EncLen(keys: CStr): nat {
    Base64Len(|keys|) + 1
  }

  /** OAUTH2_TOKEN_FIELD_SIZE: strlen of the prefix plus ENC_LEN. */
  function OAuth2TokenFieldSize(keys: CStr): nat {
    |OAuth2TokenField| + EncLen(keys)
  }

  /** access_token_field_size: the prefix, the token and the terminator. */
  function AccessTokenFieldSize(token: CStr): nat {
    |AccessTokenField| + |token| + 1
  }

  /** session_token_field_size: the prefix, the token and the terminator. */
  function SessionTokenFieldSize(token: CStr): nat {
    |SessionTokenField| + |token| + 1
  }

  /** LOGIN_FIELD_SIZE, the same macro as the newer copy's. */
  function LoginFieldSize(secrets: Secrets): nat {
    SizeOf(UsernameField) + SizeOf(PasswordField) + SizeOf(secrets.username) + SizeOf(secrets.password)
  }

  /** `memcpy(&buf[at], s, strlen(s))` after the buffer holds text up to at. */
  method CopyAt(buf: array<char>, at: nat, ghost text: string, s: seq<char>)
    requires at + |s| <= buf.Length && buf[..at] == text
    modifies buf
    ensures buf[..at + |s|] == text + s
  {
    MemCpy(buf, at, s);
    assert buf[..at + |s|] == old(buf[..])[..at] + s;
  }

  /** The basic header: base64 fills encoded_token and returns the encoding's
      length; the prefix and that many characters are copied, and the
      terminator is written at OAUTH2_TOKEN_FIELD_SIZE - 1, right after them. */
  method BuildBasicAuthField(keys: CStr) returns (field: array<char>)
    ensures field.Length == OAuth2TokenFieldSize(keys)
    ensures field[..] == BasicAuthHeader(keys) + [NUL]
  {
    var encoded := new char[EncLen(keys)];
    var encodedLen := StpCpy(encoded, 0, EncodeString(keys));
    field := new char[OAuth2TokenFieldSize(keys)];
    CopyAt(field, 0, [], OAuth2TokenField);
    CopyAt(field, |OAuth2TokenField|, OAuth2TokenField, encoded[..encodedLen]);
    ghost var written := field[..];
    field[field.Length - 1] := NUL;
    Terminated(written, field[..], OAuth2TokenField + encoded[..encodedLen]);
  }

  /** Text written at the front of a buffer one longer than it, and the
      terminator written at the last index, make a C string. */
  lemma Terminated(written: seq<char>, field: seq<char>, text: string)
    requires |field| == |written| == |text| + 1 && written[..|text|] == text
    requires field[..|text|] == written[..|text|] && field[|text|] == NUL
    ensures field == text + [NUL]
  {
    assert field == field[..|text|] + [field[|text|]];
  }

  /** The bearer header: prefix and token copied, terminator at the last index. */
  method BuildBearerField(token: CStr) returns (field: array<char>)
    ensures field.Length == AccessTokenFieldSize(token)
    ensures field[..] == BearerHeader(token) + [NUL]
  {
    field := new char[AccessTokenFieldSize(token)];
    CopyAt(field, 0, [], AccessTokenField);
    CopyAt(field, |AccessTokenField|, AccessTokenField, token);
    field[field.Length - 1] := NUL;
    assert field[..] == field[..field.Length - 1] + [field[field.Length - 1]];
  }

  /** The login body at fixed offsets: '{', the username field, the username,
      the password field and the password are copied one after the other, and
      '"', '}' and the terminator go to the last three bytes of
      LOGIN_FIELD_SIZE. The text is contiguous when the username and password
      together have the configured length. */
  method BuildLoginField(secrets: Secrets, username: CStr, password: CStr) returns (field: array<char>)
    requires |username| + |password| <= |secrets.username| + |secrets.password|
    ensures field.Length == LoginFieldSize(secrets)
    ensures var n := 27 + |username| + |password|;
      field[..n] == LoginBody(username, password)[..n]
    ensures field[field.Length - 3..] == ['"', '}', NUL]
    ensures |username| + |password| == |secrets.username| + |secrets.password| ==>
      field[..] == LoginBody(username, password) + [NUL]
  {
    field := new char[LoginFieldSize(secrets)];
    WriteLoginText(field, username, password);
    ghost var written := field[..];
    WriteLoginEnd(field);
    LoginLayout(written, field[..], "{" + UsernameField + username + PasswordField + password, LoginBody(username, password));
  }

  /** The five copies at the offsets the source computes: '{', the username
      field, the username, the password field and the password. */
  method WriteLoginText(field: array<char>, username: CStr, password: CStr)
    requires 27 + |username| + |password| <= field.Length
    modifies field
    ensures field[..27 + |username| + |password|] == "{" + UsernameField + username + PasswordField + password
  {
    field[0] := '{';
    ghost var text: string := "{";
    CopyAt(field, 1, text, UsernameField);
    text := text + UsernameField;
    CopyAt(field, 1 + |UsernameField|, text, username);
    text := text + username;
    CopyAt(field, 1 + |UsernameField| + |username|, text, PasswordField);
    text := text + PasswordField;
    CopyAt(field, 1 + |UsernameField| + |username| + |PasswordField|, text, password);
  }

  /** The login text written before the last three bytes, and the closing
      bytes written over them, make up the body and its terminator. */
  lemma LoginLayout(written: seq<char>, field: seq<char>, text: string, body: string)
    requires |text| + 3 <= |field| == |written| && written[..|text|] == text
    requires field[..|field| - 3] == written[..|field| - 3]
    requires field[|field| - 3..] == ['"', '}', NUL]
    requires body == text + "\"}"
    ensures field[..|text|] == body[..|text|]
    ensures |text| + 3 == |field| ==> field == body + [NUL]
  {
    assert field[..|text|] == field[..|field| - 3][..|text|];
    assert body[..|text|] == text;
    if |text| + 3 == |field| {
      assert field == field[..|text|] + field[|field| - 3..];
    }
  }

  /** `post_field[LOGIN_FIELD_SIZE - 3..1] = '"', '}', 0`. */
  method WriteLoginEnd(field: array<char>)
    requires field.Length >= 3
    modifies field
    ensures field[..field.Length - 3] == old(field[..field.Length - 3])
    ensures field[field.Length - 3..] == ['"', '}', NUL]
  {
    var size := field.Length;
    field[size - 3] := '"';
    field[size - 2] := '}';
    field[size - 1] := NUL;
  }

  function Max(a: nat, b: nat): nat {
    if a < b then b else a
  }

  /** The bytes memcpy(session_token_field, SESSION_TOKEN_FIELD,
      strlen(ACCESS_TOKEN_FIELD)) copies: 21 bytes read from the 14-byte
      literal, that is its 13 characters, its terminator and the 7 bytes that
      follow it in memory. */
  function AsWrittenSessionCopy(beyond: seq<char>): (r: seq<char>)
    requires |beyond| == |AccessTokenField| - SizeOf(SessionTokenField)
    ensures |r| == |AccessTokenField|
  {
    SessionTokenField + [NUL] + beyond
  }

  /** The memory from the start of session_token_field after its three writes
      as written: the 21-byte copy, the token at offset 13, the terminator after
      it. mem is the memory the writes reach, the buffer itself when the token
      has at least 7 characters, more than the buffer otherwise. */
  function AsWrittenSessionField(token: CStr, beyond: seq<char>, mem: seq<char>): (r: seq<char>)
    requires |beyond| == 7 && |mem| == Max(|AccessTokenField|, SessionTokenFieldSize(token))
    ensures |r| == |mem|
  {
    var copied := Overwrite(mem, 0, AsWrittenSessionCopy(beyond));
    var withToken := Overwrite(copied, |SessionTokenField|, token);
    Overwrite(withToken, |SessionTokenField| + |token|, [NUL])
  }

  /** A token of 7 or more characters covers every byte the 21-byte copy got
      wrong, so the buffer ends up holding the header. */
  lemma AsWrittenSessionFieldLongToken(token: CStr, beyond: seq<char>, mem: seq<char>)
    requires |token| >= 7 && |beyond| == 7 && |mem| == Max(|AccessTokenField|, SessionTokenFieldSize(token))
    ensures AsWrittenSessionField(token, beyond, mem) == SessionHeader(token) + [NUL]
  {
    var r := AsWrittenSessionField(token, beyond, mem);
    var h := SessionHeader(token) + [NUL];
    assert |r| == |h|;
    forall k | 0 <= k < |r|
      ensures r[k] == h[k]
    {
    }
  }

  /** A token of fewer than 7 characters leaves a buffer shorter than the copy:
      the bytes from the buffer's end to offset 21 are written outside it, with
      the bytes that follow the literal. */
  lemma AsWrittenSessionFieldShortToken(token: CStr, beyond: seq<char>, mem: seq<char>)
    requires |token| < 7 && |beyond| == 7 && |mem| == Max(|AccessTokenField|, SessionTokenFieldSize(token))
    ensures SessionTokenFieldSize(token) < |AccessTokenField| == |mem|
    ensures AsWrittenSessionField(token, beyond, mem)[SessionTokenFieldSize(token)..] == beyond[|token|..]
  {
    var r := AsWrittenSessionField(token, beyond, mem);
    var n := SessionTokenFieldSize(token);
    assert |r[n..]| == |beyond[|token|..]|;
    forall k | 0 <= k < |r| - n
      ensures r[n..][k] == beyond[|token|..][k]
    {
    }
  }

  /** The session header with the copy of the prefix bounded by its own length:
      prefix, token and terminator exactly fill session_token_field. */
  method BuildSessionField(token: CStr) returns (field: array<char>)
    ensures field.Length == SessionTokenFieldSize(token)
    ensures field[..] == SessionHeader(token) + [NUL]
  {
    field := new char[SessionTokenFieldSize(token)];
    CopyAt(field, 0, [], SessionTokenField);
    CopyAt(field, |SessionTokenField|, SessionTokenField, token);
    field[field.Length - 1] := NUL;
    assert field[..] == field[..field.Length - 1] + [field[field.Length - 1]];
  }

  /** get_vzw_auth_token, older copy: the same request and token lookup as the newer one. */
  method GetAuthToken(keys: CStr, reply: Reply, token: array<char>) returns (rc: int, calls: seq<Event>)
    requires Tokenized(reply) && TokenOutcome(reply, "access_token", token[..]).Extracted?
    modifies token
    ensures calls == [EasyInit, Perform(AuthRequest(keys)), Cleanup]
    ensures Extracted(rc, token[..]) == TokenOutcome(reply, "access_token", old(token[..]))
  {
    calls := [EasyInit];
    var field := BuildBasicAuthField(keys);
    CStringOfTerminated(BasicAuthHeader(keys), [NUL]);
    calls := calls + [Perform(Post(AuthUrl, [AcceptJson, ContentTypeForm, CString(field[..])], GrantTypeBody))];
    match reply {
      case Failed(code) =>
        rc := code;
      case Received(body, parse) =>
        rc := ExtractTokenInto(body, parse, "access_token", token);
    }
    calls := calls + [Cleanup];
  }

  /** get_vzw_m2m_token, older copy: the login text sits at its fixed offsets
      and '"', '}' and the terminator at the end of LOGIN_FIELD_SIZE; the body
      posted is the login body when the username and password have the
      configured total length, and otherwise starts with the login text and
      runs on into the bytes left between it and the closing quote. */
  method GetM2mToken(secrets: Secrets, username: CStr, password: CStr, authToken: CStr, reply: Reply, token: array<char>)
    returns (rc: int, calls: seq<Event>)
    requires |username| + |password| <= |secrets.username| + |secrets.password|
    requires Tokenized(reply) && TokenOutcome(reply, "sessionToken", token[..]).Extracted?
    modifies token
    ensures var login := LoginRequest(username, password, authToken);
      && |calls| == 3 && calls[0] == EasyInit && calls[2] == Cleanup
      && calls[1].Perform? && calls[1].request.url == login.url && calls[1].request.headers == login.headers
      && StartsWith(calls[1].request.body, login.body[..27 + |username| + |password|])
      && |calls[1].request.body| < LoginFieldSize(secrets)
      && (|username| + |password| == |secrets.username| + |secrets.password| ==> calls[1] == Perform(login))
    ensures Extracted(rc, token[..]) == TokenOutcome(reply, "sessionToken", old(token[..]))
  {
    calls := [EasyInit];
    var body := BuildLoginField(secrets, username, password);
    var bearer := BuildBearerField(authToken);
    CStringOfTerminated(BearerHeader(authToken), [NUL]);
    PostedLogin(secrets, username, password, body[..]);
    calls := calls + [Perform(Post(LoginUrl, [ContentTypeJson, AcceptJson, CString(bearer[..])], CString(body[..])))];
    match reply {
      case Failed(code) =>
        rc := code;
      case Received(text, parse) =>
        rc := ExtractTokenInto(text, parse, "sessionToken", token);
    }
    calls := calls + [Cleanup];
  }

  /** What C reads from the login buffer: it starts with the login text, ends
      before the buffer's terminator, and is the login body when the buffer
      holds it. */
  lemma PostedLogin(secrets: Secrets, username: CStr, password: CStr, field: seq<char>)
    requires |username| + |password| <= |secrets.username| + |secrets.password|
    requires |field| == LoginFieldSize(secrets)
    requires field[..27 + |username| + |password|] == LoginBody(username, password)[..27 + |username| + |password|]
    requires field[|field| - 3..] == ['"', '}', NUL]
    requires |username| + |password| == |secrets.username| + |secrets.password| ==> field == LoginBody(username, password) + [NUL]
    ensures StartsWith(CString(field), LoginBody(username, password)[..27 + |username| + |password|])
    ensures |CString(field)| < |field|
    ensures |username| + |password| == |secrets.username| + |secrets.password| ==> CString(field) == LoginBody(username, password)
  {
    var text: CStr := "{" + UsernameField + username + PasswordField + password;
    assert text == LoginBody(username, password)[..27 + |username| + |password|];
    CStringKeepsPrefix(field, text);
    assert field[|field| - 1] == field[|field| - 3..][2] == NUL;
    if |username| + |password| == |secrets.username| + |secrets.password| {
      CStringOfTerminated(LoginBody(username, password), [NUL]);
    }
  }

  /** send_nidd_data, older copy: the same size check and request; the body
      buffer is SEND_NIDD_BODY_MAX_SIZE with its six-byte margin, the session
      header is built with the bounded copy, and the reply body is freed
      without being handed on. */
  method SendNiddData(authToken: CStr, m2mToken: CStr, mdn: CStr, account: CStr, mdt: CStr, message: CStr, reply: Reply)
    returns (rc: int, calls: seq<Event>)
    requires |mdn| <= MdnSize && |mdt| <= MaxMdtSize
    ensures MessageTooLarge(message) ==> rc == 1 && calls == [EasyInit]
    ensures !MessageTooLarge(message) ==>
      && calls == [EasyInit, Perform(NiddRequest(authToken, m2mToken, mdn, account, mdt, message)), Cleanup]
      && rc == PerformCode(reply)
  {
    calls := [EasyInit];
    if MessageTooLarge(message) {
      return 1, calls;
    }
    var body := BuildNiddField(mdn, account, mdt, message);
    var bearer := BuildBearerField(authToken);
    var session := BuildSessionField(m2mToken);
    CStringOfTerminated(BearerHeader(authToken), [NUL]);
    CStringOfTerminated(SessionHeader(m2mToken), [NUL]);
    calls := calls + [Perform(Post(NiddUrl,
      [ContentTypeJson, AcceptJson, CString(bearer[..]), CString(session[..])], CString(body[..])))];
    rc := PerformCode(reply);
    calls := calls + [Cleanup];
  }
}
