/** The ThingSpace client of src/vzw/vzw_connect.c: each call builds its
    header and body texts with stpcpy chains into stack arrays sized by the
    file's macros, performs one POST and, for the token calls, looks the token
    up in the reply. */
module VzwConnect {
  import opened CStrings
  import opened Base64
  import opened Jsmn
  import opened VzwFields
  import opened Curl

  /** OAUTH2_TOKEN_FIELD_SIZE: sizeof the prefix plus BASE64LEN of the keys. */
  function OAuth2TokenFieldSize(keys: CStr): nat {
    SizeOf(OAuth2TokenField) + Base64Len(|keys|)
  }

  /** ACCESS_TOKEN_FIELD_SIZE(t). */
  function AccessTokenFieldSize(token: CStr): nat {
    SizeOf(AccessTokenField) + |token|
  }

  /** SESSION_TOKEN_FIELD_SIZE(t). */
  function SessionTokenFieldSize(token: CStr): nat {
    SizeOf(SessionTokenField) + |token|
  }

  /** LOGIN_FIELD_SIZE: the two literal fields and the configured username and password. */
  function LoginFieldSize(secrets: Secrets): nat {
    SizeOf(UsernameField) + SizeOf(PasswordField) + SizeOf(secrets.username) + SizeOf(secrets.password)
  }

  /** SEND_NIDD_BODY_MAX_SIZE as this file writes it: the fields' sizes with no margin. */
  function SendNiddBodyMaxSize(account: CStr): nat {
    NiddFieldsSize(account)
  }

  /** At the limits (a ten-digit MDN, a seven-character delivery time and a
      message whose encoding is 10864 characters) the body and its terminator
      need one byte more than SEND_NIDD_BODY_MAX_SIZE. */
  lemma AsWrittenNiddBodyOneByteShort(mdn: CStr, account: CStr, mdt: CStr, message: CStr)
    requires |mdn| == MdnSize && |mdt| == MaxMdtSize && Base64Len(|message|) == MaxMessageSize
    ensures |NiddBody(mdn, account, mdt, message)| + 1 == SendNiddBodyMaxSize(account) + 1
  {
    NiddBodyBound(mdn, account, mdt, message);
  }

  /** `ptr = stpcpy(auth_token_field, OAUTH2_TOKEN_FIELD); base64(keys, ..., ptr)`:
      the header and its terminator exactly fill OAUTH2_TOKEN_FIELD_SIZE. */
  method BuildBasicAuthField(keys: CStr) returns (field: array<char>)
    ensures field.Length == OAuth2TokenFieldSize(keys)
    ensures field[..] == BasicAuthHeader(keys) + [NUL]
  {
    field := new char[OAuth2TokenFieldSize(keys)];
    var ptr := StpCpy(field, 0, OAuth2TokenField);
    ptr := Append(field, ptr, OAuth2TokenField, EncodeString(keys));
    assert field[..] == field[..ptr] + [field[ptr]];
  }

  /** The bearer header and its terminator exactly fill ACCESS_TOKEN_FIELD_SIZE(t). */
  method BuildBearerField(token: CStr) returns (field: array<char>)
    ensures field.Length == AccessTokenFieldSize(token)
    ensures field[..] == BearerHeader(token) + [NUL]
  {
    field := new char[AccessTokenFieldSize(token)];
    var ptr := StpCpy(field, 0, AccessTokenField);
    ptr := Append(field, ptr, AccessTokenField, token);
    assert field[..] == field[..ptr] + [field[ptr]];
  }

  /** The session header and its terminator exactly fill SESSION_TOKEN_FIELD_SIZE(t). */
  method BuildSessionField(token: CStr) returns (field: array<char>)
    ensures field.Length == SessionTokenFieldSize(token)
    ensures field[..] == SessionHeader(token) + [NUL]
  {
    field := new char[SessionTokenFieldSize(token)];
    var ptr := StpCpy(field, 0, SessionTokenField);
    ptr := Append(field, ptr, SessionTokenField, token);
    assert field[..] == field[..ptr] + [field[ptr]];
  }

  /** The login body written by its stpcpy chain into LOGIN_FIELD_SIZE bytes;
      it exactly fills them when the username and password have the configured lengths. */
  method BuildLoginField(secrets: Secrets, username: CStr, password: CStr) returns (field: array<char>)
    requires |username| + |password| <= |secrets.username| + |secrets.password|
    ensures field.Length == LoginFieldSize(secrets)
    ensures field[..|LoginBody(username, password)| + 1] == LoginBody(username, password) + [NUL]
    ensures |username| == |secrets.username| && |password| == |secrets.password| ==>
      field.Length == |LoginBody(username, password)| + 1
  {
    field := new char[LoginFieldSize(secrets)];
    field[0] := '{';
    var ptr := Append(field, 1, "{", UsernameField);
    ptr := Append(field, ptr, "{" + UsernameField, username);
    ptr := Append(field, ptr, "{" + UsernameField + username, PasswordField);
    ptr := Append(field, ptr, "{" + UsernameField + username + PasswordField, password);
    ptr := Append(field, ptr, "{" + UsernameField + username + PasswordField + password, "\"}");
    assert field[..ptr + 1] == field[..ptr] + [field[ptr]];
  }

  /** get_vzw_auth_token: POSTs the client-credentials grant with the basic
      header and copies "access_token" from the reply into the caller's
      buffer; the handle is cleaned up on every path. */
  method GetAuthToken(keys: CStr, reply: Reply, token: array<char>) returns (rc: int, calls: seq<Event>)
    requires Tokenized(reply) && TokenOutcome(reply, "access_token", token[..]).Extracted?
    modifies token
    ensures calls == [EasyInit, Perform(AuthRequest(keys)), Cleanup]
    ensures Extracted(rc, token[..]) == TokenOutcome(reply, "access_token", old(token[..]))
  {
    calls := [EasyInit];
    var field := BuildBasicAuthField(keys);
    CStringOfTerminated(BasicAuthHeader(keys), [NUL]);
    calls := calls + [Perform(Post(AuthUrl, [AcceptJson, ContentTypeForm, CString(field[..])], GrantTypeBody))];
    match reply {
      case Failed(code) =>
        rc := code;
      case Received(body, parse) =>
        rc := ExtractTokenInto(body, parse, "access_token", token);
    }
    calls := calls + [Cleanup];
  }

  /** get_vzw_m2m_token: POSTs the login body with the bearer header and
      copies "sessionToken" from the reply into the caller's buffer. */
  method GetM2mToken(secrets: Secrets, username: CStr, password: CStr, authToken: CStr, reply: Reply, token: array<char>)
    returns (rc: int, calls: seq<Event>)
    requires |username| + |password| <= |secrets.username| + |secrets.password|
    requires Tokenized(reply) && TokenOutcome(reply, "sessionToken", token[..]).Extracted?
    modifies token
    ensures calls == [EasyInit, Perform(LoginRequest(username, password, authToken)), Cleanup]
    ensures Extracted(rc, token[..]) == TokenOutcome(reply, "sessionToken", old(token[..]))
  {
    calls := [EasyInit];
    var body := BuildLoginField(secrets, username, password);
    var bearer := BuildBearerField(authToken);
    CStringOfTerminated(BearerHeader(authToken), [NUL]);
    CStringOfPrefix(body[..], LoginBody(username, password));
    calls := calls + [Perform(Post(LoginUrl, [ContentTypeJson, AcceptJson, CString(bearer[..])], CString(body[..])))];
    match reply {
      case Failed(code) =>
        rc := code;
      case Received(text, parse) =>
        rc := ExtractTokenInto(text, parse, "sessionToken", token);
    }
    calls := calls + [Cleanup];
  }

  /** send_nidd_data: an encoded message over MAX_MESSAGE_SIZE returns 1 before
      anything is built or sent, leaving the handle from curl_easy_init without
      cleanup; otherwise the NIDD body is POSTed with both token headers and the
      reply body is handed to the caller. The body is written into a buffer
      with the six-byte margin, since SEND_NIDD_BODY_MAX_SIZE as written is one
      byte short at the limits. */
  method SendNiddData(authToken: CStr, m2mToken: CStr, mdn: CStr, account: CStr, mdt: CStr, message: CStr, reply: Reply)
    returns (rc: int, calls: seq<Event>, response: string)
    requires |mdn| <= MdnSize && |mdt| <= MaxMdtSize
    ensures MessageTooLarge(message) ==> rc == 1 && calls == [EasyInit] && response == ""
    ensures !MessageTooLarge(message) ==>
      && calls == [EasyInit, Perform(NiddRequest(authToken, m2mToken, mdn, account, mdt, message)), Cleanup]
      && rc == PerformCode(reply)
      && response == (if reply.Received? then reply.body else "")
  {
    calls := [EasyInit];
    response := "";
    if MessageTooLarge(message) {
      return 1, calls, response;
    }
    var body := BuildNiddField(mdn, account, mdt, message);
    var bearer := BuildBearerField(authToken);
    var session := BuildSessionField(m2mToken);
    CStringOfTerminated(BearerHeader(authToken), [NUL]);
    CStringOfTerminated(SessionHeader(m2mToken), [NUL]);
    calls := calls + [Perform(Post(NiddUrl,
      [ContentTypeJson, AcceptJson, CString(bearer[..]), CString(session[..])], CString(body[..])))];
    rc := PerformCode(reply);
    if reply.Received? {
      response := reply.body;
    }
    calls := calls + [Cleanup];
  }
}
