/** The request texts the ThingSpace client sends, shared by both copies of
    vzw_connect.c: the header and body literals, the texts the builders
    assemble from them, the size limits of the NIDD message, and the stpcpy
    chain that writes the NIDD body. */
module VzwFields {
  import opened CStrings
  import opened Base64
  import opened Curl

  /** The compile-time secrets the sources take from config/vzw_secrets.h. */
  datatype Secrets = Secrets(publicKey: CStr, privateKey: CStr, username: CStr, password: CStr, accountName: CStr)

  const AcceptJson: CStr := "Accept:application/json"
  const ContentTypeJson: CStr := "Content-Type:application/json"
  const ContentTypeForm: string := "Content-Type: application/x-www-form-urlencoded"

  const AuthUrl: string := "https://thingspace.verizon.com/api/ts/v1/oauth2/token"
  const LoginUrl: string := "https://thingspace.verizon.com/api/m2m/v1/session/login"
  const NiddUrl: string := "https://thingspace.verizon.com/api/m2m/v1/devices/nidd/message"

  /** The client-credentials grant of section 4.4 of RFC 6749. */
  const GrantTypeBody: CStr := "grant_type=client_credentials"

  const OAuth2TokenField: CStr := "Authorization:Basic "
  const AccessTokenField: CStr := "Authorization:Bearer "
  const SessionTokenField: CStr := "VZ-M2M-Token:"
  const UsernameField: CStr := "\"username\":\""
  const PasswordField: CStr := "\",\"password\":\""
  const DeviceIdFieldStart: CStr := "\"deviceIds\":[{\"id\":\""
  const DeviceIdFieldEnd: CStr := "\",\"kind\":\"MDN\"}],"
  const MdtField: CStr := "\"maximumDeliveryTime\":\""
  const MessageField: CStr := "\"message\":\""

  /** ACCOUNT_NAME_FIELD, built around the configured account name. */
  function AccountNameField(account: CStr): (r: CStr)
    ensures |r| == 17 + |account|
  {
    "\"accountName\":\"" + account + "\","
  }

  const MdnSize: nat := 10
  const MaxMdtSize: nat := 7
  const MaxMessageSize: nat := 10864

  /** The keys of the basic credentials, "PUBLIC:PRIVATE" (section 2 of RFC 7617). */
  function AuthKeys(secrets: Secrets): (r: CStr)
    ensures |r| == |secrets.publicKey| + 1 + |secrets.privateKey|
    ensures r[|secrets.publicKey|] == ':'
  {
    secrets.publicKey + ":" + secrets.privateKey
  }

  /** The OAuth2 header: "Authorization:Basic " and the base64 of the keys. */
  function BasicAuthHeader(keys: CStr): (h: CStr)
    ensures |h| == |OAuth2TokenField| + Base64Len(|keys|)
    ensures StartsWith(h, OAuth2TokenField)
  {
    OAuth2TokenField + EncodeString(keys)
  }

  /** The header carries the keys: decoding what follows the prefix gives them back. */
  lemma BasicAuthCarriesKeys(keys: CStr)
    ensures Decode(BasicAuthHeader(keys)[|OAuth2TokenField|..]) == Some(Bytes(keys))
  {
    assert BasicAuthHeader(keys)[|OAuth2TokenField|..] == Encode(Bytes(keys));
    RoundTrip(Bytes(keys));
  }

  /** The bearer header of section 2.1 of RFC 6750. */
  function BearerHeader(token: CStr): (h: CStr)
    ensures |h| == |AccessTokenField| + |token|
    ensures StartsWith(h, AccessTokenField) && h[|AccessTokenField|..] == token
  {
    AccessTokenField + token
  }

  /** The ThingSpace session header. */
  function SessionHeader(token: CStr): (h: CStr)
    ensures |h| == |SessionTokenField| + |token|
    ensures StartsWith(h, SessionTokenField) && h[|SessionTokenField|..] == token
  {
    SessionTokenField + token
  }

  /** The login body {"username":"U","password":"P"}. */
  function LoginBody(username: CStr, password: CStr): (b: CStr)
    ensures |b| == 29 + |username| + |password|
    ensures b[0] == '{' && b[|b| - 2..] == "\"}"
    ensures b[1 + |UsernameField|..1 + |UsernameField| + |username|] == username
    ensures b[27 + |username|..27 + |username| + |password|] == password
  {
    "{" + UsernameField + username + PasswordField + password + "\"}"
  }

  /** The NIDD body
      {"deviceIds":[{"id":"MDN","kind":"MDN"}],"accountName":"A","maximumDeliveryTime":"MDT","message":"B64"}. */
  function NiddBody(mdn: CStr, account: CStr, mdt: CStr, message: CStr): (b: CStr)
    ensures |b| == 93 + |mdn| + |account| + |mdt| + Base64Len(|message|)
    ensures b[0] == '{' && b[|b| - 2..] == "\"}"
  {
    "{" + DeviceIdFieldStart + mdn + DeviceIdFieldEnd + AccountNameField(account)
      + MdtField + mdt + "\"," + MessageField + EncodeString(message) + "\"}"
  }

  /** The message field of the body carries the message: the base64 text
      just before the closing "\"}" decodes back to its bytes. */
  lemma NiddBodyCarriesMessage(mdn: CStr, account: CStr, mdt: CStr, message: CStr)
    ensures var b := NiddBody(mdn, account, mdt, message);
      Decode(b[|b| - 2 - Base64Len(|message|)..|b| - 2]) == Some(Bytes(message))
  {
    var b := NiddBody(mdn, account, mdt, message);
    var head := "{" + DeviceIdFieldStart + mdn + DeviceIdFieldEnd + AccountNameField(account)
      + MdtField + mdt + "\"," + MessageField;
    assert b == head + EncodeString(message) + "\"}";
    assert b[|b| - 2 - Base64Len(|message|)..|b| - 2] == EncodeString(message);
    RoundTrip(Bytes(message));
  }

  /** The request of get_vzw_auth_token: the client-credentials grant with the basic header. */
  function AuthRequest(keys: CStr): Request {
    Post(AuthUrl, [AcceptJson, ContentTypeForm, BasicAuthHeader(keys)], GrantTypeBody)
  }

  /** The request of get_vzw_m2m_token: the login body with the bearer header. */
  function LoginRequest(username: CStr, password: CStr, authToken: CStr): Request {
    Post(LoginUrl, [ContentTypeJson, AcceptJson, BearerHeader(authToken)], LoginBody(username, password))
  }

  /** The request of send_nidd_data: the NIDD body with both token headers. */
  function NiddRequest(authToken: CStr, m2mToken: CStr, mdn: CStr, account: CStr, mdt: CStr, message: CStr): Request {
    Post(NiddUrl, [ContentTypeJson, AcceptJson, BearerHeader(authToken), SessionHeader(m2mToken)],
      NiddBody(mdn, account, mdt, message))
  }

  /** The sum of the NIDD field sizes the macros budget for: the sizeof of
      every literal field plus the limits of the three variable parts. */
  function NiddFieldsSize(account: CStr): nat {
    SizeOf(DeviceIdFieldStart) + SizeOf(DeviceIdFieldEnd) + SizeOf(AccountNameField(account))
      + SizeOf(MdtField) + SizeOf(MessageField) + MdnSize + MaxMdtSize + MaxMessageSize
  }

  /** The message-size check of send_nidd_data: the encoded message must fit MAX_MESSAGE_SIZE. */
  predicate MessageTooLarge(message: CStr) {
    Base64Len(|message|) > MaxMessageSize
  }

  /** Within the limits the body needs at most the fields' sizes, and all of
      them at the limits; its terminator needs one byte more. */
  lemma NiddBodyBound(mdn: CStr, account: CStr, mdt: CStr, message: CStr)
    requires |mdn| <= MdnSize && |mdt| <= MaxMdtSize && !MessageTooLarge(message)
    ensures |NiddBody(mdn, account, mdt, message)| <= NiddFieldsSize(account)
    ensures |mdn| == MdnSize && |mdt| == MaxMdtSize && Base64Len(|message|) == MaxMessageSize ==>
      |NiddBody(mdn, account, mdt, message)| == NiddFieldsSize(account)
  {
  }

  /** The NIDD body buffer with the older copy's margin of six bytes over the fields' sizes. */
  function NiddBodyCapacity(account: CStr): nat {
    NiddFieldsSize(account) + 6
  }

  /** Within the limits the body and its terminator fit the buffer with the margin. */
  lemma NiddBodyFits(mdn: CStr, account: CStr, mdt: CStr, message: CStr)
    requires |mdn| <= MdnSize && |mdt| <= MaxMdtSize && !MessageTooLarge(message)
    ensures |NiddBody(mdn, account, mdt, message)| + 1 <= NiddBodyCapacity(account)
  {
    NiddBodyBound(mdn, account, mdt, message);
  }

  /** `ptr = stpcpy(ptr, s)` in a chain: the buffer holds text up to ptr, and
      afterwards text + s up to the returned end, followed by a terminator. */
  method Append(buf: array<char>, ptr: nat, ghost text: string, s: CStr) returns (end: nat)
    requires ptr + |s| + 1 <= buf.Length && buf[..ptr] == text
    modifies buf
    ensures end == ptr + |s| && buf[..end] == text + s && buf[end] == NUL
  {
    end := StpCpy(buf, ptr, s);
  }

  /** The stpcpy chain of send_nidd_data: '{' at 0, then every part copied
      where the previous copy left its terminator; base64 writes the encoding
      and its terminator and returns the encoding's length. */
  method WriteNiddBody(buf: array<char>, mdn: CStr, account: CStr, mdt: CStr, message: CStr)
    requires |NiddBody(mdn, account, mdt, message)| + 1 <= buf.Length
    modifies buf
    ensures var b := NiddBody(mdn, account, mdt, message); buf[..|b| + 1] == b + [NUL]
  {
    var ptr := WriteNiddDevice(buf, mdn, account, |MdtField + mdt + "\"," + MessageField + EncodeString(message) + "\"}"|);
    WriteNiddMessage(buf, ptr, "{" + DeviceIdFieldStart + mdn + DeviceIdFieldEnd + AccountNameField(account), mdt, message);
  }

  /** The first half of the chain: '{', the device id object and the account name. */
  method WriteNiddDevice(buf: array<char>, mdn: CStr, account: CStr, ghost more: nat) returns (ptr: nat)
    requires |"{" + DeviceIdFieldStart + mdn + DeviceIdFieldEnd + AccountNameField(account)| + more + 1 <= buf.Length
    modifies buf
    ensures ptr == |"{" + DeviceIdFieldStart + mdn + DeviceIdFieldEnd + AccountNameField(account)|
    ensures buf[..ptr] == "{" + DeviceIdFieldStart + mdn + DeviceIdFieldEnd + AccountNameField(account)
  {
    buf[0] := '{';
    ptr := Append(buf, 1, "{", DeviceIdFieldStart);
    ptr := Append(buf, ptr, "{" + DeviceIdFieldStart, mdn);
    ptr := Append(buf, ptr, "{" + DeviceIdFieldStart + mdn, DeviceIdFieldEnd);
    ptr := Append(buf, ptr, "{" + DeviceIdFieldStart + mdn + DeviceIdFieldEnd, AccountNameField(account));
  }

  /** The second half: the delivery time, the message field, the encoded
      message and the closing characters, each where the previous copy ended. */
  method WriteNiddMessage(buf: array<char>, ptr: nat, ghost text: string, mdt: CStr, message: CStr)
    requires ptr <= buf.Length && buf[..ptr] == text
    requires ptr + |MdtField + mdt + "\"," + MessageField + EncodeString(message) + "\"}"| + 1 <= buf.Length
    modifies buf
    ensures var b := text + MdtField + mdt + "\"," + MessageField + EncodeString(message) + "\"}";
      buf[..|b| + 1] == b + [NUL]
  {
    var end := Append(buf, ptr, text, MdtField);
    end := Append(buf, end, text + MdtField, mdt);
    end := Append(buf, end, text + MdtField + mdt, "\",");
    ghost var t := text + MdtField + mdt + "\",";
    end := Append(buf, end, t, MessageField);
    end := Append(buf, end, t + MessageField, EncodeString(message));
    end := Append(buf, end, t + MessageField + EncodeString(message), "\"}");
    assert buf[..end + 1] == buf[..end] + [buf[end]];
  }

  /** The NIDD body in a buffer with the six-byte margin over the fields'
      sizes: within the limits it always fits, and curl reads the whole body. */
  method BuildNiddField(mdn: CStr, account: CStr, mdt: CStr, message: CStr) returns (field: array<char>)
    requires |mdn| <= MdnSize && |mdt| <= MaxMdtSize && !MessageTooLarge(message)
    ensures field.Length == NiddBodyCapacity(account)
    ensures CString(field[..]) == NiddBody(mdn, account, mdt, message)
  {
    field := new char[NiddBodyCapacity(account)];
    NiddBodyFits(mdn, account, mdt, message);
    WriteNiddBody(field, mdn, account, mdt, message);
    CStringOfPrefix(field[..], NiddBody(mdn, account, mdt, message));
  }
}
