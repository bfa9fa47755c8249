# loft gateway: a Dafny model

loft is an NGINX Unit application. It routes each HTTP request by path:

- "/vzw/nidd" sends a NIDD (non-IP data delivery) message through Verizon ThingSpace;
- "/vzw/registered_callback_listeners" lists, deletes or creates the account's callback listeners;
- any other "/vzw" path is the ThingSpace callback, answered with 204;
- "/firmware" streams the latest firmware file;
- anything else gets a 404.

The ThingSpace handlers need two tokens: an OAuth2 access token and an M2M session token. Both are cached in Redis under "key:"-prefixed names. The credential handler reads each one and mints it through the ThingSpace client when the cached value is empty. A minted token is written back with a TTL of 3600 seconds (auth) or 1200 seconds (session). The client builds its header and body texts in fixed-size stack arrays and looks the token up in the reply with `extract_token`.

The repository holds each of these pieces twice:

- A split layout:
  - src/request/router.c;
  - src/request/vzw_handler.c, where each handler opens and frees its own cache connection;
  - src/request/firmware_handler.c;
  - src/vzw/vzw_connect.c, which builds texts with stpcpy chains.
- An older layout:
  - src/request_handler.c, whose router opens one cache connection per "/vzw" request and passes it to the handler;
  - src/vzw_connect.c, which builds texts with memcpy at fixed offsets.

The model covers both layouts and the cache layer in src/redis_connect.c:

- `CStrings`: C strings as the characters before the first NUL; `strncmp`, `memcpy` and `stpcpy` on arrays.
- `Base64`: base64 per section 4 of RFC 4648, with its decoder and the round trip.
- `Jsmn`: `extract_token` as a scan over the tokenizer's token list. Both copies are identical.
- `Curl`: one POST per call. The reply is an input.
- `VzwFields`: the request texts both client copies build, and the NIDD size limits.
- `VzwConnect` and `VzwConnectLegacy`: the two clients' builders and calls.
- `Redis`: the key layer, as a `Context` class over a `Server` whose key table outlives connections. A connection's server may answer its commands with an error reply (NOAUTH, LOADING and the like) instead of executing them. The layer tests only for a missing reply, so an error reply counts as success: GET copies the error text as if it were the cached value, and SET returns 0 having written nothing.
- `Credentials`: `vzw_credentials_handler`, identical in both handler files. It has two parts:
  - `Run`, a specification over all cache states, buffer contents and mint outcomes;
  - `Handle`, the imperative version that fills the caller's token arrays.
- `Unit`: the request as a class with an ordered log of the calls a handler makes. Whether each transport call succeeds is an oracle indexed by the call's position in the log.
- `Firmware`: block normalisation, the chunk loop and the exit path. Both copies are identical.
- `VzwHandler`: the three ThingSpace handlers. A flag `ownsConnection` selects the split layout (true) or the connection-passing layout (false).
- `Router` and `RequestHandler`: the two routers.

## Model

| member | source | states |
|---|---|---|
| CStrings.StrNEqualIsPrefix | src/request/router.c:19-32 | `strncmp(a, literal, n) == 0` with n the literal's length holds exactly when a starts with the literal, including for a shorter a |
| CStrings.CString | src/vzw/vzw_connect.c:80 | what `strlen` measures: the buffer's prefix up to its first NUL, or the whole buffer when it has none |
| CStrings.MemCpy | src/vzw_connect.c:94-95 | `memcpy` into an array at an offset changes exactly the copied range |
| CStrings.StpCpy | src/vzw/vzw_connect.c:243-250 | `stpcpy` leaves the string and a NUL at the pointer, returns the NUL's position, and leaves the bytes after it alone |
| Base64.Encode | src/vzw/vzw_connect.c:80 | the encoding of n bytes has BASE64LEN(n) = 4·ceil(n/3) characters and contains no NUL |
| Base64.EncodeString | src/vzw/vzw_connect.c:251 | the encoded message has BASE64LEN of the message length |
| Base64.ValueOfSymbol | src/vzw/vzw_connect.c:80 | each of the 64 alphabet symbols decodes to its own index (section 4 of RFC 4648) |
| Base64.BlockRoundTrip | src/vzw/vzw_connect.c:80 | a full 3-byte group decodes back from its 4 characters |
| Base64.TailRoundTrip | src/vzw/vzw_connect.c:80 | a final group of 1 or 2 bytes decodes back from its padded 4 characters |
| Base64.RoundTrip | src/vzw/vzw_connect.c:251 | decoding the encoding of any byte string gives that byte string back |
| Base64.EncodeInjective | src/vzw/vzw_connect.c:80 | distinct byte strings have distinct encodings |
| Curl.TokenOutcome | src/vzw/vzw_connect.c:89-98 | a failed transfer returns its own code and leaves the token buffer as it was; a lookup that completes keeps the buffer's size; 0 only after a received and parsed reply |
| Curl.PerformCode | src/vzw/vzw_connect.c:256-267 | `send_nidd_data` returns 0 exactly when the transfer went through |
| Jsmn.Scan | src/vzw/vzw_connect.c:35-48 | a scan that ends keeps the buffer's size and returns 0 or 1; a key whose value is longer than the buffer ends it in an overflow instead |
| Jsmn.ExtractToken | src/vzw/vzw_connect.c:29-33 | a parse that `eval_jsmn_return` rejects returns 1 and writes nothing |
| Jsmn.ScanFailsIff | src/vzw/vzw_connect.c:35-45 | for every reply, the scan returns 1 exactly when it meets an "error" or "errorCode" key that is not the requested key, the last token included, before any overflowing copy |
| Jsmn.ScanOverflowsIff | src/vzw/vzw_connect.c:35-38 | for every reply, memcpy would write past dst exactly when the scan reaches a key whose value is longer than dst before any error key |
| Jsmn.FitsNeverOverflows | src/vzw/vzw_connect.c:34-38 | when every value that follows the key fits dst, the scan completes without an overflow |
| Jsmn.ScanQuiet | src/vzw/vzw_connect.c:35-48 | with neither the key nor an error key among the tokens, the scan returns 0 and leaves dst untouched |
| Jsmn.LastMatchWins | src/vzw/vzw_connect.c:37-38 | matches overwrite one another: a scan that completes returns 0, and dst starts with the text of the token after the last match, with no terminator added; it completes whenever the values fit |
| Jsmn.ExtractTokenInto | src/vzw/vzw_connect.c:22-50 | the while loop over all parsed tokens writes the caller's buffer and returns the code that ExtractToken specifies |
| Jsmn.AsWrittenReads | src/vzw/vzw_connect.c:36 | every iteration of the loop as written reads tokens[t] and tokens[t + 1] |
| Jsmn.AsWrittenReadsPastParsed | src/vzw/vzw_connect.c:35-36 | without an error key, the loop as written reads tokens[ret], one past the parsed tokens |
| Jsmn.AsWrittenOverrunsTokenArray | src/vzw/vzw_connect.c:24-36 | with ten parsed tokens and no error key, the loop as written reads tokens[10], outside the array |
| Jsmn.Reads | src/vzw/vzw_connect.c:35-47 | the loop that reads the value after a key only when t + 1 < ret reads parsed tokens only |
| VzwFields.AccountNameField | src/vzw/vzw_connect.c:184 | ACCOUNT_NAME_FIELD is 17 characters longer than the account name |
| VzwFields.AuthKeys | src/request/vzw_handler.c:29 | the mint keys are the public key, ':' and the private key |
| VzwFields.BasicAuthHeader | src/vzw/vzw_connect.c:52-55 | the header is "Authorization:Basic " followed by BASE64LEN(keys) characters |
| VzwFields.BasicAuthCarriesKeys | src/vzw/vzw_connect.c:79-80 | the credentials after the prefix decode back to the keys (section 2 of RFC 7617) |
| VzwFields.BearerHeader | src/vzw/vzw_connect.c:111-112 | "Authorization:Bearer " followed by exactly the token (section 2.1 of RFC 6750) |
| VzwFields.SessionHeader | src/vzw/vzw_connect.c:178-179 | "VZ-M2M-Token:" followed by exactly the token |
| VzwFields.LoginBody | src/vzw/vzw_connect.c:149-154 | the login object is 29 characters plus the username and password lengths; both sit at their fixed offsets between `{` and `"}` |
| VzwFields.NiddBody | src/vzw/vzw_connect.c:242-252 | the NIDD object is 93 characters plus the MDN, account, delivery time and encoded message lengths, braced by `{` and `"}` |
| VzwFields.NiddBodyCarriesMessage | src/vzw/vzw_connect.c:250-252 | the message field of the body decodes back to the message |
| VzwFields.NiddBodyBound | src/vzw/vzw_connect.c:188-194 | within the MDN, delivery time and message limits, the body needs at most the macro's field sizes, and exactly that at the limits |
| VzwFields.NiddBodyFits | src/vzw_connect.c:227-229 | with the older copy's six-byte margin, the body and its NUL always fit within the limits |
| VzwFields.Append | src/vzw/vzw_connect.c:243-250 | one `ptr = stpcpy(ptr, s)` step extends the written text by s and terminates it |
| VzwFields.WriteNiddDevice | src/vzw/vzw_connect.c:242-246 | the first five steps of the chain leave the device and account fields in order |
| VzwFields.WriteNiddMessage | src/vzw/vzw_connect.c:247-252 | the remaining steps append the delivery time, the encoded message and the closing `"}` with its NUL |
| VzwFields.WriteNiddBody | src/vzw_connect.c:285-295 | the chain leaves exactly the NIDD body and a NUL at the start of the buffer |
| VzwFields.BuildNiddField | src/vzw_connect.c:244 | a buffer with the six-byte margin holds the NIDD body as its C string for every message that passes the size check |
| VzwConnect.AsWrittenNiddBodyOneByteShort | src/vzw/vzw_connect.c:192-194 | at the limits, the body and its NUL need SEND_NIDD_BODY_MAX_SIZE + 1 bytes |
| VzwConnect.BuildBasicAuthField | src/vzw/vzw_connect.c:64-80 | the basic header and its NUL exactly fill OAUTH2_TOKEN_FIELD_SIZE |
| VzwConnect.BuildBearerField | src/vzw/vzw_connect.c:127-136 | the bearer header and its NUL exactly fill ACCESS_TOKEN_FIELD_SIZE |
| VzwConnect.BuildSessionField | src/vzw/vzw_connect.c:213-225 | the session header and its NUL exactly fill SESSION_TOKEN_FIELD_SIZE |
| VzwConnect.BuildLoginField | src/vzw/vzw_connect.c:126-154 | the login body and its NUL fit LOGIN_FIELD_SIZE, and fill it exactly when the username and password have the configured lengths |
| VzwConnect.GetAuthToken | src/vzw/vzw_connect.c:57-107 | one client-credentials POST with the basic header; the result and buffer are those of looking up "access_token" in the reply |
| VzwConnect.GetM2mToken | src/vzw/vzw_connect.c:116-176 | one login POST with the bearer header; the result and buffer are those of looking up "sessionToken" in the reply |
| VzwConnect.SendNiddData | src/vzw/vzw_connect.c:196-268 | an oversized message returns 1 with no request, and the handle is never cleaned up; otherwise one NIDD POST with both token headers, and the reply body is handed back |
| VzwConnectLegacy.CopyAt | src/vzw_connect.c:94-95 | a memcpy at a fixed offset extends the written text by the copied bytes |
| VzwConnectLegacy.BuildBasicAuthField | src/vzw_connect.c:60-96 | the fixed-offset copies and the NUL at OAUTH2_TOKEN_FIELD_SIZE - 1 leave the same basic header as the newer copy |
| VzwConnectLegacy.BuildBearerField | src/vzw_connect.c:146-159 | the bearer header with its NUL at the last index |
| VzwConnectLegacy.WriteLoginText | src/vzw_connect.c:175-188 | the four copies leave `{`, the username field, the username, the password field and the password in order |
| VzwConnectLegacy.WriteLoginEnd | src/vzw_connect.c:189-191 | `"}` and NUL go into the last three bytes of LOGIN_FIELD_SIZE; nothing else changes |
| VzwConnectLegacy.BuildLoginField | src/vzw_connect.c:131-191 | the text before the fixed tail matches the login body; the whole buffer is the body and its NUL exactly when the lengths are the configured ones |
| VzwConnectLegacy.PostedLogin | src/vzw_connect.c:186-192 | the text curl posts from the login buffer starts with the login text, ends before the last byte, and is exactly the login body when the credentials have the configured length |
| VzwConnectLegacy.AsWrittenSessionCopy | src/vzw_connect.c:264 | copying strlen(ACCESS_TOKEN_FIELD) = 21 bytes from the 14-byte literal takes 7 bytes from beyond it |
| VzwConnectLegacy.AsWrittenSessionField | src/vzw_connect.c:249-267 | the session header as written keeps the buffer's size |
| VzwConnectLegacy.AsWrittenSessionFieldLongToken | src/vzw_connect.c:264-267 | with a token of 7 or more characters the overwrite at offset 13 hides the over-read, and the header comes out right |
| VzwConnectLegacy.AsWrittenSessionFieldShortToken | src/vzw_connect.c:264-267 | with a shorter token the 21-byte copy writes past the session buffer, and bytes from beyond the literal are left after the header's NUL |
| VzwConnectLegacy.BuildSessionField | src/vzw_connect.c:249-267 | copying the literal's own length gives "VZ-M2M-Token:" + token + NUL, exactly filling the buffer |
| VzwConnectLegacy.GetAuthToken | src/vzw_connect.c:65-125 | as in the newer copy: one POST with the basic header, then "access_token" looked up in the reply |
| VzwConnectLegacy.GetM2mToken | src/vzw_connect.c:135-212 | one login POST with the bearer header, whose body starts with the login text, stays inside LOGIN_FIELD_SIZE, and is exactly the login body when the credentials have the configured length; "sessionToken" looked up in the reply |
| VzwConnectLegacy.SendNiddData | src/vzw_connect.c:231-316 | an oversized message returns 1 before any buffer exists, and the handle leaks; otherwise one NIDD POST and the transfer's code |
| Redis.KeyName | src/redis_connect.c:58 | every key is stored as "key:" + key, and the key can be recovered from that name |
| Redis.KeyNameInjective | src/redis_connect.c:44 | distinct keys never share a stored name |
| Redis.Next | src/redis_connect.c:59-62 | a command spends one reply of the link; a missing reply leaves the context in error; the key table is unchanged |
| Redis.DbGet | src/redis_connect.c:55-69 | 0 exactly when the command gets a reply, and then the stored value, a nil reply for a missing key, or the server's error text on an error reply; 1 and no reply otherwise |
| Redis.DbSet | src/redis_connect.c:27-39 | 0 exactly when the command gets a reply; the value is then stored under the prefixed name with no TTL unless the reply is an error reply, which writes nothing; a failure returns 1 and writes nothing |
| Redis.DbSetEx | src/redis_connect.c:41-53 | 0 exactly when the command gets a reply; the value is then stored under the prefixed name with the TTL text unless the reply is an error reply, which writes nothing; a failure returns 1 and writes nothing |
| Redis.Copied | src/redis_connect.c:64 | GET copies exactly the reply's bytes over the buffer's start, adds no terminator, and copies nothing for a nil reply |
| Redis.SetExThenGet | src/redis_connect.c:41-69 | a SET ... EX followed by a GET of the same key returns the written value; when the server refuses commands, both return 0 and the GET yields the error text |
| Redis.SetThenGet | src/redis_connect.c:27-69 | a SET followed by a GET of the same key returns the written value; when the server refuses commands, both return 0 and the GET yields the error text |
| Redis.SetExFrame | src/redis_connect.c:44 | writing one key leaves every other key's GET result as it was |
| Redis.ErrorIsSticky | src/redis_connect.c:59-62 | once a command has failed, after any sequence of later commands the context is still in error, nothing has been written, and a GET fails |
| Redis.Context.Connect | src/redis_connect.c:14-25 | the context is returned whether or not the connection succeeded; an error shows up only at the first command |
| Redis.Context.Get | src/redis_connect.c:55-69 | issues "GET key:k"; the new state, result and buffer are those of DbGet and Copied |
| Redis.Context.Set | src/redis_connect.c:27-39 | issues "SET key:k v" with the effect of DbSet |
| Redis.Context.SetEx | src/redis_connect.c:41-53 | issues "SET key:k v EX ttl" with the effect of DbSetEx |
| Credentials.Resolve | src/request/vzw_handler.c:23-38 | one half: a GET first; the mint only after a GET whose buffer starts with NUL; a write only after a successful mint, with the minted token and the TTL |
| Credentials.EmptyValueMints | src/request/vzw_handler.c:28-38 | an empty value leads to exactly one mint; a failed mint returns 1 and writes nothing |
| Credentials.AuthPhase | src/request/vzw_handler.c:23-38 | the auth half returns 0 or 1, and on success leaves the session key as readable as before |
| Credentials.SessionPhase | src/request/vzw_handler.c:40-55 | the session half takes no auth step, and its mint carries the username, the password and the resolved auth token |
| Credentials.Run | src/request/vzw_handler.c:20-58 | the handler returns 0 or 1 and leaves both 50-byte buffers |
| Credentials.AuthReadFailureStops | src/request/vzw_handler.c:23-26 | a failed GET of the auth key returns 1 with no mint, no write and the buffers untouched |
| Credentials.EmptyAuthMintsOnce | src/request/vzw_handler.c:28-38 | an empty auth value leads to exactly one auth mint with "PUBLIC:PRIVATE", written back with TTL 3600 only on success |
| Credentials.SessionFollowsAuth | src/request/vzw_handler.c:40-46 | the session key is read only after the auth half succeeded, and every session mint carries the resolved auth token |
| Credentials.MintedAuthReachesSession | src/request/vzw_handler.c:29-46 | a freshly minted auth token is the auth token that the session half sees |
| Credentials.EmptySessionMintsOnce | src/request/vzw_handler.c:45-55 | an empty session value leads to exactly one session mint, written back with TTL 1200 only on success |
| Credentials.BothCachedNoMint | src/request/vzw_handler.c:28-57 | when both GETs receive a non-empty string (a cached value or an error text), the result is 0 with two GETs, no mint and no write |
| Credentials.ErrorReplyTakenAsToken | src/request/vzw_handler.c:23-57 | when the server answers with a non-empty error text, the handler returns 0 without minting or writing, and both token buffers start with the error text |
| Credentials.WritesFollowMints | src/request/vzw_handler.c:29-51 | every cache write directly follows the successful mint of the value it writes |
| Credentials.UninitialisedBufferSkipsMint | src/request/vzw_handler.c:64-69 | on an auth miss (a nil reply), a buffer whose first byte is not NUL is taken for a cached token, and nothing is minted or cached |
| Credentials.UninitialisedBufferReadsPastValue | src/redis_connect.c:64 | with no NUL after a cached value or error text, the token the handler passes on runs into the buffer's stale bytes |
| Credentials.ZeroedBufferMintsOnMiss | src/request/vzw_handler.c:23-29 | with zeroed buffers, an auth miss always leads to the mint |
| Credentials.ZeroedBufferReadsCachedValue | src/redis_connect.c:64 | with zeroed buffers, what the auth GET received (the cached value or an error text) is read back exactly |
| Credentials.ResolveInto | src/request/vzw_handler.c:23-38 | one half on the context and the caller's array does what Resolve specifies |
| Credentials.Handle | src/request/vzw_handler.c:20-58 | the handler on a context and the two arrays leaves the cache, buffers, result and steps that Run specifies; the copy in src/request_handler.c:64-102 is the same |
| Unit.FieldsSizeCounts | src/request/request_common.c:4 | the fields size announced is the length of "Content-Type" plus that of the content type |
| Unit.HeaderCallsStop | src/request/request_common.c:3-25 | response_init makes the three header calls in order and stops at the first failure; all three go out exactly when all succeed |
| Unit.RequestInfo.ResponseInit | src/request/request_common.c:3-25 | logs the header calls up to the first failure; returns 0 exactly when all three succeed |
| Firmware.AlignedIoBlocks | src/request/firmware_handler.c:37-43 | for a block size that is a multiple or a divisor of 512, each of the three branches gives the whole preferred blocks in the allocation |
| Firmware.ExactIoBlocks | src/request/firmware_handler.c:37-43 | under an exact allocation, io_blocks is the number of blocks the file fills |
| Firmware.LastChunkExact | src/request/firmware_handler.c:72 | under an exact allocation, blksize - (blocks·512 - size) is what is left of the file after the full blocks |
| Firmware.ExactStep | src/request/firmware_handler.c:59-72 | under an exact allocation, each iteration reads a full block except the last, which advertises exactly the bytes it read |
| Firmware.ChunkStep | src/request/firmware_handler.c:50-80 | a successful iteration allocates blksize, advertises blksize on a full read or the last-chunk length on a short one, sends, and continues |
| Firmware.ChunkExit | src/request/firmware_handler.c:51-79 | a failed allocation ends with NXT_UNIT_ERROR and nothing sent; a read error ends with nothing sent and rc unchanged; a failed send ends with NXT_UNIT_ERROR |
| Firmware.ChunkLoopWorking | src/request/firmware_handler.c:50-80 | the loop neither closes the file nor completes the request, and ends with NXT_UNIT_OK or NXT_UNIT_ERROR |
| Firmware.ChunkLoopSendsAtMost | src/request/firmware_handler.c:50-80 | the loop sends at most io_blocks buffers |
| Firmware.ChunksCoverRest | src/request/firmware_handler.c:50-80 | when every call succeeds under an exact allocation, the remaining buffers carry the rest of the file in order |
| Firmware.AdvertisedTotalIsSize | src/request/firmware_handler.c:64-72 | under an exact, aligned allocation the buffers carry the file in order, advertise its size in total, and number ceil(size/blksize) |
| Firmware.OneShortBlock | src/request/firmware_handler.c:38-72 | a 1000-byte file with blksize 4096 and 8 blocks gives io_blocks 1 and one buffer advertising 1000 bytes, or none on a read error |
| Firmware.FirmwareLog | src/request/firmware_handler.c:10-88 | headers first; every exit ends with fclose and request_done; the stream is open only after the headers and download succeeded; failed headers give 1 and a failed download its code |
| Firmware.FirmwareFinishes | src/request/firmware_handler.c:83-87 | every exit closes the file and completes the request exactly once, as its last two steps |
| Firmware.ChunkIteration | src/request/firmware_handler.c:51-79 | one loop body either ends the loop as ChunkLoop does or logs its two steps and moves the stream on by the bytes read |
| Firmware.SendChunks | src/request/firmware_handler.c:50-80 | the for loop logs what ChunkLoop specifies and returns its code |
| Firmware.FirmwareRequestHandler | src/request/firmware_handler.c:10-88 | the handler logs what FirmwareLog specifies; the copy in src/request_handler.c:259-339 is the same |
| VzwHandler.StandardMethods | src/request/vzw_handler.c:74-103 | GET lists, DELETE deletes, POST creates; PUT, PATCH, HEAD and OPTIONS fall to the default case |
| VzwHandler.DispatchReadsTwoCharacters | src/request/vzw_handler.c:74-92 | methods that agree on their first two characters are dispatched alike |
| VzwHandler.ListenerCall | src/request/vzw_handler.c:76-95 | every listener operation passes the account name and the two resolved tokens first |
| VzwHandler.Teardown | src/request/vzw_handler.c:138-141 | the exit label frees the response first and completes the request with rc last |
| VzwHandler.TeardownReleases | src/request/vzw_handler.c:138-141 | the exit label opens nothing and sends nothing |
| VzwHandler.Deliver | src/request/vzw_handler.c:121-136 | a buffer of the request buffer's size plus the response size, carrying the response verbatim; 0 exactly when allocation and send succeed |
| VzwHandler.DeliverResponse | src/request/vzw_handler.c:121-136 | allocating and sending the response logs what Deliver specifies |
| VzwHandler.Exit | src/request/vzw_handler.c:138-141 | the exit label logs the teardown |
| VzwHandler.ListenersAfterCredentials | src/request/vzw_handler.c:74-136 | after the credentials, the switch and delivery log what ListenersBody specifies |
| VzwHandler.ListenersLogParts | src/request/vzw_handler.c:69-141 | the listener handler is: opening, credential step, body, exit label |
| VzwHandler.ListenersCredentialsFirst | src/request/vzw_handler.c:69-72 | credentials are resolved before the method is looked at; a failure goes to the exit label with no status sent |
| VzwHandler.MethodNotAllowed | src/request/vzw_handler.c:103-113 | a method outside the switch gets 405 with no field and no body, and the result of sending it |
| VzwHandler.ListenersAccepted | src/request/vzw_handler.c:116-136 | a successful library call gives 202 with the JSON content type and the response bytes verbatim as the body |
| VzwHandler.ListenersBracketed | src/request/vzw_handler.c:138-141 | every exit frees the response and its own connection once, and completes the request once |
| VzwHandler.RegisteredCallbackListeners | src/request/vzw_handler.c:60-142 | the handler logs what ListenersLog specifies and leaves the cache and buffers as the credential protocol does |
| VzwHandler.ListenersWith | src/request_handler.c:104-187 | the listener handler on a given connection logs its steps and leaves the cache and buffers as the credential protocol does |
| VzwHandler.Authenticate | src/request/vzw_handler.c:69 | the credential call on the handler's connection has the outcome of Credentials.Run |
| VzwHandler.NiddAfterCredentials | src/request/vzw_handler.c:157-185 | after the credentials: the fail label, or the library call and delivery |
| VzwHandler.NiddStepsUnsent | src/request/vzw_handler.c:149-152 | failed headers leave nothing else before the fail label, and 1 |
| VzwHandler.NiddStepsSent | src/request/vzw_handler.c:149-160 | headers that went out are followed by the credential step and the body |
| VzwHandler.NiddStepsStatus | src/request/vzw_handler.c:149 | the steps start with the 202 status and set no other |
| VzwHandler.NiddStatusCommitted | src/request/vzw_handler.c:149-160 | 202 JSON is committed before the credentials; no later failure sets another status |
| VzwHandler.NiddNoCredentialsWithoutHeaders | src/request/vzw_handler.c:149-152 | when the headers fail, neither the credentials nor the library are touched, and the result is 1 |
| VzwHandler.NiddDelivered | src/request/vzw_handler.c:162-185 | a successful send gives the 202 headers, the credential step, the library call with the TEST_MDN device, and the reply verbatim |
| VzwHandler.NiddBracketed | src/request/vzw_handler.c:187-190 | every exit frees the response and its own connection once, and completes the request once |
| VzwHandler.SendNidd | src/request/vzw_handler.c:144-191 | the handler logs what NiddLog specifies; the cache and buffers change only when the headers went out |
| VzwHandler.NiddWith | src/request_handler.c:189-234 | the NIDD handler on a given connection: its log, with the cache and buffers untouched when the headers fail |
| VzwHandler.NiddAfterInit | src/request/vzw_handler.c:150-190 | after response_init: the fail label when it failed, otherwise the credentials, the body and the fail label |
| VzwHandler.NiddSent | src/request/vzw_handler.c:154-190 | once the headers went out, the credentials are resolved on the connection and the body runs |
| VzwHandler.CallbackNeverForwards | src/request/vzw_handler.c:193-214 | the callback answers 204 with no field and no body, reads content_length bytes, forwards nothing, and completes once with the header send's result |
| VzwHandler.Callback | src/request/vzw_handler.c:193-214 | the callback logs what CallbackLog specifies |
| Router.RouteByPrefix | src/request/router.c:19-32 | "/vzw/nidd…" goes to NIDD; "/vzw/registered_callback_listeners…" to listeners; any other "/vzw…" (including "/vzw" and "/vzwfoo") to the callback; "/firmware…" to firmware; anything else to 404 |
| Router.HandlerCompletes | src/request/router.c:19-31 | each routed handler completes the request exactly once by itself |
| Router.CompletedAgain | src/request/router.c:40-41 | the end label's request_done after a completed handler makes two completions |
| Router.RoutedRequestsCompleteTwice | src/request/router.c:28-41 | as written, every routed request is completed twice: by the handler, then with 0 at the end label |
| Router.NotFoundIgnoresHeaders | src/request/router.c:34-38 | as written, "Error 404" is written and the request completed with 0 even when response_init failed |
| Router.CorrectedNotFoundWritesAfterHeaders | src/request/router.c:34-38 | the corrected 404 writes its body exactly when the headers went out, and completes once with 0 or 1 |
| Router.CorrectedRouterCompletesOnce | src/request/router.c:13-42 | the corrected router completes every request exactly once |
| Router.RequestRouter | src/request/router.c:13-42 | the router runs the handler its path selects, then request_done with 0 |
| Router.DispatchVzw | src/request/router.c:19-28 | a "/vzw" path runs the handler its remainder selects |
| Router.DispatchOther | src/request/router.c:29-38 | firmware, or the 404 with response_init's result ignored |
| RequestHandler.BracketedWithoutConnection | src/request_handler.c:185-186 | a handler on a given connection neither opens nor frees one |
| RequestHandler.SharedHandlerCompletes | src/request_handler.c:189-257 | the three handlers on the router's connection leave it alone and complete the request once |
| RequestHandler.OneConnectionPerVzwRequest | src/request_handler.c:347-358 | a "/vzw" request opens one connection first, and frees it once, after the handler completed the request |
| RequestHandler.ContextRequestsCompleteTwice | src/request_handler.c:357-371 | as written, routed requests are completed twice here too |
| RequestHandler.CorrectedContextCompletesOnce | src/request_handler.c:341-372 | the corrected router completes once, and frees the connection last |
| RequestHandler.RequestRouter | src/request_handler.c:341-372 | the router logs what ContextLog specifies: connect, handler and free for "/vzw", then request_done with 0 |
| RequestHandler.ServeVzw | src/request_handler.c:347-358 | redis_connect, the handler on that connection, redisFree |
| RequestHandler.DispatchShared | src/request_handler.c:349-356 | the handler the remainder selects, on the router's connection |

## Left out

- Concurrency and process start-up: src/main.c's thread pool and the Unit run loop.
- The NGINX Unit transport is not modelled itself. Its calls become logged events, and their success is an oracle per log position.
- libcurl options, TLS and the write callbacks are left out. A transfer's reply is an input; the POST's URL, headers and body are recorded.
- The jsmn tokenizer, `eval_jsmn_return` and `jsoneq` are inputs. They become a token list or a parse error, and "a string token whose text is the key".
- The base64 implementation is not part of this model. `Base64.Encode` follows section 4 of RFC 4648; `base64()` is taken to write that encoding and a NUL, and to return BASE64LEN.
- The vzw_nidd library the handlers call, including the two token mints, is not part of this model. It is an oracle from a call to a code and a response.
- `download_firmware_github`, `fstat` and `fread` are inputs: the download's code, the stat result and whether a short read reports an error. The file is its contents.
- The token buffers come in as arrays with arbitrary contents, which is how an uninitialised stack array behaves.
- Logging, PRINTDBG output, and the callback's malloc'd read buffer and its printing are left out.
- TTL expiry is not simulated. A TTL is recorded with the value.
- The handlers' library argument TEST_MDN is a parameter.
- Content types and library entry points are enumerations (`Media`, `Api`). `Unit.FieldsSizeCounts` ties each announced size to the strings.
- Redis.DbGet: an error reply is one text the server gives every command on the connection, as NOAUTH or LOADING do. Error replies that depend on the key (WRONGTYPE) or that stop partway through a connection are not represented.
- Redis.Context.Get: requires the reply's string, a cached value or an error text, to fit the buffer. The C copy has no bound and overflows the 50-byte token buffers on a longer value, which the model does not cover.
- Credentials.Run: requires cached values and minted tokens to fit the 50-byte buffers, for the same reason.
- A NULL redis context (allocation failure) is left out. It would make every command crash rather than fail.
- Firmware.FirmwareLog: the exits before the download record `fclose` on a stream that was never opened. They do not model what fclose then does.
- Firmware.AlignedIoBlocks: io_blocks is proved only for block sizes that are multiples or divisors of 512. Other sizes are modelled but not characterised.
- Firmware.LastChunkExact: the last-chunk length is signed arithmetic. The `size_t` wrap-around of an inexact allocation is not modelled.
- VzwConnect.GetM2mToken: requires the username and password to be no longer than the configured ones. Longer values would overflow LOGIN_FIELD_SIZE in C.
- VzwConnectLegacy.GetM2mToken: requires the username and password to be no longer than the configured ones, for the same reason. The bytes between shorter credentials and the closing quote are left arbitrary, as C leaves them.
- Jsmn.ExtractTokenInto: runs only on replies whose copied values fit the caller's buffer. A longer value is a memcpy past the buffer, with no Dafny counterpart; `Jsmn.Scan` reports it as an overflow and `Jsmn.ScanOverflowsIff` says exactly when.
- VzwConnect.GetAuthToken: runs only on replies whose "access_token" value fits the token buffer, for the same reason.
- VzwConnect.GetM2mToken: runs only on replies whose "sessionToken" value fits the token buffer, for the same reason.
- VzwConnectLegacy.GetAuthToken: runs only on replies whose "access_token" value fits the token buffer, for the same reason.
- VzwConnectLegacy.GetM2mToken: runs only on replies whose "sessionToken" value fits the token buffer, for the same reason.
- Jsmn.Scan: a key in the last parsed token copies nothing. As written, C copies from tokens[ret], which was never parsed (see Findings). The message printed for an error key is left out with the other logging.
- VzwConnect.SendNiddData: writes the body into a buffer with the older copy's six-byte margin, not the SEND_NIDD_BODY_MAX_SIZE array of src/vzw/vzw_connect.c:192-194. That array is one byte short at the limits (see Findings); the posted body is the same whenever it fits.
- VzwConnectLegacy.SendNiddData: builds the session header with the copy bounded by the session literal's own length, not the 21-byte copy of src/vzw_connect.c:264 (see Findings). The header text is the same for every token; only the memory written past the buffer for tokens shorter than 7 characters differs.
- Credentials.Resolve: assumes the token library's mint writes the token followed by a NUL into the caller's buffer, and caches that token. The repository's own extract_token copies with no terminator (src/vzw/vzw_connect.c:38). A mint that did the same over a buffer holding longer stale bytes would cache and pass on a longer string.
- Credentials.MintedAuthReachesSession: relies on the same terminated-mint assumption for the auth token the session mint receives.
- VzwConnect.SendNiddData: requires the MDN and delivery time to be within MDN_SIZE and MAX_MDT_SIZE. The handlers only pass TEST_MDN and "400".
- Router.RequestRouter: requires the cache facts only of "/vzw" paths, because only those reach the credential handler.

## Findings

| source | as written | input that shows it | evidently intended | confidence | as-written member | corrected member |
|---|---|---|---|---|---|---|
| src/request/vzw_handler.c:64-65 | the token buffers are uninitialised, and a GET miss writes nothing into them | an empty cache with a first buffer byte other than NUL | zeroed buffers, so that a miss always mints | not executed | Credentials.UninitialisedBufferSkipsMint | Credentials.ZeroedBufferMintsOnMiss |
| src/vzw/vzw_connect.c:192-194 | SEND_NIDD_BODY_MAX_SIZE has no margin for the NUL | a 10-digit MDN, a 7-character delivery time and a message encoding to 10864 characters | the older copy's +6 margin | not executed | VzwConnect.AsWrittenNiddBodyOneByteShort | VzwFields.BuildNiddField |
| src/vzw_connect.c:264 | the session header copies strlen(ACCESS_TOKEN_FIELD) = 21 bytes from the 14-byte "VZ-M2M-Token:" | a session token shorter than 7 characters | copying the session literal's own length | not executed | VzwConnectLegacy.AsWrittenSessionFieldShortToken | VzwConnectLegacy.BuildSessionField |
| src/vzw/vzw_connect.c:35-36 | the loop runs while t < ret and reads tokens[t + 1] | ten parsed tokens with no error key | reading the value after a key only when t + 1 < ret | not executed | Jsmn.AsWrittenOverrunsTokenArray | Jsmn.Reads |
| src/request/router.c:40-41 | the end label calls request_done after a handler already did | any routed path, e.g. "/vzw/nidd" | only the 404 branch completes at the end label | not executed | Router.RoutedRequestsCompleteTwice | Router.CorrectedRouterCompletesOnce |
| src/request/router.c:34-37 | response_init's result is discarded, so rc stays 0 | an unrouted path whose first header call fails | rc = response_init(...), skipping the body on failure | not executed | Router.NotFoundIgnoresHeaders | Router.CorrectedNotFoundWritesAfterHeaders |
| src/request_handler.c:371 | the context-passing router also completes routed requests a second time | any "/vzw" path | only the 404 branch completes at the end label | not executed | RequestHandler.ContextRequestsCompleteTwice | RequestHandler.CorrectedContextCompletesOnce |
