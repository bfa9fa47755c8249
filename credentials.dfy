/** vzw_credentials_handler, the same in both handler files: resolve the
    auth token from the cache, minting and caching a new one when the cached
    value is empty, then resolve the session token the same way with the auth
    token. Every failing step returns 1 at once. The two mint calls belong to
    the token library and are inputs: each either fails or writes a token and
    its terminator into the caller's buffer. */
module Credentials {
  import opened CStrings
  import opened Redis
  import opened VzwFields

  const AuthKey: string := "VZW_AUTH_TOKEN"
  const SessionKey: string := "VZW_SESSION_TOKEN"
  const AuthTtl: string := "3600"
  const SessionTtl: string := "1200"

  /** `char vzw_auth_token[50]` and `char vzw_session_token[50]`. */
  const TokenBufferSize: nat := 50

  /** The outcome of a mint call. */
  datatype Mint = MintFailed | Minted(token: CStr)

  /** The steps of the protocol, in the order they are taken. */
  datatype Step =
    | CacheGet(key: string)
    | MintAuth(keys: string)
    | MintSession(username: string, password: string, authToken: string)
    | CacheSetEx(key: string, value: string, ttl: string)

  predicate IsMint(s: Step) {
    s.MintAuth? || s.MintSession?
  }

  /** What a GET of key receives, the cached value or the server's error
      text, fits a token buffer (GET copies it unbounded). */
  predicate ValueFits(db: Db, key: string) {
    Answer(db, key).Some? ==> |Answer(db, key).value| <= TokenBufferSize
  }

  /** A minted token and its terminator fit a token buffer. */
  predicate MintFits(mint: Mint) {
    mint.Minted? ==> |mint.token| < TokenBufferSize
  }

  /** The result of resolving one token. */
  datatype Phase = Phase(rc: int, db: Db, buf: seq<char>, trace: seq<Step>)

  /** One half of the handler: GET key into buf; when the buffer then starts
      with a terminator, the mint step, and on its success SET key EX ttl with
      the minted token. */
  function Resolve(db: Db, key: string, buf: seq<char>, mintStep: Step, mint: Mint, ttl: string): (p: Phase)
    requires |buf| == TokenBufferSize && ValueFits(db, key) && MintFits(mint)
    ensures |p.buf| == TokenBufferSize
    ensures p.rc == 0 || p.rc == 1
    ensures 1 <= |p.trace| <= 3 && p.trace[0] == CacheGet(key)
    ensures |p.trace| >= 2 ==> p.trace[1] == mintStep
    ensures |p.trace| == 3 ==> mint.Minted? && p.trace[2] == CacheSetEx(key, mint.token, ttl)
  {
    var g := DbGet(db, key);
    if g.rc != 0 then Phase(1, g.db, buf, [CacheGet(key)])
    else
      var got := Copied(buf, g.reply);
      if got[0] != NUL then Phase(0, g.db, got, [CacheGet(key)])
      else match mint
        case MintFailed => Phase(1, g.db, got, [CacheGet(key), mintStep])
        case Minted(token) =>
          var s := DbSetEx(g.db, key, token, ttl);
          Phase(if s.rc == 0 then 0 else 1, s.db, Overwrite(got, 0, token + [NUL]), [CacheGet(key), mintStep, CacheSetEx(key, token, ttl)])
  }

  /** When the buffer reads empty after a successful GET, the mint step follows,
      then the cache write exactly when the mint succeeded; a failed mint
      leaves the cache as it was. */
  lemma EmptyValueMints(db: Db, key: string, buf: seq<char>, mintStep: Step, mint: Mint, ttl: string)
    requires |buf| == TokenBufferSize && ValueFits(db, key) && MintFits(mint)
    requires Answers(db) && Copied(buf, DbGet(db, key).reply)[0] == NUL
    ensures var p := Resolve(db, key, buf, mintStep, mint, ttl);
      && |p.trace| == (if mint.Minted? then 3 else 2) && p.trace[1] == mintStep
      && (mint.MintFailed? ==> p.rc == 1 && p.db.store == db.store)
  {
  }

  /** Everything Run needs of its inputs. */
  predicate Ready(db: Db, auth: seq<char>, session: seq<char>, mintAuth: Mint, mintSession: Mint) {
    && |auth| == TokenBufferSize && |session| == TokenBufferSize
    && ValueFits(db, AuthKey) && ValueFits(db, SessionKey)
    && MintFits(mintAuth) && MintFits(mintSession)
  }

  /** The first half: the auth token, minted with the keys "PUBLIC:PRIVATE" and cached for 3600 seconds. */
  function AuthPhase(secrets: Secrets, db: Db, auth: seq<char>, mintAuth: Mint): (p: Phase)
    requires |auth| == TokenBufferSize && ValueFits(db, AuthKey) && MintFits(mintAuth)
    ensures |p.buf| == TokenBufferSize && (p.rc == 0 || p.rc == 1)
    ensures p.rc == 0 ==> ValueFits(p.db, SessionKey) == ValueFits(db, SessionKey)
  {
    Resolve(db, AuthKey, auth, MintAuth(AuthKeys(secrets)), mintAuth, AuthTtl)
  }

  /** The second half, after a resolved auth token: the session token, minted
      with the configured username and password and the auth token as the
      auth buffer reads, and cached for 1200 seconds. */
  function SessionPhase(secrets: Secrets, a: Phase, session: seq<char>, mintSession: Mint): (p: Phase)
    requires |session| == TokenBufferSize && ValueFits(a.db, SessionKey) && MintFits(mintSession)
    ensures |p.buf| == TokenBufferSize && (p.rc == 0 || p.rc == 1)
    ensures forall i :: 0 <= i < |p.trace| ==> !AuthStep(p.trace[i])
    ensures forall i :: 0 <= i < |p.trace| && p.trace[i].MintSession? ==>
      p.trace[i] == MintSession(secrets.username, secrets.password, CString(a.buf))
  {
    var mintStep := MintSession(secrets.username, secrets.password, CString(a.buf));
    var p := Resolve(a.db, SessionKey, session, mintStep, mintSession, SessionTtl);
    assert forall i :: 0 <= i < |p.trace| ==>
      p.trace[i] == CacheGet(SessionKey) || p.trace[i] == mintStep || (p.trace[i].CacheSetEx? && p.trace[i].key == SessionKey);
    p
  }

  /** The steps of the first half. */
  predicate AuthStep(s: Step) {
    s == CacheGet(AuthKey) || s.MintAuth? || (s.CacheSetEx? && s.key == AuthKey)
  }

  /** The result of the whole handler: the return code, the cache, the two
      token buffers and the steps taken. */
  datatype Outcome = Outcome(rc: int, db: Db, auth: seq<char>, session: seq<char>, trace: seq<Step>)

  /** The session key is resolved only when the auth token was, and the
      session mint receives the auth token as the auth buffer then reads. */
  function Run(secrets: Secrets, db: Db, auth: seq<char>, session: seq<char>, mintAuth: Mint, mintSession: Mint): (r: Outcome)
    requires Ready(db, auth, session, mintAuth, mintSession)
    ensures r.rc == 0 || r.rc == 1
    ensures |r.auth| == TokenBufferSize && |r.session| == TokenBufferSize
  {
    var a := AuthPhase(secrets, db, auth, mintAuth);
    if a.rc != 0 then Outcome(1, a.db, a.buf, session, a.trace)
    else
      var s := SessionPhase(secrets, a, session, mintSession);
      Outcome(s.rc, s.db, a.buf, s.buf, a.trace + s.trace)
  }

  /** A failed read of the auth key returns 1 before any mint or cache write. */
  lemma AuthReadFailureStops(secrets: Secrets, db: Db, auth: seq<char>, session: seq<char>, mintAuth: Mint, mintSession: Mint)
    requires Ready(db, auth, session, mintAuth, mintSession) && !Answers(db)
    ensures Run(secrets, db, auth, session, mintAuth, mintSession)
      == Outcome(1, Next(db), auth, session, [CacheGet(AuthKey)])
  {
  }

  /** An empty auth value leads to exactly one auth mint, with the keys
      "PUBLIC:PRIVATE"; the minted token is cached with TTL "3600" exactly when
      the mint succeeded, and a failed mint returns 1 with the cache unwritten. */
  lemma EmptyAuthMintsOnce(secrets: Secrets, db: Db, auth: seq<char>, session: seq<char>, mintAuth: Mint, mintSession: Mint)
    requires Ready(db, auth, session, mintAuth, mintSession) && Answers(db)
    requires Copied(auth, DbGet(db, AuthKey).reply)[0] == NUL
    ensures var r := Run(secrets, db, auth, session, mintAuth, mintSession);
      && |r.trace| >= 2 && r.trace[1] == MintAuth(AuthKeys(secrets))
      && (forall i :: 0 <= i < |r.trace| && i != 1 ==> !r.trace[i].MintAuth?)
      && (forall i :: 0 <= i < |r.trace| && r.trace[i].CacheSetEx? && r.trace[i].key == AuthKey ==>
            i == 2 && mintAuth.Minted? && r.trace[i] == CacheSetEx(AuthKey, mintAuth.token, AuthTtl))
      && (mintAuth.Minted? ==> |r.trace| >= 3 && r.trace[2] == CacheSetEx(AuthKey, mintAuth.token, AuthTtl))
      && (mintAuth.MintFailed? ==> r.rc == 1 && r.db.store == db.store && |r.trace| == 2)
  {
    var a := AuthPhase(secrets, db, auth, mintAuth);
    var r := Run(secrets, db, auth, session, mintAuth, mintSession);
    if a.rc == 0 {
      var s := SessionPhase(secrets, a, session, mintSession);
      assert r.trace == a.trace + s.trace;
      assert forall i :: 0 <= i < |s.trace| ==> !s.trace[i].MintAuth? && !(s.trace[i].CacheSetEx? && s.trace[i].key == AuthKey);
    }
  }

  /** The trace is the auth steps followed by the session steps; the session
      key is read only after the auth token was resolved, and the session mint
      receives the auth token as the auth buffer then reads. */
  lemma SessionFollowsAuth(secrets: Secrets, db: Db, auth: seq<char>, session: seq<char>, mintAuth: Mint, mintSession: Mint)
    requires Ready(db, auth, session, mintAuth, mintSession)
    ensures var a := AuthPhase(secrets, db, auth, mintAuth);
      var r := Run(secrets, db, auth, session, mintAuth, mintSession);
      && |a.trace| <= |r.trace| && r.trace[..|a.trace|] == a.trace
      && (forall j :: 0 <= j < |a.trace| ==> AuthStep(r.trace[j]))
      && (|r.trace| > |a.trace| ==>
            a.rc == 0 && r.trace[|a.trace|] == CacheGet(SessionKey)
            && forall j :: |a.trace| <= j < |r.trace| ==> !AuthStep(r.trace[j]))
      && (forall j :: 0 <= j < |r.trace| && r.trace[j].MintSession? ==>
            r.trace[j] == MintSession(secrets.username, secrets.password, CString(a.buf)))
  {
    var a := AuthPhase(secrets, db, auth, mintAuth);
    var r := Run(secrets, db, auth, session, mintAuth, mintSession);
    if a.rc == 0 {
      var s := SessionPhase(secrets, a, session, mintSession);
      assert r.trace == a.trace + s.trace;
      forall j | |a.trace| <= j < |r.trace|
        ensures r.trace[j] == s.trace[j - |a.trace|]
      {
      }
    }
  }

  /** A freshly minted auth token is what the session mint receives. */
  lemma MintedAuthReachesSession(secrets: Secrets, db: Db, auth: seq<char>, token: CStr)
    requires |auth| == TokenBufferSize && ValueFits(db, AuthKey) && |token| < TokenBufferSize
    requires Answers(db) && Copied(auth, DbGet(db, AuthKey).reply)[0] == NUL
    ensures CString(AuthPhase(secrets, db, auth, Minted(token)).buf) == token
  {
    var buf := AuthPhase(secrets, db, auth, Minted(token)).buf;
    assert buf[..|token| + 1] == token + [NUL];
    CStringOfPrefix(buf, token);
  }

  /** After a resolved auth token, an empty session value leads to exactly one
      session mint; the minted token is cached with TTL "1200" exactly when the
      mint succeeded, and a failed mint returns 1 without a session write. */
  lemma EmptySessionMintsOnce(secrets: Secrets, db: Db, auth: seq<char>, session: seq<char>, mintAuth: Mint, mintSession: Mint)
    requires Ready(db, auth, session, mintAuth, mintSession)
    requires var a := AuthPhase(secrets, db, auth, mintAuth);
      a.rc == 0 && Answers(a.db) && Copied(session, DbGet(a.db, SessionKey).reply)[0] == NUL
    ensures var a := AuthPhase(secrets, db, auth, mintAuth);
      var r := Run(secrets, db, auth, session, mintAuth, mintSession);
      var k := |a.trace|;
      && |r.trace| >= k + 2 && r.trace[k + 1] == MintSession(secrets.username, secrets.password, CString(a.buf))
      && (forall i :: 0 <= i < |r.trace| && i != k + 1 ==> !r.trace[i].MintSession?)
      && (forall i :: 0 <= i < |r.trace| && r.trace[i].CacheSetEx? && r.trace[i].key == SessionKey ==>
            i == k + 2 && mintSession.Minted? && r.trace[i] == CacheSetEx(SessionKey, mintSession.token, SessionTtl))
      && (mintSession.Minted? ==> |r.trace| == k + 3 && r.trace[k + 2] == CacheSetEx(SessionKey, mintSession.token, SessionTtl))
      && (mintSession.MintFailed? ==> r.rc == 1 && r.db.store == a.db.store && |r.trace| == k + 2)
  {
    var a := AuthPhase(secrets, db, auth, mintAuth);
    var s := SessionPhase(secrets, a, session, mintSession);
    EmptyValueMints(a.db, SessionKey, session,
      MintSession(secrets.username, secrets.password, CString(a.buf)), mintSession, SessionTtl);
    AuthTraceSteps(secrets, db, auth, mintAuth);
    SessionAfterAuth(a.trace, s.trace, mintSession);
  }

  /** The steps of the first half are auth steps. */
  lemma AuthTraceSteps(secrets: Secrets, db: Db, auth: seq<char>, mintAuth: Mint)
    requires |auth| == TokenBufferSize && ValueFits(db, AuthKey) && MintFits(mintAuth)
    ensures var a := AuthPhase(secrets, db, auth, mintAuth);
      forall i :: 0 <= i < |a.trace| ==> AuthStep(a.trace[i])
  {
  }

  /** A session trace with one mint at index 1 and at most its write after it,
      behind auth steps: the indices shift by the auth steps' count. */
  lemma SessionAfterAuth(a: seq<Step>, s: seq<Step>, mint: Mint)
    requires forall i :: 0 <= i < |a| ==> AuthStep(a[i])
    requires 2 <= |s| <= 3 && s[1].MintSession? && !s[0].MintSession?
    requires |s| == 3 ==> mint.Minted? && s[2] == CacheSetEx(SessionKey, mint.token, SessionTtl)
    requires s[0].CacheSetEx? ==> s[0].key != SessionKey
    ensures var r := a + s; var k := |a|;
      && r[k + 1] == s[1]
      && (forall i :: 0 <= i < |r| && i != k + 1 ==> !r[i].MintSession?)
      && (forall i :: 0 <= i < |r| && r[i].CacheSetEx? && r[i].key == SessionKey ==>
            i == k + 2 && mint.Minted? && r[i] == CacheSetEx(SessionKey, mint.token, SessionTtl))
  {
    var r := a + s;
    forall i | 0 <= i < |r|
      ensures i < |a| ==> r[i] == a[i]
      ensures i >= |a| ==> r[i] == s[i - |a|]
    {
    }
  }

  /** Both GETs receive a non-empty string (both values cached, or the
      server's error text): no mint, no cache write, result 0. */
  lemma BothCachedNoMint(secrets: Secrets, db: Db, auth: seq<char>, session: seq<char>, mintAuth: Mint, mintSession: Mint)
    requires Ready(db, auth, session, mintAuth, mintSession) && Answers(db) && db.link >= 2
    requires Answer(db, AuthKey).Some? && Answer(db, AuthKey).value != [] && Answer(db, AuthKey).value[0] != NUL
    requires Answer(db, SessionKey).Some? && Answer(db, SessionKey).value != [] && Answer(db, SessionKey).value[0] != NUL
    ensures var r := Run(secrets, db, auth, session, mintAuth, mintSession);
      r.rc == 0 && r.trace == [CacheGet(AuthKey), CacheGet(SessionKey)] && r.db.store == db.store
  {
  }

  /** An error reply is taken for a cached token: when the server answers
      every command with a non-empty error text, the handler returns 0 without
      minting or writing, and both token buffers start with the error text,
      which the later library calls then send as the tokens. */
  lemma ErrorReplyTakenAsToken(secrets: Secrets, db: Db, auth: seq<char>, session: seq<char>, mintAuth: Mint, mintSession: Mint)
    requires Ready(db, auth, session, mintAuth, mintSession) && Answers(db) && db.link >= 2
    requires db.refusal.Some? && db.refusal.value != [] && db.refusal.value[0] != NUL
    ensures var r := Run(secrets, db, auth, session, mintAuth, mintSession);
      && r.rc == 0 && r.trace == [CacheGet(AuthKey), CacheGet(SessionKey)] && r.db.store == db.store
      && StartsWith(r.auth, db.refusal.value) && StartsWith(r.session, db.refusal.value)
  {
  }

  /** In trace t every cache write follows the successful mint of the value it writes. */
  predicate WritesFollow(t: seq<Step>, mintAuth: Mint, mintSession: Mint) {
    forall i :: 0 <= i < |t| && t[i].CacheSetEx? ==>
      && i >= 1 && IsMint(t[i - 1])
      && (t[i - 1].MintAuth? ==> mintAuth.Minted? && t[i] == CacheSetEx(AuthKey, mintAuth.token, AuthTtl))
      && (t[i - 1].MintSession? ==> mintSession.Minted? && t[i] == CacheSetEx(SessionKey, mintSession.token, SessionTtl))
  }

  /** Every cache write follows the successful mint of the value it writes. */
  lemma WritesFollowMints(secrets: Secrets, db: Db, auth: seq<char>, session: seq<char>, mintAuth: Mint, mintSession: Mint)
    requires Ready(db, auth, session, mintAuth, mintSession)
    ensures WritesFollow(Run(secrets, db, auth, session, mintAuth, mintSession).trace, mintAuth, mintSession)
  {
    var a := AuthPhase(secrets, db, auth, mintAuth);
    PhaseWritesFollow(a.trace, AuthKey, MintAuth(AuthKeys(secrets)), mintAuth, AuthTtl, mintAuth, mintSession);
    if a.rc == 0 {
      var s := SessionPhase(secrets, a, session, mintSession);
      PhaseWritesFollow(s.trace, SessionKey, MintSession(secrets.username, secrets.password, CString(a.buf)),
        mintSession, SessionTtl, mintAuth, mintSession);
      WritesFollowAppend(a.trace, s.trace, mintAuth, mintSession);
    }
  }

  /** The trace of one half, as Resolve shapes it, has its write right after its mint. */
  lemma PhaseWritesFollow(t: seq<Step>, key: string, mintStep: Step, mint: Mint, ttl: string, mintAuth: Mint, mintSession: Mint)
    requires 1 <= |t| <= 3 && t[0] == CacheGet(key) && IsMint(mintStep)
    requires |t| >= 2 ==> t[1] == mintStep
    requires |t| == 3 ==> mint.Minted? && t[2] == CacheSetEx(key, mint.token, ttl)
    requires mintStep.MintAuth? ==> mint == mintAuth && key == AuthKey && ttl == AuthTtl
    requires mintStep.MintSession? ==> mint == mintSession && key == SessionKey && ttl == SessionTtl
    ensures WritesFollow(t, mintAuth, mintSession)
  {
  }

  /** Two traces in which writes follow their mints, the second not starting
      with a write, make one. */
  lemma WritesFollowAppend(a: seq<Step>, s: seq<Step>, mintAuth: Mint, mintSession: Mint)
    requires WritesFollow(a, mintAuth, mintSession) && WritesFollow(s, mintAuth, mintSession)
    requires |s| > 0 ==> !s[0].CacheSetEx?
    ensures WritesFollow(a + s, mintAuth, mintSession)
  {
    var r := a + s;
    forall i | 0 <= i < |r| && r[i].CacheSetEx?
      ensures i >= 1 && IsMint(r[i - 1])
      ensures r[i - 1].MintAuth? ==> mintAuth.Minted? && r[i] == CacheSetEx(AuthKey, mintAuth.token, AuthTtl)
      ensures r[i - 1].MintSession? ==> mintSession.Minted? && r[i] == CacheSetEx(SessionKey, mintSession.token, SessionTtl)
    {
      if i >= |a| {
        assert r[i] == s[i - |a|];
        assert r[i - 1] == s[i - 1 - |a|];
      } else {
        assert r[i] == a[i] && r[i - 1] == a[i - 1];
      }
    }
  }

  /** The handlers' token buffers are uninitialised: on a miss GET writes
      nothing, so a buffer whose first byte happens not to be a terminator is
      taken for a cached token and no auth token is minted or cached. */
  lemma UninitialisedBufferSkipsMint(secrets: Secrets, db: Db, auth: seq<char>, session: seq<char>, mintAuth: Mint, mintSession: Mint)
    requires Ready(db, auth, session, mintAuth, mintSession) && Answers(db)
    requires Answer(db, AuthKey).None? && auth[0] != NUL
    ensures var r := Run(secrets, db, auth, session, mintAuth, mintSession);
      forall i :: 0 <= i < |r.trace| ==> !r.trace[i].MintAuth? && !(r.trace[i].CacheSetEx? && r.trace[i].key == AuthKey)
  {
    SessionFollowsAuth(secrets, db, auth, session, mintAuth, mintSession);
  }

  /** On a hit, GET copies the value without a terminator, so an uninitialised
      buffer with no terminator after the value reads as the value followed by
      the buffer's stale bytes. */
  lemma UninitialisedBufferReadsPastValue(secrets: Secrets, db: Db, auth: seq<char>, mintAuth: Mint)
    requires |auth| == TokenBufferSize && ValueFits(db, AuthKey) && MintFits(mintAuth) && Answers(db)
    requires Answer(db, AuthKey).Some?
    requires var v := Answer(db, AuthKey).value;
      v != [] && v[0] != NUL && NUL !in v && NUL !in auth[|v|..]
    ensures var v := Answer(db, AuthKey).value;
      CString(AuthPhase(secrets, db, auth, mintAuth).buf) == v + auth[|v|..]
  {
    var v := Answer(db, AuthKey).value;
    var buf := AuthPhase(secrets, db, auth, mintAuth).buf;
    assert buf == v + auth[|v|..];
    assert NUL !in buf by {
      forall k | 0 <= k < |buf|
        ensures buf[k] != NUL
      {
        if k >= |v| {
          assert buf[k] == auth[|v|..][k - |v|];
        }
      }
    }
    CStringWithoutTerminator(buf);
  }

  /** With zero-initialised token buffers a miss always leads to the auth mint. */
  lemma ZeroedBufferMintsOnMiss(secrets: Secrets, db: Db, session: seq<char>, mintAuth: Mint, mintSession: Mint)
    requires Ready(db, Zeroes(TokenBufferSize), session, mintAuth, mintSession) && Answers(db)
    requires Answer(db, AuthKey).None?
    ensures var r := Run(secrets, db, Zeroes(TokenBufferSize), session, mintAuth, mintSession);
      |r.trace| >= 2 && r.trace[1] == MintAuth(AuthKeys(secrets))
  {
    EmptyAuthMintsOnce(secrets, db, Zeroes(TokenBufferSize), session, mintAuth, mintSession);
  }

  /** With zero-initialised token buffers a hit reads back exactly what the
      GET received: the cached value, or the server's error text. */
  lemma ZeroedBufferReadsCachedValue(secrets: Secrets, db: Db, mintAuth: Mint)
    requires ValueFits(db, AuthKey) && MintFits(mintAuth) && Answers(db)
    requires Answer(db, AuthKey).Some?
    requires var v := Answer(db, AuthKey).value;
      v != [] && v[0] != NUL && NUL !in v && |v| < TokenBufferSize
    ensures CString(AuthPhase(secrets, db, Zeroes(TokenBufferSize), mintAuth).buf) == Answer(db, AuthKey).value
  {
    var v := Answer(db, AuthKey).value;
    var buf := AuthPhase(secrets, db, Zeroes(TokenBufferSize), mintAuth).buf;
    assert buf[..|v| + 1] == v + [NUL] by {
      assert buf[|v|] == NUL;
    }
    CStringOfPrefix(buf, v);
  }

  /** One half of the handler on a live context and a caller's buffer. The
      mint oracle, on success, leaves its token and a terminator at the start
      of the buffer. */
  method ResolveInto(ctx: Context, key: string, buf: array<char>, mintStep: Step, mint: Mint, ttl: string)
    returns (rc: int, trace: seq<Step>)
    requires buf.Length == TokenBufferSize && ValueFits(ctx.State(), key) && MintFits(mint)
    modifies ctx, ctx.server, buf
    ensures Phase(rc, ctx.State(), buf[..], trace) == Resolve(old(ctx.State()), key, old(buf[..]), mintStep, mint, ttl)
  {
    var got := ctx.Get(key, buf);
    trace := [CacheGet(key)];
    if got != 0 {
      return 1, trace;
    }
    if buf[0] != NUL {
      return 0, trace;
    }
    trace := trace + [mintStep];
    match mint {
      case MintFailed =>
        rc := 1;
      case Minted(token) =>
        MemCpy(buf, 0, token + [NUL]);
        var written := ctx.SetEx(key, token, ttl);
        rc := if written == 0 then 0 else 1;
        trace := trace + [CacheSetEx(key, token, ttl)];
    }
  }

  /** vzw_credentials_handler on a live context and the handler's two token
      buffers: it ends in the state, buffers and trace Run gives. */
  method Handle(ctx: Context, secrets: Secrets, auth: array<char>, session: array<char>, mintAuth: Mint, mintSession: Mint)
    returns (rc: int, trace: seq<Step>)
    requires auth != session && Ready(ctx.State(), auth[..], session[..], mintAuth, mintSession)
    modifies ctx, ctx.server, auth, session
    ensures Outcome(rc, ctx.State(), auth[..], session[..], trace)
      == Run(secrets, old(ctx.State()), old(auth[..]), old(session[..]), mintAuth, mintSession)
  {
    rc, trace := ResolveInto(ctx, AuthKey, auth, MintAuth(AuthKeys(secrets)), mintAuth, AuthTtl);
    if rc != 0 {
      return 1, trace;
    }
    var authTrace := trace;
    rc, trace := ResolveInto(ctx, SessionKey, session,
      MintSession(secrets.username, secrets.password, CString(auth[..])), mintSession, SessionTtl);
    trace := authTrace + trace;
  }
}
