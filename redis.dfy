/** The cache key layer of src/redis_connect.c over a Redis server: every
    key is stored under "key:" + key, GET copies the reply's bytes into the
    caller's buffer, SET and SET ... EX write the value. A command either
    gets a reply or fails; a failure leaves hiredis's context in error, and a
    context in error fails every later command. A reply may be the server's
    error reply (NOAUTH, LOADING, ...): the layer checks only for a missing
    reply, so it counts an error reply as success, GET copies the error text
    as if it were the value, and SET writes nothing. */
module Redis {
  import opened CStrings

  /** A stored value and the TTL text it was written with (None for SET
      without EX); expiry is not simulated. */
  datatype Entry = Entry(value: string, ttl: Option<string>)

  /** The state one connection acts on: the server's key table, the error
      text the server answers this connection's commands with instead of
      executing them (None when it executes them), the context's error flag
      and the number of commands the link still answers. */
  datatype Db = Db(store: map<string, Entry>, refusal: Option<string>, err: bool, link: nat)

  /** The key name under which the layer stores key. */
  function KeyName(key: string): (name: string)
    ensures StartsWith(name, "key:") && name[4..] == key
  {
    "key:" + key
  }

  lemma KeyNameInjective(a: string, b: string)
    requires KeyName(a) == KeyName(b)
    ensures a == b
  {
    assert a == KeyName(a)[4..];
  }

  function GetCommand(key: string): string {
    "GET " + KeyName(key)
  }

  function SetCommand(key: string, value: string): string {
    "SET " + KeyName(key) + " " + value
  }

  function SetExCommand(key: string, value: string, ttl: string): string {
    "SET " + KeyName(key) + " " + value + " EX " + ttl
  }

  /** The next command gets a reply: the context is not in error and the link is up. */
  predicate Answers(db: Db) {
    !db.err && db.link > 0
  }

  /** The connection after one command: a reply uses up one answer of the
      link, a missing reply puts the context in error. */
  function Next(db: Db): (r: Db)
    ensures r.store == db.store
    ensures Answers(db) ==> !r.err && r.link == db.link - 1
    ensures !Answers(db) ==> r.err
  {
    if Answers(db) then db.(link := db.link - 1) else db.(err := true)
  }

  /** The outcome of a command: the new state, the return code and, for GET,
      the reply's string (None for a nil reply, whose length is 0). */
  datatype Result = Result(db: Db, rc: int, reply: Option<string>)

  /** The string a GET of key receives when it gets a reply: the server's
      error text when it refuses the command, otherwise the stored value, or
      None for a nil reply. */
  function Answer(db: Db, key: string): Option<string> {
    if db.refusal.Some? then db.refusal
    else if KeyName(key) in db.store then Some(db.store[KeyName(key)].value)
    else None
  }

  /** redis_get: 0 and the stored value, or a nil reply for a missing key;
      0 and the error text on an error reply; 1 when the command gets no
      reply or the context is in error. */
  function DbGet(db: Db, key: string): (r: Result)
    ensures r.db.store == db.store && r.db.refusal == db.refusal
    ensures r.rc == 0 <==> Answers(db)
    ensures r.rc != 0 ==> r.reply.None?
    ensures r.rc == 0 && db.refusal.Some? ==> r.reply == db.refusal
    ensures r.rc == 0 && db.refusal.None? ==> (r.reply.Some? <==> KeyName(key) in db.store)
    ensures r.reply.Some? && db.refusal.None? ==> KeyName(key) in db.store && r.reply.value == db.store[KeyName(key)].value
  {
    var db' := Next(db);
    if !Answers(db) then Result(db', 1, None)
    else Result(db', 0, Answer(db, key))
  }

  /** redis_set: stores value under the prefixed key with no TTL and returns
      0; an error reply also returns 0 but writes nothing; a failure returns 1
      and writes nothing. */
  function DbSet(db: Db, key: string, value: string): (r: Result)
    ensures r.db.refusal == db.refusal
    ensures r.rc == 0 <==> Answers(db)
    ensures r.rc == 0 && db.refusal.None? ==> r.db.store == db.store[KeyName(key) := Entry(value, None)]
    ensures r.rc != 0 || db.refusal.Some? ==> r.db.store == db.store
  {
    var db' := Next(db);
    if Answers(db) && db.refusal.None? then Result(db'.(store := db.store[KeyName(key) := Entry(value, None)]), 0, None)
    else Result(db', if Answers(db) then 0 else 1, None)
  }

  /** redis_set_ex: stores value under the prefixed key with the TTL text and
      returns 0; an error reply also returns 0 but writes nothing; a failure
      returns 1 and writes nothing. */
  function DbSetEx(db: Db, key: string, value: string, ttl: string): (r: Result)
    ensures r.db.refusal == db.refusal
    ensures r.rc == 0 <==> Answers(db)
    ensures r.rc == 0 && db.refusal.None? ==> r.db.store == db.store[KeyName(key) := Entry(value, Some(ttl))]
    ensures r.rc != 0 || db.refusal.Some? ==> r.db.store == db.store
  {
    var db' := Next(db);
    if Answers(db) && db.refusal.None? then Result(db'.(store := db.store[KeyName(key) := Entry(value, Some(ttl))]), 0, None)
    else Result(db', if Answers(db) then 0 else 1, None)
  }

  /** What GET leaves in the caller's buffer: the reply's bytes copied over
      its start with no terminator; a nil reply copies nothing. */
  function Copied(buf: seq<char>, reply: Option<string>): (r: seq<char>)
    requires reply.Some? ==> |reply.value| <= |buf|
    ensures |r| == |buf|
    ensures reply.None? ==> r == buf
    ensures reply.Some? ==> r[..|reply.value|] == reply.value && r[|reply.value|..] == buf[|reply.value|..]
  {
    if reply.Some? then CopyInto(buf, reply.value) else buf
  }

  /** A value written with SET ... EX is what the next GET of the same key
      returns, on a link that answers both commands; when the server refuses
      commands, both return 0 and the GET receives the error text instead. */
  lemma SetExThenGet(db: Db, key: string, value: string, ttl: string)
    requires Answers(db) && db.link >= 2
    ensures var w := DbSetEx(db, key, value, ttl);
      DbGet(w.db, key) == Result(w.db.(link := db.link - 2), 0, if db.refusal.None? then Some(value) else db.refusal)
  {
  }

  /** The same for SET without EX. */
  lemma SetThenGet(db: Db, key: string, value: string)
    requires Answers(db) && db.link >= 2
    ensures var w := DbSet(db, key, value);
      DbGet(w.db, key) == Result(w.db.(link := db.link - 2), 0, if db.refusal.None? then Some(value) else db.refusal)
  {
  }

  /** Writing one key leaves every other key as it was. */
  lemma SetExFrame(db: Db, key: string, other: string, value: string, ttl: string)
    requires other != key
    ensures var w := DbSetEx(db, key, value, ttl);
      DbGet(w.db, other).reply == (if Answers(w.db) then DbGet(db, other).reply else None)
  {
    if KeyName(other) == KeyName(key) {
      KeyNameInjective(other, key);
    }
  }

  /** A command of the key layer. */
  datatype Command = Get(key: string) | Set(key: string, value: string) | SetEx(key: string, value: string, ttl: string)

  /** The connection after the commands, issued in order. */
  function Issue(db: Db, cmds: seq<Command>): Db
    decreases |cmds|
  {
    if cmds == [] then db
    else
      var r := match cmds[0]
        case Get(k) => DbGet(db, k)
        case Set(k, v) => DbSet(db, k, v)
        case SetEx(k, v, ttl) => DbSetEx(db, k, v, ttl);
      Issue(r.db, cmds[1..])
  }

  /** Once a command has failed, every later command fails: whatever commands
      follow, the context stays in error, nothing is written, and a GET after
      them returns 1. */
  lemma {:induction false} ErrorIsSticky(db: Db, cmds: seq<Command>, key: string)
    requires !Answers(db)
    ensures var d := Issue(Next(db), cmds);
      d.err && d.store == db.store && DbGet(d, key).rc == 1
    decreases |cmds|
  {
    if cmds != [] {
      var c := cmds[0];
      var r := match c
        case Get(k) => DbGet(Next(db), k)
        case Set(k, v) => DbSet(Next(db), k, v)
        case SetEx(k, v, ttl) => DbSetEx(Next(db), k, v, ttl);
      assert r.db == Next(Next(db));
      assert Issue(Next(db), cmds) == Issue(Next(Next(db)), cmds[1..]);
      ErrorIsSticky(Next(db), cmds[1..], key);
    }
  }

  /** The server: its key table outlives every connection. */
  class Server {
    var store: map<string, Entry>

    constructor (store: map<string, Entry>)
      ensures this.store == store
    {
      this.store := store;
    }
  }

  /** A hiredis context on the server, with the error text the server
      answers its commands with, if any, and the commands it has sent. */
  class Context {
    const server: Server
    const refusal: Option<string>
    var err: bool
    var link: nat
    var commands: seq<string>

    function State(): Db
      reads this, server
    {
      Db(server.store, refusal, err, link)
    }

    /** redis_connect: the context is returned even when the connection
        failed; its error only shows at the first command. */
    constructor Connect(server: Server, connected: bool, link: nat, refusal: Option<string>)
      ensures this.server == server && commands == []
      ensures State() == Db(server.store, refusal, !connected, link)
    {
      this.server := server;
      this.refusal := refusal;
      err := !connected;
      this.link := link;
      commands := [];
    }

    /** redis_get: sends "GET key:<key>" and copies the reply's length of bytes
        into value; on failure value is untouched. The reply's string must fit
        the buffer: the C copy has no bound. */
    method Get(key: string, value: array<char>) returns (rc: int)
      requires Answer(State(), key).Some? ==> |Answer(State(), key).value| <= value.Length
      modifies this, value
      ensures var r := DbGet(old(State()), key);
        State() == r.db && rc == r.rc && value[..] == Copied(old(value[..]), r.reply)
      ensures commands == old(commands) + [GetCommand(key)]
    {
      var r := DbGet(State(), key);
      commands := commands + [GetCommand(key)];
      err, link := r.db.err, r.db.link;
      if r.reply.Some? {
        MemCpy(value, 0, r.reply.value);
      }
      rc := r.rc;
    }

    /** redis_set: sends "SET key:<key> <value>". */
    method Set(key: string, value: string) returns (rc: int)
      modifies this, server
      ensures var r := DbSet(old(State()), key, value); State() == r.db && rc == r.rc
      ensures commands == old(commands) + [SetCommand(key, value)]
    {
      var r := DbSet(State(), key, value);
      commands := commands + [SetCommand(key, value)];
      err, link := r.db.err, r.db.link;
      server.store := r.db.store;
      rc := r.rc;
    }

    /** redis_set_ex: sends "SET key:<key> <value> EX <ttl>". */
    method SetEx(key: string, value: string, ttl: string) returns (rc: int)
      modifies this, server
      ensures var r := DbSetEx(old(State()), key, value, ttl); State() == r.db && rc == r.rc
      ensures commands == old(commands) + [SetExCommand(key, value, ttl)]
    {
      var r := DbSetEx(State(), key, value, ttl);
      commands := commands + [SetExCommand(key, value, ttl)];
      err, link := r.db.err, r.db.link;
      server.store := r.db.store;
      rc := r.rc;
    }
  }
}
