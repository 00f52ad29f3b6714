/** One client connection as `handle_client` in `src/server.py` serves it,
    and the required-keys check `main` runs at startup.

    The socket and the logger are objects whose only observable effect is
    the record of calls made on them: the connection keeps the sequence of
    `recv`, `sendall`, `unwrap` and `close` calls in `trace`, the logger the
    level of every record in `records`. How the peer and the socket behave
    (data sent, which calls fail, TLS or not) is fixed in advance by a
    `Peer` value. `HandleClient` is proved to produce exactly the trace and
    records that the function `Expected` describes, and the properties of
    the protocol are lemmas about `Expected`. */
module Server {
  import opened Builtins
  import opened Files
  import opened Search
  import Utf8
  import Exceptions

  /** The configuration dictionary the server runs with. */
  type Config = map<string, PyValue>

  // ---------------------------------------------------------------------
  // The query

  /** The bytes stripped from the end of a payload: NUL, CR and LF. */
  const PayloadTerminators: set<Byte> := {0, 13, 10}

  /** `raw.rstrip(b"\x00\r\n")`. */
  function StripPayload(raw: seq<Byte>): (p: seq<Byte>)
    ensures p <= raw && (p == [] || p[|p| - 1] !in PayloadTerminators)
    ensures forall j :: |p| <= j < |raw| ==> raw[j] in PayloadTerminators
  {
    RStrip(raw, PayloadTerminators)
  }

  /** The query: the stripped payload decoded as UTF-8, ignoring bad bytes. */
  function DecodeQuery(raw: seq<Byte>): (q: string)
    ensures |q| <= |StripPayload(raw)| <= |raw|
  {
    Utf8.Decode(StripPayload(raw))
  }

  /** What the client sends for a query: its UTF-8 bytes and a line feed. */
  function Frame(q: string): seq<Byte>
  {
    Utf8.Encode(q) + [10]
  }

  /** Trailing NUL, CR and LF bytes, in any order and number, do not change
      the query. */
  lemma QueryIgnoresTerminators(raw: seq<Byte>, tail: seq<Byte>)
    requires forall j :: 0 <= j < |tail| ==> tail[j] in PayloadTerminators
    ensures DecodeQuery(raw + tail) == DecodeQuery(raw)
  {
    RStripAppend(raw, tail, PayloadTerminators);
  }

  /** The server reads back exactly the query the client framed, provided
      the query does not itself end in NUL, CR or LF. */
  lemma ClientFramingRoundTrip(q: string)
    requires q == [] || q[|q| - 1] !in {'\0', '\r', '\n'}
    ensures DecodeQuery(Frame(q)) == q
  {
    var b := Utf8.Encode(q);
    RStripAppend(b, [10], PayloadTerminators);
    if q != [] {
      Utf8.EncodeLast(q);
      LastByteKept(q[|q| - 1]);
    }
    RStripKeeps(b, PayloadTerminators);
    assert StripPayload(Frame(q)) == b;
    Utf8.DecodeEncode(q);
  }

  /** A character other than NUL, CR and LF does not end in a terminator
      byte once encoded. */
  lemma LastByteKept(c: char)
    requires c !in {'\0', '\r', '\n'}
    ensures var e := Utf8.EncodeChar(c); e[|e| - 1] !in PayloadTerminators
  {
  }

  // ---------------------------------------------------------------------
  // Configuration values read per request

  /** The strings that switch re-read mode on, compared after `lower()`. */
  const TrueWords: set<string> := {"1", "true", "yes", "on"}

  /** `cfg.get("REREAD_ON_QUERY", False)`, normalised: a string counts by its
      lower-case form, any other value by its truthiness. */
  predicate RereadFlag(cfg: Config)
  {
    var v := if "REREAD_ON_QUERY" in cfg then cfg["REREAD_ON_QUERY"] else Bool(false);
    if v.Str? then Lower(v.s) in TrueWords else Truthy(v)
  }

  /** `cfg["MAX_PAYLOAD_SIZE"]` as the buffer size `recv` accepts: an `int`
      (a `bool` is one too), anything else is refused by `recv` with
      `TypeError`. That refused call is not recorded: the trace of such a
      request has no `recv`. */
  function PayloadLimit(cfg: Config): (r: Result<int, Failure>)
    ensures "MAX_PAYLOAD_SIZE" !in cfg ==> r == Err(MissingKey("MAX_PAYLOAD_SIZE"))
    ensures "MAX_PAYLOAD_SIZE" in cfg ==>
              (r.Ok? <==> cfg["MAX_PAYLOAD_SIZE"].Int? || cfg["MAX_PAYLOAD_SIZE"].Bool?)
    ensures r.Err? && "MAX_PAYLOAD_SIZE" in cfg ==> r == Err(WrongType("MAX_PAYLOAD_SIZE"))
    ensures r.Ok? && cfg["MAX_PAYLOAD_SIZE"].Int? ==> r.value == cfg["MAX_PAYLOAD_SIZE"].i
    ensures r.Ok? && cfg["MAX_PAYLOAD_SIZE"].Bool? ==> r.value == if cfg["MAX_PAYLOAD_SIZE"].b then 1 else 0
  {
    if "MAX_PAYLOAD_SIZE" !in cfg then Err(MissingKey("MAX_PAYLOAD_SIZE"))
    else match cfg["MAX_PAYLOAD_SIZE"]
      case Int(n) => Ok(n)
      case Bool(b) => Ok(if b then 1 else 0)
      case _ => Err(WrongType("MAX_PAYLOAD_SIZE"))
  }

  /** `cfg["LINUXPATH"]` as the path the search functions open. */
  function SearchPath(cfg: Config): (r: Result<string, Failure>)
    ensures "LINUXPATH" !in cfg ==> r == Err(MissingKey("LINUXPATH"))
    ensures "LINUXPATH" in cfg ==> (r.Ok? <==> cfg["LINUXPATH"].Str?)
    ensures r.Ok? ==> r.value == cfg["LINUXPATH"].s
    ensures r.Err? && "LINUXPATH" in cfg ==> r == Err(WrongType("LINUXPATH"))
  {
    if "LINUXPATH" !in cfg then Err(MissingKey("LINUXPATH"))
    else match cfg["LINUXPATH"]
      case Str(p) => Ok(p)
      case _ => Err(WrongType("LINUXPATH"))
  }

  lemma LowerIdempotent(s: string)
    ensures Lower(Lower(s)) == Lower(s)
  {
    forall i | 0 <= i < |s| ensures Lower(Lower(s))[i] == Lower(s)[i] {
      var c := s[i];
      if 'A' <= c <= 'Z' {
        assert !('A' <= LowerChar(c) <= 'Z');
      }
    }
  }

  /** The flag is off when the key is absent, and a string flag does not
      depend on letter case. */
  lemma RereadFlagNormalised(cfg: Config, s: string)
    ensures "REREAD_ON_QUERY" !in cfg ==> !RereadFlag(cfg)
    ensures RereadFlag(cfg["REREAD_ON_QUERY" := Str(s)]) == RereadFlag(cfg["REREAD_ON_QUERY" := Str(Lower(s))])
  {
    LowerIdempotent(s);
  }

  /** Normalisation differs from plain truthiness: the string `"False"` (as
      a configuration file gives it) selects static mode, `"ON"` re-read
      mode, and `"0"` static mode, while integers count by truthiness. */
  lemma RereadFlagExamples(cfg: Config)
    ensures !RereadFlag(cfg["REREAD_ON_QUERY" := Str("False")]) && Truthy(Str("False"))
    ensures RereadFlag(cfg["REREAD_ON_QUERY" := Str("ON")])
    ensures !RereadFlag(cfg["REREAD_ON_QUERY" := Str("0")])
    ensures !RereadFlag(cfg["REREAD_ON_QUERY" := Int(0)]) && RereadFlag(cfg["REREAD_ON_QUERY" := Int(2)])
  {
    assert Lower("False") == "false";
    assert Lower("ON") == "on";
    assert Lower("0") == "0";
    assert "false" !in TrueWords by {
      assert "false" != "true" && "false" != "yes" && "false" != "on" && "false" != "1";
    }
    assert "0" !in TrueWords by {
      assert "0"[0] != "1"[0];
    }
  }

  // ---------------------------------------------------------------------
  // The socket and the logger

  /** How the other end and the socket behave for one connection: TLS or
      plain, the bytes waiting to be received, and which calls raise. */
  datatype Peer = Peer(
    tls: bool,
    incoming: seq<Byte>,
    recvFails: bool,
    sendFails: bool,
    unwrapFails: bool,
    closeFails: bool)

  /** A call made on the connection. */
  datatype Event = RecvCall(bufsize: int) | SendAllCall(data: seq<Byte>) | UnwrapCall | CloseCall

  /** Why the `try` block of `handle_client` ends in its `except` clause. */
  datatype Failure =
    | MissingKey(key: string)       // KeyError on the configuration
    | WrongType(key: string)        // TypeError from a value of the wrong type
    | SizeOverflow                  // OverflowError: the size does not fit a C `ssize_t`
    | NegativeBufferSize            // ValueError from `recv`
    | ReceiveFailed                 // OSError from `recv`
    | SendFailed                    // OSError from `sendall`
    | SearchFailed(error: SearchError)

  /** The largest C `ssize_t`, the type `recv` converts its size to. */
  const MaxSsize: int := 0x7FFF_FFFF_FFFF_FFFF

  /** What `recv(bufsize)` returns: at most `bufsize` of the waiting bytes.
      The size is converted to `ssize_t` first, then checked for sign. */
  function Received(peer: Peer, bufsize: int): (r: Result<seq<Byte>, Failure>)
    ensures r.Ok? <==> 0 <= bufsize <= MaxSsize && !peer.recvFails
    ensures bufsize < -MaxSsize - 1 || MaxSsize < bufsize ==> r == Err(SizeOverflow)
    ensures -MaxSsize - 1 <= bufsize < 0 ==> r == Err(NegativeBufferSize)
    ensures r.Ok? ==> |r.value| <= bufsize && r.value <= peer.incoming
    ensures r.Ok? ==> (r.value == [] <==> bufsize == 0 || peer.incoming == [])
  {
    if bufsize < -MaxSsize - 1 || MaxSsize < bufsize then Err(SizeOverflow)
    else if bufsize < 0 then Err(NegativeBufferSize)
    else if peer.recvFails then Err(ReceiveFailed)
    else Ok(peer.incoming[..if bufsize < |peer.incoming| then bufsize else |peer.incoming|])
  }

  class Connection {
    const peer: Peer
    var trace: seq<Event>

    constructor (peer: Peer)
      ensures this.peer == peer && trace == []
    {
      this.peer := peer;
      trace := [];
    }

    /** `conn.recv(bufsize)`. */
    method Recv(bufsize: int) returns (r: Result<seq<Byte>, Failure>)
      modifies this
      ensures trace == old(trace) + [RecvCall(bufsize)]
      ensures r == Received(peer, bufsize)
    {
      trace := trace + [RecvCall(bufsize)];
      r := Received(peer, bufsize);
    }

    /** `conn.sendall(data)`; false when it raises. */
    method SendAll(data: seq<Byte>) returns (ok: bool)
      modifies this
      ensures trace == old(trace) + [SendAllCall(data)]
      ensures ok == !peer.sendFails
    {
      trace := trace + [SendAllCall(data)];
      ok := !peer.sendFails;
    }

    /** `conn.unwrap()`, which only a TLS socket has; false when it raises. */
    method Unwrap() returns (ok: bool)
      requires peer.tls
      modifies this
      ensures trace == old(trace) + [UnwrapCall]
      ensures ok == !peer.unwrapFails
    {
      trace := trace + [UnwrapCall];
      ok := !peer.unwrapFails;
    }

    /** `conn.close()`; false when it raises. */
    method Close() returns (ok: bool)
      modifies this
      ensures trace == old(trace) + [CloseCall]
      ensures ok == !peer.closeFails
    {
      trace := trace + [CloseCall];
      ok := !peer.closeFails;
    }
  }

  datatype Level = Debug | Info | Error

  /** The logger, reduced to the level of each record it is given. */
  class Logger {
    var records: seq<Level>

    constructor ()
      ensures records == []
    {
      records := [];
    }

    method Log(level: Level)
      modifies this
      ensures records == old(records) + [level]
    {
      records := records + [level];
    }
  }

  // ---------------------------------------------------------------------
  // What one request does

  /** The answer to a query and the records logged while finding it. */
  datatype Answer = Answer(found: Result<bool, Failure>, logs: seq<Level>)

  /** Step 5 of `handle_client`: `search_linecache` in re-read mode; in
      static mode membership in the given set of lines, or, when none is
      given, in the set `load_lines` builds for this call only. */
  function Dispatch(cfg: Config, cache: Option<set<string>>, fs: FileSystem, query: string): (a: Answer)
    ensures RereadFlag(cfg) || cache.Some? ==> a.logs == []
    ensures !RereadFlag(cfg) && cache.None? ==> a.logs == (if a.found.Ok? then [Info] else [Error])
    ensures a.found.Err? ==> a.found.error.MissingKey? || a.found.error.WrongType? || a.found.error.SearchFailed?
  {
    if RereadFlag(cfg) then
      match SearchPath(cfg)
      case Err(f) => Answer(Err(f), [])
      case Ok(path) =>
        match Linecache(fs, path, query)
        case Err(e) => Answer(Err(SearchFailed(e)), [])
        case Ok(found) => Answer(Ok(found), [])
    else if cache.Some? then Answer(Ok(SearchCached(cache.value, query)), [])
    else
      match SearchPath(cfg)
      case Err(f) => Answer(Err(f), [Error])
      case Ok(path) =>
        match LoadLines(fs, path)
        case Err(e) => Answer(Err(SearchFailed(e)), [Error])
        case Ok(lines) => Answer(Ok(SearchCached(lines, query)), [Info])
  }

  /** The text of the reply for an answer. */
  function ReplyText(found: bool): string
  {
    if found then "STRING EXISTS\n" else "STRING NOT FOUND\n"
  }

  /** The reply for an answer, the bytes literal the handler sends. */
  function Response(found: bool): seq<Byte>
  {
    if found then [83, 84, 82, 73, 78, 71, 32, 69, 88, 73, 83, 84, 83, 10]
    else [83, 84, 82, 73, 78, 71, 32, 78, 79, 84, 32, 70, 79, 85, 78, 68, 10]
  }

  /** The effect of (part of) the `try` block: calls made on the connection,
      records logged, and the failure that ended it, if any. */
  datatype Outcome = Outcome(events: seq<Event>, logs: seq<Level>, failure: Option<Failure>)

  /** The `try` block of `handle_client` once the query is decoded: log it,
      look it up, reply once, then log at debug level. */
  function Reply(peer: Peer, a: Answer): Outcome
  {
    var s := Send(peer, a.found);
    Outcome(s.events, [Debug, Info] + a.logs + s.logs, s.failure)
  }

  /** The part of the `try` block after the lookup: nothing when the lookup
      raised, otherwise `sendall` of the reply and, when that went through,
      the final debug log. */
  function Send(peer: Peer, found: Result<bool, Failure>): Outcome
  {
    match found
    case Err(f) => Outcome([], [], Some(f))
    case Ok(v) =>
      if peer.sendFails then Outcome([SendAllCall(Response(v))], [], Some(SendFailed))
      else Outcome([SendAllCall(Response(v))], [Debug], None)
  }

  /** The `try` block of `handle_client` from `recv` on: stop on an empty
      payload, otherwise decode the query and reply. */
  function AfterRecv(peer: Peer, n: int, cfg: Config, cache: Option<set<string>>, fs: FileSystem): Outcome
  {
    match Received(peer, n)
    case Err(f) => Outcome([RecvCall(n)], [], Some(f))
    case Ok(raw) =>
      if raw == [] then Outcome([RecvCall(n)], [], None)
      else
        var o := Reply(peer, Dispatch(cfg, cache, fs, DecodeQuery(raw)));
        Outcome([RecvCall(n)] + o.events, o.logs, o.failure)
  }

  /** The `try` block of `handle_client`: read the buffer size, receive,
      stop on empty data, decode, look the query up, reply once, log. */
  function Attempt(peer: Peer, cfg: Config, cache: Option<set<string>>, fs: FileSystem): Outcome
  {
    match PayloadLimit(cfg)
    case Err(f) => Outcome([], [], Some(f))
    case Ok(n) => AfterRecv(peer, n, cfg, cache, fs)
  }

  /** The request reaches the lookup: the buffer size is valid, `recv`
      succeeds and returns data. */
  predicate Reaches(peer: Peer, cfg: Config)
  {
    PayloadLimit(cfg).Ok? && Received(peer, PayloadLimit(cfg).value).Ok?
    && Received(peer, PayloadLimit(cfg).value).value != []
  }

  /** The query the request looks up, once it reaches the lookup. */
  function QueryOf(peer: Peer, cfg: Config): string
    requires Reaches(peer, cfg)
  {
    DecodeQuery(Received(peer, PayloadLimit(cfg).value).value)
  }

  /** The answer the request's lookup gives, once it reaches the lookup. */
  function AnswerOf(peer: Peer, cfg: Config, cache: Option<set<string>>, fs: FileSystem): Answer
    requires Reaches(peer, cfg)
  {
    Dispatch(cfg, cache, fs, QueryOf(peer, cfg))
  }

  /** The two ways the `try` block goes: it reaches the lookup and replies,
      or it stops at the buffer size or at `recv` having logged nothing and
      made at most the `recv` call. */
  lemma AttemptCases(peer: Peer, cfg: Config, cache: Option<set<string>>, fs: FileSystem)
    ensures var o := Attempt(peer, cfg, cache, fs);
            if Reaches(peer, cfg) then
              var r := Reply(peer, AnswerOf(peer, cfg, cache, fs));
              o == Outcome([RecvCall(PayloadLimit(cfg).value)] + r.events, r.logs, r.failure)
            else
              o.logs == [] && o.events == (if PayloadLimit(cfg).Ok? then [RecvCall(PayloadLimit(cfg).value)] else []) &&
              (o.failure.None? <==> PayloadLimit(cfg).Ok? && Received(peer, PayloadLimit(cfg).value).Ok?)
  {
    if PayloadLimit(cfg).Ok? {
      assert Attempt(peer, cfg, cache, fs) == AfterRecv(peer, PayloadLimit(cfg).value, cfg, cache, fs);
    }
  }

  /** Replying sends at most once, and only when the lookup answered; it
      fails exactly when the lookup or `sendall` does, and the records are
      the two request records, the lookup's, and a debug record on success. */
  lemma ReplyShape(peer: Peer, a: Answer)
    ensures var r := Reply(peer, a);
            r.events == (if a.found.Ok? then [SendAllCall(Response(a.found.value))] else []) &&
            (a.found.Err? ==> r.failure == Some(a.found.error)) &&
            (a.found.Ok? ==> (r.failure.None? <==> !peer.sendFails) && (r.failure.Some? ==> r.failure == Some(SendFailed))) &&
            r.logs == [Debug, Info] + a.logs + (if r.failure.None? then [Debug] else []) &&
            Count(Error, r.logs) == Count(Error, a.logs)
  {
    var r := Reply(peer, a);
    var tail: seq<Level> := if r.failure.None? then [Debug] else [];
    CountAppend(Error, [Debug, Info], a.logs);
    CountAppend(Error, [Debug, Info] + a.logs, tail);
    CountAbsent(Error, [Debug, Info]);
    CountAbsent(Error, tail);
  }

  /** The lookup logs an error exactly when it is a lazy load that failed. */
  lemma DispatchErrors(cfg: Config, cache: Option<set<string>>, fs: FileSystem, query: string)
    ensures var a := Dispatch(cfg, cache, fs, query);
            Count(Error, a.logs) == if !RereadFlag(cfg) && cache.None? && a.found.Err? then 1 else 0
  {
    var a := Dispatch(cfg, cache, fs, query);
    CountSingleton(Error, Error);
    CountSingleton(Error, Info);
    CountAbsent(Error, []);
  }

  /** The `try` block never unwraps or closes, sends at most once and only
      after a non-empty receive and a successful lookup, sends nothing when
      it fails before `sendall`, and the only error it logs itself is that
      of a failed lazy load. */
  lemma AttemptShape(peer: Peer, cfg: Config, cache: Option<set<string>>, fs: FileSystem)
    ensures var o := Attempt(peer, cfg, cache, fs);
            UnwrapCall !in o.events && CloseCall !in o.events &&
            |o.events| <= 2 &&
            (|o.events| == 2 <==> Reaches(peer, cfg) && AnswerOf(peer, cfg, cache, fs).found.Ok?) &&
            (o.failure.Some? && o.failure != Some(SendFailed) ==> forall e :: e in o.events ==> !e.SendAllCall?) &&
            Count(Error, o.logs) == (if Reaches(peer, cfg) && !RereadFlag(cfg) && cache.None?
                                        && AnswerOf(peer, cfg, cache, fs).found.Err? then 1 else 0)
  {
    AttemptCases(peer, cfg, cache, fs);
    if Reaches(peer, cfg) {
      var a := AnswerOf(peer, cfg, cache, fs);
      ReplyShape(peer, a);
      DispatchErrors(cfg, cache, fs, QueryOf(peer, cfg));
    } else {
      CountAbsent(Error, []);
    }
  }

  /** The connection's cleanup in the `finally` clause: `unwrap` on a TLS
      socket, then `close`. */
  function Cleanup(peer: Peer): seq<Event>
  {
    (if peer.tls then [UnwrapCall] else []) + [CloseCall]
  }

  /** Everything one call of `handle_client` does to the connection and the
      logger. */
  datatype Run = Run(events: seq<Event>, logs: seq<Level>)

  /** The `try` block, then one error record if it failed, then the cleanup,
      whose failures are logged at debug level (`unwrap`) or swallowed
      (`close`). */
  function Expected(peer: Peer, cfg: Config, cache: Option<set<string>>, fs: FileSystem): Run
  {
    var a := Attempt(peer, cfg, cache, fs);
    Run(a.events + Cleanup(peer),
        a.logs + (if a.failure.Some? then [Error] else [])
        + (if peer.tls && peer.unwrapFails then [Debug] else []))
  }

  // ---------------------------------------------------------------------
  // The handler

  /** Step 5 of `handle_client`. The `lines_cache` argument is a local
      variable of the handler: loading it lazily does not change what the
      caller holds. */
  method FindQuery(cfg: Config, linesCache: Option<set<string>>, fs: FileSystem, query: string, log: Logger)
    returns (found: Result<bool, Failure>)
    modifies log
    ensures found == Dispatch(cfg, linesCache, fs, query).found
    ensures log.records == old(log.records) + Dispatch(cfg, linesCache, fs, query).logs
  {
    var rereadFlag := RereadFlag(cfg);
    if rereadFlag {
      var path := SearchPath(cfg);
      if path.Err? {
        return Err(path.error);
      }
      var r;
      ghost var calls;
      r, calls := SearchLinecache(fs, path.value, query);
      if r.Err? {
        return Err(SearchFailed(r.error));
      }
      found := Ok(r.value);
    } else {
      var lines := linesCache;
      if lines.None? {
        var path := SearchPath(cfg);
        if path.Err? {
          log.Log(Error);
          return Err(path.error);
        }
        var loaded := LoadLines(fs, path.value);
        if loaded.Err? {
          log.Log(Error);
          return Err(SearchFailed(loaded.error));
        }
        lines := Some(loaded.value);
        log.Log(Info);
      }
      found := Ok(SearchCached(lines.value, query));
    }
  }

  /** Steps 3 to 9 of `handle_client`, once the query is decoded. */
  method Respond(conn: Connection, cfg: Config, log: Logger, linesCache: Option<set<string>>, fs: FileSystem, query: string)
    returns (failure: Option<Failure>)
    modifies conn, log
    ensures failure == Reply(conn.peer, Dispatch(cfg, linesCache, fs, query)).failure
    ensures conn.trace == old(conn.trace) + Reply(conn.peer, Dispatch(cfg, linesCache, fs, query)).events
    ensures log.records == old(log.records) + Reply(conn.peer, Dispatch(cfg, linesCache, fs, query)).logs
  {
    log.Log(Debug);
    log.Log(Info);
    var found := FindQuery(cfg, linesCache, fs, query, log);
    failure := SendReply(conn, log, found);
  }

  /** Sends the reply for the outcome of the lookup. */
  method SendReply(conn: Connection, log: Logger, found: Result<bool, Failure>) returns (failure: Option<Failure>)
    modifies conn, log
    ensures failure == Send(conn.peer, found).failure
    ensures conn.trace == old(conn.trace) + Send(conn.peer, found).events
    ensures log.records == old(log.records) + Send(conn.peer, found).logs
  {
    if found.Err? {
      return Some(found.error);
    }
    var sent := conn.SendAll(Response(found.value));
    if !sent {
      return Some(SendFailed);
    }
    log.Log(Debug);
    failure := None;
  }

  /** The `try` block of `handle_client`. */
  method Serve(conn: Connection, cfg: Config, log: Logger, linesCache: Option<set<string>>, fs: FileSystem)
    returns (failure: Option<Failure>)
    modifies conn, log
    ensures failure == Attempt(conn.peer, cfg, linesCache, fs).failure
    ensures conn.trace == old(conn.trace) + Attempt(conn.peer, cfg, linesCache, fs).events
    ensures log.records == old(log.records) + Attempt(conn.peer, cfg, linesCache, fs).logs
  {
    var limit := PayloadLimit(cfg);
    if limit.Err? {
      return Some(limit.error);
    }
    var n := limit.value;
    assert Attempt(conn.peer, cfg, linesCache, fs) == AfterRecv(conn.peer, n, cfg, linesCache, fs);
    var raw := conn.Recv(n);
    if raw.Err? {
      return Some(raw.error);
    }
    if raw.value == [] {
      return None;
    }
    failure := Respond(conn, cfg, log, linesCache, fs, DecodeQuery(raw.value));
  }

  /** `handle_client(conn, addr, cfg, logger, lines_cache)`: serve one
      request, log an error if that failed, then unwrap (TLS only) and close
      the connection, swallowing failures of both. */
  method HandleClient(conn: Connection, cfg: Config, log: Logger, linesCache: Option<set<string>>, fs: FileSystem)
    modifies conn, log
    ensures conn.trace == old(conn.trace) + Expected(conn.peer, cfg, linesCache, fs).events
    ensures log.records == old(log.records) + Expected(conn.peer, cfg, linesCache, fs).logs
  {
    var failure := Serve(conn, cfg, log, linesCache, fs);
    Finish(conn, log, failure);
  }

  /** The `except` and `finally` clauses of `handle_client`. */
  method Finish(conn: Connection, log: Logger, failure: Option<Failure>)
    modifies conn, log
    ensures conn.trace == old(conn.trace) + Cleanup(conn.peer)
    ensures log.records == old(log.records) + (if failure.Some? then [Error] else [])
                           + (if conn.peer.tls && conn.peer.unwrapFails then [Debug] else [])
  {
    if failure.Some? {
      log.Log(Error);
    }
    if conn.peer.tls {
      var unwrapped := conn.Unwrap();
      if !unwrapped {
        log.Log(Debug);
      }
    }
    var closed := conn.Close();
  }

  // ---------------------------------------------------------------------
  // Properties of one request

  /** Calls that neither unwrap nor close, followed by the cleanup, close
      exactly once and last, and unwrap once just before that on TLS only. */
  lemma CleanupLast(events: seq<Event>, peer: Peer)
    requires UnwrapCall !in events && CloseCall !in events
    ensures var t := events + Cleanup(peer);
            |t| >= 1 && t[|t| - 1] == CloseCall && Count(CloseCall, t) == 1 &&
            Count(UnwrapCall, t) == (if peer.tls then 1 else 0) &&
            (peer.tls ==> |t| >= 2 && t[|t| - 2] == UnwrapCall)
  {
    var u: seq<Event> := if peer.tls then [UnwrapCall] else [];
    CountAbsent(CloseCall, events + u);
    CountAppend(CloseCall, events + u, [CloseCall]);
    CountAppend(UnwrapCall, events, u);
    CountAppend(UnwrapCall, events + u, [CloseCall]);
    CountAbsent(UnwrapCall, events);
    CountSingleton(CloseCall, CloseCall);
    CountSingleton(UnwrapCall, CloseCall);
    CountSingleton(UnwrapCall, UnwrapCall);
    CountAbsent(UnwrapCall, []);
    assert events + Cleanup(peer) == events + u + [CloseCall];
  }

  /** `close` is called exactly once and last, whatever happened before;
      `unwrap` is called once, just before it, on a TLS connection and never
      on a plain one. */
  lemma CloseExactlyOnceLast(peer: Peer, cfg: Config, cache: Option<set<string>>, fs: FileSystem)
    ensures var t := Expected(peer, cfg, cache, fs).events;
            |t| >= 1 && t[|t| - 1] == CloseCall && Count(CloseCall, t) == 1 &&
            Count(UnwrapCall, t) == (if peer.tls then 1 else 0) &&
            (peer.tls ==> |t| >= 2 && t[|t| - 2] == UnwrapCall)
  {
    AttemptShape(peer, cfg, cache, fs);
    CleanupLast(Attempt(peer, cfg, cache, fs).events, peer);
  }

  /** An empty receive (no data, or a buffer size of 0) ends the request:
      nothing is sent, nothing is logged at error level, and the connection
      is closed. */
  lemma EmptyReceive(peer: Peer, cfg: Config, cache: Option<set<string>>, fs: FileSystem)
    requires PayloadLimit(cfg).Ok? && 0 <= PayloadLimit(cfg).value <= MaxSsize && !peer.recvFails
    requires PayloadLimit(cfg).value == 0 || peer.incoming == []
    ensures Expected(peer, cfg, cache, fs).events == [RecvCall(PayloadLimit(cfg).value)] + Cleanup(peer)
    ensures Error !in Expected(peer, cfg, cache, fs).logs
  {
    AttemptCases(peer, cfg, cache, fs);
  }

  /** On success the reply is sent exactly once, it is `STRING EXISTS` or
      `STRING NOT FOUND` according to the answer, and nothing is logged at
      error level. */
  lemma ReplySentOnce(peer: Peer, cfg: Config, cache: Option<set<string>>, fs: FileSystem)
    requires Reaches(peer, cfg) && Attempt(peer, cfg, cache, fs).failure.None?
    ensures var found := AnswerOf(peer, cfg, cache, fs).found;
            var t := Expected(peer, cfg, cache, fs).events;
            found.Ok? &&
            Count(SendAllCall(Response(found.value)), t) == 1 &&
            (forall e :: e in t && e.SendAllCall? ==> e == SendAllCall(Response(found.value))) &&
            Count(Error, Expected(peer, cfg, cache, fs).logs) == 0
  {
    var a := Attempt(peer, cfg, cache, fs);
    var d := AnswerOf(peer, cfg, cache, fs);
    AttemptCases(peer, cfg, cache, fs);
    ReplyShape(peer, d);
    var s := SendAllCall(Response(d.found.value));
    assert a.events == [RecvCall(PayloadLimit(cfg).value), s];
    SentOnceIn(PayloadLimit(cfg).value, s, peer);
    CountAbsent(Error, Expected(peer, cfg, cache, fs).logs);
  }

  /** A connection that sees one `recv`, one `sendall` and the cleanup holds
      that `sendall` once and no other. */
  lemma SentOnceIn(n: int, s: Event, peer: Peer)
    requires s.SendAllCall?
    ensures var t := [RecvCall(n), s] + Cleanup(peer);
            Count(s, t) == 1 && (forall e :: e in t && e.SendAllCall? ==> e == s)
  {
    var c := Cleanup(peer);
    var t := [RecvCall(n), s];
    CountAppend(s, t, c);
    CountAbsent(s, c);
    assert Count(s, t) == 1 by {
      assert t[1..] == [s] && t[1..][1..] == [];
    }
  }

  /** A failure before `sendall` means nothing is sent, and a failure of any
      kind is logged at error level once; twice when the lazy load of the
      lines failed, because that load logs its own error before re-raising. */
  lemma ErrorLoggedOnFailure(peer: Peer, cfg: Config, cache: Option<set<string>>, fs: FileSystem)
    requires Attempt(peer, cfg, cache, fs).failure.Some?
    ensures Attempt(peer, cfg, cache, fs).failure != Some(SendFailed) ==>
              forall e :: e in Expected(peer, cfg, cache, fs).events ==> !e.SendAllCall?
    ensures Count(Error, Expected(peer, cfg, cache, fs).logs)
              == if Reaches(peer, cfg) && !RereadFlag(cfg) && cache.None?
                    && AnswerOf(peer, cfg, cache, fs).found.Err? then 2 else 1
  {
    var a := Attempt(peer, cfg, cache, fs);
    var tail: seq<Level> := if peer.tls && peer.unwrapFails then [Debug] else [];
    AttemptShape(peer, cfg, cache, fs);
    assert Expected(peer, cfg, cache, fs).logs == a.logs + [Error] + tail;
    CountAppend(Error, a.logs + [Error], tail);
    CountAppend(Error, a.logs, [Error]);
    CountAbsent(Error, tail);
    CountSingleton(Error, Error);
  }

  /** Re-read mode and static mode with a lazy load give the same answer,
      whether the query is one of the file's lines, for a readable file
      without carriage returns and a query not ending in CR or LF. */
  lemma ModesAgree(cfg: Config, fs: FileSystem, query: string)
    requires SearchPath(cfg).Ok? && !ReservedName(SearchPath(cfg).value)
    requires Lookup(fs, SearchPath(cfg).value).Regular? && Lookup(fs, SearchPath(cfg).value).validUtf8
    requires !StartsWithBom(Lookup(fs, SearchPath(cfg).value).text)
    requires DeclaredEncoding(Lookup(fs, SearchPath(cfg).value).text).None?
    requires '\r' !in Lookup(fs, SearchPath(cfg).value).text
    requires query == [] || query[|query| - 1] !in CRLF
    ensures var text := Lookup(fs, SearchPath(cfg).value).text;
            Dispatch(cfg["REREAD_ON_QUERY" := Bool(true)], None, fs, query).found == Ok(query in Lines(text)) &&
            Dispatch(cfg["REREAD_ON_QUERY" := Bool(false)], None, fs, query).found == Ok(query in Lines(text))
  {
    var path := SearchPath(cfg).value;
    assert SearchPath(cfg["REREAD_ON_QUERY" := Bool(true)]) == Ok(path);
    assert SearchPath(cfg["REREAD_ON_QUERY" := Bool(false)]) == Ok(path);
    LinecacheAgreesWithCached(fs, path, query);
  }

  /** Without a preloaded set, static mode reads the file at every request:
      the answer follows the file's current lines. With a preloaded set the
      file is not consulted at all. */
  lemma StaticModeSources(cfg: Config, lines: set<string>, fs1: FileSystem, fs2: FileSystem, query: string)
    requires !RereadFlag(cfg)
    ensures Dispatch(cfg, Some(lines), fs1, query) == Dispatch(cfg, Some(lines), fs2, query)
    ensures SearchPath(cfg).Ok? && Readable(fs1, SearchPath(cfg).value) ==>
              Dispatch(cfg, None, fs1, query).found
                == Ok(query in Lines(Lookup(fs1, SearchPath(cfg).value).text))
  {
  }

  /** In static mode with a preloaded set, a request over a plain working
      connection that reaches the lookup is answered from the set in one
      `sendall`, then the connection is closed; nothing is logged at error
      level. */
  lemma StaticPreloadedRequest(peer: Peer, cfg: Config, lines: set<string>, fs: FileSystem)
    requires !RereadFlag(cfg) && Reaches(peer, cfg) && !peer.tls && !peer.sendFails
    ensures Expected(peer, cfg, Some(lines), fs)
              == Run([RecvCall(PayloadLimit(cfg).value), SendAllCall(Response(QueryOf(peer, cfg) in lines)), CloseCall],
                     [Debug, Info, Debug])
  {
    AttemptCases(peer, cfg, Some(lines), fs);
    assert AnswerOf(peer, cfg, Some(lines), fs) == Answer(Ok(QueryOf(peer, cfg) in lines), []);
  }

  /** The string `"False"` a configuration file gives selects static mode. */
  lemma StaticWhenFalseString(cfg: Config)
    requires "REREAD_ON_QUERY" in cfg && cfg["REREAD_ON_QUERY"] == Str("False")
    ensures !RereadFlag(cfg)
  {
    assert Lower("False") == "false";
    assert "false" !in TrueWords by {
      assert "false" != "true" && "false" != "yes" && "false" != "on" && "false" != "1";
    }
  }

  /** A client that frames a query `q` over a plain connection to a server
      in static mode with the lines `lines` preloaded, the situation of the
      handler tests, gets `STRING EXISTS` exactly when `q` is one of them,
      in one `sendall`, followed by `close`. */
  lemma FramedQueryScenario(q: string, lines: set<string>, cfg: Config)
    requires q == [] || q[|q| - 1] !in {'\0', '\r', '\n'}
    requires "MAX_PAYLOAD_SIZE" in cfg && cfg["MAX_PAYLOAD_SIZE"] == Int(1024)
    requires "REREAD_ON_QUERY" in cfg && cfg["REREAD_ON_QUERY"] == Str("False")
    requires |Frame(q)| <= 1024
    ensures var peer := Peer(false, Frame(q), false, false, false, false);
            var run := Expected(peer, cfg, Some(lines), map[]);
            run.events == [RecvCall(1024), SendAllCall(Response(q in lines)), CloseCall] &&
            run.logs == [Debug, Info, Debug]
  {
    var peer := Peer(false, Frame(q), false, false, false, false);
    assert PayloadLimit(cfg) == Ok(1024);
    assert Frame(q)[..|Frame(q)|] == Frame(q);
    assert Received(peer, 1024) == Ok(Frame(q));
    ClientFramingRoundTrip(q);
    assert QueryOf(peer, cfg) == q;
    StaticWhenFalseString(cfg);
    StaticPreloadedRequest(peer, cfg, lines, map[]);
  }

  /** Each reply is the UTF-8 encoding of its text, decodes back to it and
      ends in a line feed, and the two replies differ. */
  lemma ResponseOf(found: bool)
    ensures Response(found) == Utf8.Encode(ReplyText(found))
    ensures Utf8.Decode(Response(found)) == ReplyText(found)
    ensures Response(found) != [] && Response(found)[|Response(found)| - 1] == 10
    ensures Response(found) != Response(!found)
  {
    ReplyAscii(found);
    Utf8.AsciiRoundTrip(ReplyText(found), Response(found));
  }

  /** The reply bytes are the ASCII code points of the reply text. */
  lemma ReplyAscii(found: bool)
    ensures var t, b := ReplyText(found), Response(found);
            |t| == |b| && forall i :: 0 <= i < |t| ==> t[i] as int < 0x80 && b[i] == t[i] as int
  {
  }

  // ---------------------------------------------------------------------
  // Startup: the required configuration keys

  const RequiredKeys: seq<string> := [
    "HOST", "PORT", "LINUXPATH", "REREAD_ON_QUERY", "MAX_PAYLOAD_SIZE", "SSL_ON",
    "SSL_MODE", "SSL_VERIFY_CLIENT", "CERTFILE", "KEYFILE", "LOG_LEVEL", "CAFILE", "LOG_FILE"]

  /** `[k for k in keys if k not in cfg]`. */
  function Absent(keys: seq<string>, cfg: Config): (m: seq<string>)
    ensures |m| <= |keys|
    ensures forall k :: k in m <==> k in keys && k !in cfg
  {
    if keys == [] then [] else (if keys[0] in cfg then [] else [keys[0]]) + Absent(keys[1..], cfg)
  }

  function MissingKeys(cfg: Config): seq<string>
  {
    Absent(RequiredKeys, cfg)
  }

  lemma MissingKeysEmpty(cfg: Config)
    ensures MissingKeys(cfg) == [] <==> forall k :: k in RequiredKeys ==> k in cfg
  {
    var m := MissingKeys(cfg);
    if m != [] {
      assert m[0] in m;
    }
  }

  /** `", ".join(ks)`. */
  function JoinComma(ks: seq<string>): string
  {
    if ks == [] then "" else if |ks| == 1 then ks[0] else ks[0] + ", " + JoinComma(ks[1..])
  }

  /** Each joined element appears in the joined text. */
  lemma {:induction false} JoinCommaContains(ks: seq<string>, i: nat) returns (at: nat)
    requires i < |ks|
    ensures OccursAt(ks[i], JoinComma(ks), at)
  {
    if |ks| == 1 {
      at := 0;
    } else if i == 0 {
      at := 0;
      assert JoinComma(ks) == ks[0] + (", " + JoinComma(ks[1..]));
    } else {
      var head := ks[0] + ", ";
      assert JoinComma(ks) == head + JoinComma(ks[1..]);
      assert ks[1..][i - 1] == ks[i];
      var rest := JoinCommaContains(ks[1..], i - 1);
      OccursShift(ks[i], JoinComma(ks[1..]), rest, head);
      at := |head| + rest;
    }
  }

  function MissingKeysMessage(cfg: Config): string
  {
    "Missing required config keys: " + JoinComma(MissingKeys(cfg))
  }

  /** What escapes the startup check instead of the intended error. */
  datatype StartupFailure =
    | Raised(e: Exceptions.AppException)
    | ConstructorArityError(cls: Exceptions.ExcClass)  // TypeError: a required argument is missing

  /** The check as written: `ServerError` takes an operation and a reason,
      but is called with the message alone, so Python raises `TypeError`
      before any `ServerError` exists. */
  function StartupCheckAsWritten(cfg: Config): (r: Result<(), StartupFailure>)
    ensures r.Ok? <==> forall k :: k in RequiredKeys ==> k in cfg
  {
    MissingKeysEmpty(cfg);
    if MissingKeys(cfg) != [] then Err(ConstructorArityError(Exceptions.Server)) else Ok(())
  }

  /** The check as intended: a `ServerError` whose reason names the missing
      keys. */
  function StartupCheck(cfg: Config): (r: Result<(), Exceptions.AppException>)
    ensures r.Ok? <==> forall k :: k in RequiredKeys ==> k in cfg
  {
    MissingKeysEmpty(cfg);
    if MissingKeys(cfg) != [] then
      Err(Exceptions.ServerError(Str("startup"), Str(MissingKeysMessage(cfg)), NoneValue))
    else Ok(())
  }

  /** As written, a configuration without a required key stops the server
      with a `TypeError`: no application exception is raised, so nothing
      reports which keys are missing. The empty configuration shows it. */
  lemma StartupCheckAsWrittenRaisesTypeError(cfg: Config)
    requires exists k :: k in RequiredKeys && k !in cfg
    ensures StartupCheckAsWritten(cfg) == Err(ConstructorArityError(Exceptions.Server))
    ensures !StartupCheckAsWritten(cfg).error.Raised?
    ensures StartupCheck(cfg).Err?
  {
  }

  /** The message of the intended error names every missing key. */
  lemma MissingKeysMessageNames(cfg: Config, k: string) returns (at: nat)
    requires k in RequiredKeys && k !in cfg
    ensures OccursAt(k, MissingKeysMessage(cfg), at)
  {
    var inner := AbsentNamed(RequiredKeys, cfg, k);
    OccursShift(k, JoinComma(MissingKeys(cfg)), inner, "Missing required config keys: ");
    at := |"Missing required config keys: "| + inner;
  }

  /** The joined list of absent keys names each of them. */
  lemma AbsentNamed(keys: seq<string>, cfg: Config, k: string) returns (at: nat)
    requires k in keys && k !in cfg
    ensures OccursAt(k, JoinComma(Absent(keys, cfg)), at)
  {
    var m := Absent(keys, cfg);
    assert k in m;
    var i :| 0 <= i < |m| && m[i] == k;
    at := JoinCommaContains(m, i);
  }

  /** As intended, startup refuses exactly the configurations lacking a
      required key, with a `ServerError` (an `AppBaseException`) whose reason
      names every missing key. */
  lemma StartupCheckNamesMissingKeys(cfg: Config, k: string)
    requires k in RequiredKeys && k !in cfg
    ensures StartupCheck(cfg).Err?
    ensures var e := StartupCheck(cfg).error;
            e.cls == Exceptions.Server && Exceptions.IsSubclass(e.cls, Exceptions.Base) &&
            "reason" in e.attrs && e.attrs["reason"] == Str(MissingKeysMessage(cfg)) &&
            exists at :: OccursAt(k, MissingKeysMessage(cfg), at)
  {
    var at := MissingKeysMessageNames(cfg, k);
    Exceptions.Hierarchy(Exceptions.Server);
  }
}
