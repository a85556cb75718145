/**
 The session of siem/rbac/collect_server_inventory.py: one authentication, an allowlist
 of GET routes and a request budget. The server may answer anything.
 */
module ServerClient {
  import opened Common
  import opened ServerBody

  const HOSTNAME := "localhost"
  const WRONG_HOSTNAME := "alertmind-server-hostname-check.invalid"
  const FINGERPRINT := "5037899c0818f8332b09fc144bd7bd72" + "a3b2ca033f46dad56c67c284d611ce87"
  const HOSTNAME_MISMATCH := 62
  const AUTH := "/security/user/authenticate"
  const MAX_ITEMS := 1000
  const PAGE_SIZE := 100
  const MAX_REQUESTS := 100
  const COLLECTIONS: seq<string> := ["users", "roles", "policies", "rules"]
  const SINGLE_READS: seq<string> := ["/", "/security/config", "/security/users/me", "/security/users/me/policies"]

  // ----- Routes -----

  function PageStart(kind: string): string { "/security/" + kind + "?limit=100&offset=" }

  const PAGE_END: string := "&sort=id"

  /** The route of one page of a collection. */
  function PagePath(kind: string, offset: nat): string { PageStart(kind) + Decimal(offset) + PAGE_END }

  /** The digits between a fixed start and a fixed end. */
  function DigitsBetween(path: string, start: string, end: string): Option<string> {
    if start <= path && |start| + |end| < |path| && path[|path| - |end|..] == end
       && AllDigits(path[|start|..|path| - |end|])
    then Some(path[|start|..|path| - |end|])
    else None
  }

  predicate PagedRoute(path: string, kind: string) {
    var digits := DigitsBetween(path, PageStart(kind), PAGE_END);
    digits.Some? && AllDigits(digits.value) && ParseDecimal(digits.value) < MAX_ITEMS
  }

  predicate Allowed(path: string) {
    path in SINGLE_READS || exists k :: 0 <= k < |COLLECTIONS| && PagedRoute(path, COLLECTIONS[k])
  }

  lemma DigitsFound(start: string, digits: string, end: string)
    requires digits != "" && AllDigits(digits)
    ensures DigitsBetween(start + digits + end, start, end) == Some(digits)
  {
    var path := start + digits + end;
    assert path[|path| - |end|..] == end && path[|start|..|path| - |end|] == digits;
  }

  /** The route of a page is spelled like this; the offset may have leading zeros. */
  ghost predicate SpellsPage(path: string, kind: string, digits: string) {
    && path == "/security/" + kind + "?limit=100&offset=" + digits + "&sort=id"
    && digits != "" && AllDigits(digits) && ParseDecimal(digits) < 1000
  }

  ghost predicate PageOf(path: string, kind: string) {
    exists digits :: SpellsPage(path, kind, digits)
  }

  lemma PagedRouteExactly(path: string, kind: string)
    ensures PagedRoute(path, kind) <==> PageOf(path, kind)
  {
    if PagedRoute(path, kind) {
      var digits := DigitsBetween(path, PageStart(kind), PAGE_END).value;
      assert path == PageStart(kind) + digits + PAGE_END;
      assert SpellsPage(path, kind, digits);
    }
    if digits :| SpellsPage(path, kind, digits) {
      DigitsFound(PageStart(kind), digits, PAGE_END);
    }
  }

  /** What may be asked for: four single reads, and pages of the four collections below the bound. */
  lemma AllowedExactly(path: string)
    ensures Allowed(path) <==>
            || path in {"/", "/security/config", "/security/users/me", "/security/users/me/policies"}
            || PageOf(path, "users") || PageOf(path, "roles") || PageOf(path, "policies") || PageOf(path, "rules")
  {
    assert COLLECTIONS[0] == "users" && COLLECTIONS[1] == "roles" && COLLECTIONS[2] == "policies" && COLLECTIONS[3] == "rules";
    forall k | 0 <= k < |COLLECTIONS| ensures PagedRoute(path, COLLECTIONS[k]) <==> PageOf(path, COLLECTIONS[k]) {
      PagedRouteExactly(path, COLLECTIONS[k]);
    }
  }

  lemma PagesAllowed(kind: string, offset: nat)
    requires kind in COLLECTIONS && offset < MAX_ITEMS
    ensures Allowed(PagePath(kind, offset))
  {
    ParseRendered(offset);
    DigitsFound(PageStart(kind), Decimal(offset), PAGE_END);
    var k :| 0 <= k < |COLLECTIONS| && COLLECTIONS[k] == kind;
    assert PagedRoute(PagePath(kind, offset), COLLECTIONS[k]);
  }

  lemma PageIsNotRoot(kind: string, offset: nat)
    ensures PagePath(kind, offset) != "/"
  {
    assert |PagePath(kind, offset)| > |PAGE_END|;
  }

  // ----- Messages -----

  /** A policy's definition; a list is `None` unless it is a non-empty list of strings of 1 to 512 characters. */
  datatype PolicyDef = PolicyDef(exactKeys: bool, actions: Option<seq<string>>, resources: Option<seq<string>>, effect: string)

  /**
   An entry of a collection, by the members the client looks at. `name` is the `username`
   of a user and the `name` of anything else; `links` holds those of `roles`, `users`,
   `policies` and `rules` that are lists of integers; `rest` is everything else.
   */
  datatype Item = Item(
    isObject: bool,
    id: Option<int>,
    name: Option<string>,
    links: map<string, seq<int>>,
    policy: Option<PolicyDef>,
    runAs: Option<bool>,
    isRule: bool,
    rest: string)

  /** The `data` object of a reply, by the members the client looks at; `rest` is everything else. */
  datatype Data = Data(
    token: Option<string>,
    clean: bool,
    total: Option<int>,
    items: Option<seq<Item>>,
    apiVersion: Option<string>,
    rbacMode: Option<string>,
    grants: map<string, map<string, string>>,
    rest: string)

  datatype Auth = NoAuth | Basic(credentials: string) | Bearer(token: string)

  /** What connecting gives: the SHA-256 of the certificate of a peer that TLS accepts, in hexadecimal. */
  datatype Peer = Unreachable | Expired | Rejected(verifyCode: int) | Presents(fingerprint: string)

  /** What comes back on a connection, with the framing headers and the body still to be read. */
  datatype Response =
    | Silent
    | Headers(status: int, identityEncoding: bool, json: bool, framing: Framing, body: Body)

  /** The same with the body read and decoded. */
  datatype Reply =
    | Broken
    | Answer(status: int, identityEncoding: bool, json: bool, data: Result<Data, string>)

  /** One connection: for what it was opened, what the peer presented, what was sent on it. */
  datatype Connection = Connection(host: string, verb: string, path: string, presented: Option<string>, sent: Option<Auth>)

  /** Why a body is not an accepted envelope. */
  datatype DecodeError = NotJson | RepeatedKey | BadNumber | ApiError

  function Decoded(data: Result<Data, DecodeError>): Result<Data, string> {
    match data
    case Ok(value) => Ok(value)
    case Err(NotJson) => Err("INVALID_JSON")
    case Err(RepeatedKey) => Err("DUPLICATE_JSON_KEY")
    case Err(BadNumber) => Err("INVALID_JSON_NUMBER")
    case Err(ApiError) => Err("API_ERROR")
  }

  /**
   The other side, by connection number: the peer, the deadline and the response to a
   request; and the decoding of a body (`envelope`) and base64.
   */
  datatype Server = Server(
    connect: (nat, string) -> Peer,
    late: nat -> bool,
    response: (nat, string, string, Auth) -> Response,
    decode: seq<byte> -> Result<Data, DecodeError>,
    base64: string -> string)
  {
    function reply(number: nat, verb: string, path: string, auth: Auth): Reply {
      match response(number, verb, path, auth)
      case Silent => Broken
      case Headers(status, identityEncoding, json, framing, body) =>
        var bytes := Received(framing, body);
        Answer(status, identityEncoding, json, if bytes.Err? then Err(bytes.error) else Decoded(decode(bytes.value)))
    }
  }

  datatype Session = Session(requests: nat, authAttempted: bool, token: Option<string>, wire: seq<Connection>)

  const NEW_SESSION := Session(0, false, None, [])

  // ----- request and authenticate -----

  /** The checks before anything is sent: `None` when the request may go on. */
  function Refusal(s: Session, verb: string, path: string, basic: Option<string>): Option<string> {
    if verb == "POST" then
      if path == AUTH && basic.Some? && !s.authAttempted && s.token.None? then None else Some("ROUTE_DENIED")
    else if !(verb == "GET" && basic.None? && Allowed(path)) then Some("ROUTE_DENIED")
    else if s.token.None? && path != "/" then Some("AUTH_REQUIRED")
    else None
  }

  function AuthHeader(s: Session, basic: Option<string>): Auth {
    if basic.Some? then Basic(basic.value) else if s.token.Some? then Bearer(s.token.value) else NoAuth
  }

  /** What the client makes of a reply to a request that was sent. */
  function Judge(reply: Reply, expected: int): Result<Option<Data>, string> {
    match reply
    case Answer(status, identityEncoding, json, data) =>
      if status != expected then Err("HTTP_STATUS")
      else if expected == 401 then Ok(None)
      else if !identityEncoding then Err("ENCODING")
      else if !json then Err("CONTENT_TYPE")
      else if data.Err? then Err(data.error)
      else Ok(Some(data.value))
    case Broken => Err("RESPONSE")
  }

  /** `connect`, for the request that goes on it: the identity and the exact certificate are checked. */
  function Connect(server: Server, s: Session, host: string, verb: string, path: string): (Connection, Option<string>) {
    var peer := server.connect(|s.wire|, host);
    match peer
    case Unreachable => (Connection(host, verb, path, None, None), Some("CONNECT"))
    case Expired => (Connection(host, verb, path, None, None), Some("DEADLINE"))
    case Rejected(code) => (Connection(host, verb, path, None, None), Some("CERTIFICATE"))
    case Presents(fingerprint) =>
      (Connection(host, verb, path, Some(fingerprint), None),
       if fingerprint == FINGERPRINT then None else Some("PEER_CERT_CHANGED"))
  }

  function Request(server: Server, s: Session, verb: string, path: string, basic: Option<string>): (Session, Result<Option<Data>, string>)
  {
    var refused := Refusal(s, verb, path, basic);
    if refused.Some? then (s, Err(refused.value))
    else
      var counted := s.(authAttempted := s.authAttempted || verb == "POST", requests := s.requests + 1);
      if counted.requests > MAX_REQUESTS then (counted, Err("REQUEST_LIMIT"))
      else
        var (connection, failed) := Connect(server, s, HOSTNAME, verb, path);
        if failed.Some? then (counted.(wire := s.wire + [connection]), Err(failed.value))
        else if server.late(|s.wire|) then (counted.(wire := s.wire + [connection]), Err("DEADLINE"))
        else
          var auth := AuthHeader(s, basic);
          (counted.(wire := s.wire + [connection.(sent := Some(auth))]),
           Judge(server.reply(|s.wire|, verb, path, auth), if path == "/" && s.token.None? then 401 else 200))
  }

  /** Who may ask for what: one login before any token, and allowed pages with a token or the root without. */
  predicate Permitted(s: Session, verb: string, path: string, basic: Option<string>) {
    || (verb == "POST" && path == AUTH && basic.Some? && !s.authAttempted && s.token.None?)
    || (verb == "GET" && basic.None? && Allowed(path) && (s.token.Some? || path == "/"))
  }

  /**
   A request succeeds exactly when it is permitted, within budget, on a connection to the
   pinned peer, in time, and answered as expected; only the root without a token is
   expected to be refused, and then its body is not read.
   */
  lemma RequestSucceedsExactly(server: Server, s: Session, verb: string, path: string, basic: Option<string>, value: Option<Data>)
    ensures Request(server, s, verb, path, basic).1 == Ok(value) <==>
            && Permitted(s, verb, path, basic) && s.requests < MAX_REQUESTS
            && server.connect(|s.wire|, HOSTNAME) == Presents(FINGERPRINT) && !server.late(|s.wire|)
            && var reply := server.reply(|s.wire|, verb, path, AuthHeader(s, basic));
            reply.Answer?
            && if path == "/" && s.token.None? then reply.status == 401 && value == None
            else reply.status == 200 && reply.identityEncoding && reply.json && reply.data.Ok? && value == Some(reply.data.value)
  {
    assert "POST"[0] != "GET"[0] && AUTH[1] != '?';
  }

  predicate TokenChar(c: char) { 'A' <= c <= 'Z' || 'a' <= c <= 'z' || '0' <= c <= '9' || c == '_' || c == '-' }

  predicate TokenDots(token: string, i: int, j: int) {
    && 0 < i && i + 1 < j < |token| - 1 && token[i] == '.' && token[j] == '.'
    && (forall k :: 0 <= k < |token| && k != i && k != j ==> TokenChar(token[k]))
  }

  /** Three non-empty base64url parts joined by dots, at most 8192 characters. */
  predicate TokenShape(token: string) {
    |token| <= 8192 && exists i, j :: 0 <= i < |token| && 0 <= j < |token| && TokenDots(token, i, j)
  }

  ghost predicate TokenText(part: string) {
    part != "" && forall k :: 0 <= k < |part| ==> TokenChar(part[k])
  }

  ghost predicate ThreeParts(token: string, a: string, b: string, c: string) {
    token == a + "." + b + "." + c && TokenText(a) && TokenText(b) && TokenText(c)
  }

  lemma DotsCut(token: string, i: int, j: int)
    requires TokenDots(token, i, j)
    ensures ThreeParts(token, token[..i], token[i + 1..j], token[j + 1..])
  {
    var rest := token[i + 1..];
    assert rest[..j - i - 1] == token[i + 1..j] && rest[j - i..] == token[j + 1..];
  }

  lemma PartsAreDotted(token: string, a: string, b: string, c: string)
    requires ThreeParts(token, a, b, c)
    ensures TokenDots(token, |a|, |a| + 1 + |b|)
  {
    forall k | 0 <= k < |token| && k != |a| && k != |a| + 1 + |b| ensures TokenChar(token[k]) {
      var part := if k < |a| then a[k] else if k < |a| + 1 + |b| then b[k - |a| - 1] else c[k - |a| - |b| - 2];
      assert token[k] == part;
    }
  }

  /** A token has the right shape exactly when it is three texts of its alphabet, joined by dots. */
  lemma TokenShapeExactly(token: string)
    ensures TokenShape(token) <==> |token| <= 8192 && exists a, b, c :: ThreeParts(token, a, b, c)
  {
    if TokenShape(token) {
      var i, j :| 0 <= i < |token| && 0 <= j < |token| && TokenDots(token, i, j);
      DotsCut(token, i, j);
    }
    if a, b, c :| ThreeParts(token, a, b, c) {
      PartsAreDotted(token, a, b, c);
    }
  }

  predicate Username(u: string) {
    1 <= |u| <= 128 && forall i :: 0 <= i < |u| ==> u[i] != ':' && u[i] as int >= 32
  }

  /** The inputs that a login accepts. */
  predicate Acceptable(username: string, password: string) {
    Username(username) && 1 <= |password| <= 4096
  }

  function Authenticate(server: Server, s: Session, username: string, password: string): (Session, Option<string>) {
    if !Username(username) then (s, Some("USERNAME"))
    else if !(1 <= |password| <= 4096) then (s, Some("PASSWORD"))
    else
      var (after, reply) := Request(server, s, "POST", AUTH, Some(server.base64(username + ":" + password)));
      if reply.Err? then (after, Some(reply.error))
      else if reply.value.None? || reply.value.value.token.None? || !TokenShape(reply.value.value.token.value) then
        (after, Some("TOKEN_SHAPE"))
      else (after.(token := reply.value.value.token), None)
  }

  /** A login succeeds exactly once, with good inputs, on the pinned peer, for an answer that carries a well-shaped token. */
  lemma LoginSucceedsExactly(server: Server, s: Session, username: string, password: string)
    ensures var (after, failed) := Authenticate(server, s, username, password);
            failed.None? <==>
            && 1 <= |username| <= 128 && ':' !in username && (forall i :: 0 <= i < |username| ==> ' ' <= username[i])
            && 1 <= |password| <= 4096 && !s.authAttempted && s.token.None? && s.requests < MAX_REQUESTS
            && server.connect(|s.wire|, HOSTNAME) == Presents(FINGERPRINT) && !server.late(|s.wire|)
            && var reply := server.reply(|s.wire|, "POST", AUTH, Basic(server.base64(username + ":" + password)));
            reply.Answer? && reply.status == 200 && reply.identityEncoding && reply.json && reply.data.Ok?
            && reply.data.value.token.Some? && TokenShape(reply.data.value.token.value)
  {
    var basic := server.base64(username + ":" + password);
    var reply := Request(server, s, "POST", AUTH, Some(basic)).1;
    if reply.Ok? {
      RequestSucceedsExactly(server, s, "POST", AUTH, Some(basic), reply.value);
    }
    var answer := server.reply(|s.wire|, "POST", AUTH, Basic(basic));
    if answer.Answer? && answer.data.Ok? {
      RequestSucceedsExactly(server, s, "POST", AUTH, Some(basic), Some(answer.data.value));
    }
    assert AUTH[1] == 's' && AUTH != "/";
  }

  /** The connection that TLS must refuse, because the certificate does not name the host. */
  function Probe(server: Server, s: Session): (Session, Option<string>) {
    var (connection, failed) := Connect(server, s, WRONG_HOSTNAME, "", "");
    var peer := server.connect(|s.wire|, WRONG_HOSTNAME);
    (s.(wire := s.wire + [connection]),
     if peer.Rejected? then (if peer.verifyCode == HOSTNAME_MISMATCH then None else Some("NEGATIVE_TLS_CAUSE"))
     else if failed.Some? then failed
     else Some("NEGATIVE_TLS_ACCEPTED"))
  }

  /** `Client` */
  class Client {
    const server: Server
    var requests: nat
    var authAttempted: bool
    var token: Option<string>
    var wire: seq<Connection>

    function State(): Session
      reads this
    {
      Session(requests, authAttempted, token, wire)
    }

    constructor (server: Server)
      ensures this.server == server && State() == NEW_SESSION
    {
      this.server := server;
      requests, authAttempted, token, wire := 0, false, None, [];
    }

    method Send(verb: string, path: string, basic: Option<string>) returns (r: Result<Option<Data>, string>)
      modifies this
      ensures (State(), r) == Request(server, old(State()), verb, path, basic)
    {
      var refused := Refusal(State(), verb, path, basic);
      if refused.Some? {
        return Err(refused.value);
      }
      if verb == "POST" {
        authAttempted := true;
      }
      requests := requests + 1;
      if requests > MAX_REQUESTS {
        return Err("REQUEST_LIMIT");
      }
      var (connection, failed) := Connect(server, State(), HOSTNAME, verb, path);
      var number := |wire|;
      wire := wire + [connection];
      if failed.Some? {
        return Err(failed.value);
      }
      if server.late(number) {
        return Err("DEADLINE");
      }
      var auth := AuthHeader(State(), basic);
      wire := wire[..number] + [connection.(sent := Some(auth))];
      r := Exchange(number, verb, path, auth, if path == "/" && token.None? then 401 else 200);
    }

    /** The part of `request` that follows the sending: the answer's checks, its body, and the envelope. */
    method Exchange(number: nat, verb: string, path: string, auth: Auth, expected: int) returns (r: Result<Option<Data>, string>)
      ensures r == Judge(server.reply(number, verb, path, auth), expected)
    {
      match server.response(number, verb, path, auth) {
        case Silent => return Err("RESPONSE");
        case Headers(status, identityEncoding, json, framing, body) =>
          if status != expected {
            return Err("HTTP_STATUS");
          }
          if expected == 401 {
            return Ok(None);
          }
          if !identityEncoding {
            return Err("ENCODING");
          }
          if !json {
            return Err("CONTENT_TYPE");
          }
          var bytes, asked := ReadBody(framing, body);
          if bytes.Err? {
            return Err(bytes.error);
          }
          var data := Decoded(server.decode(bytes.value));
          return if data.Err? then Err(data.error) else Ok(Some(data.value));
      }
    }

    /** `wrong_hostname_probe` */
    method ProbeHostname() returns (failed: Option<string>)
      modifies this
      ensures (State(), failed) == Probe(server, old(State()))
      ensures failed.None? <==> server.connect(|old(wire)|, WRONG_HOSTNAME) == Rejected(HOSTNAME_MISMATCH)
      ensures requests == old(requests) && authAttempted == old(authAttempted) && token == old(token)
      ensures |wire| == |old(wire)| + 1 && wire[..|old(wire)|] == old(wire)
      ensures wire[|old(wire)|].host == WRONG_HOSTNAME && wire[|old(wire)|].sent == None
    {
      var (connection, wrong) := Connect(server, State(), WRONG_HOSTNAME, "", "");
      var peer := server.connect(|wire|, WRONG_HOSTNAME);
      wire := wire + [connection];
      if peer.Rejected? {
        return if peer.verifyCode == HOSTNAME_MISMATCH then None else Some("NEGATIVE_TLS_CAUSE");
      }
      failed := if wrong.Some? then wrong else Some("NEGATIVE_TLS_ACCEPTED");
    }

    method LogIn(username: string, password: string) returns (failed: Option<string>)
      modifies this
      ensures (State(), failed) == Authenticate(server, old(State()), username, password)
      ensures !Acceptable(username, password) ==> failed.Some? && State() == old(State())
      ensures old(authAttempted) || old(token).Some? ==> failed.Some? && State() == old(State())
      ensures if failed.None? then authAttempted && token.Some? && TokenShape(token.value) else token == old(token)
      ensures old(wire) <= wire && |wire| <= |old(wire)| + 1
      ensures |wire| > |old(wire)| && wire[|old(wire)|].sent.Some? ==>
                wire[|old(wire)|] == Connection(HOSTNAME, "POST", AUTH, Some(FINGERPRINT), Some(Basic(server.base64(username + ":" + password))))
    {
      if !Username(username) {
        return Some("USERNAME");
      }
      if !(1 <= |password| <= 4096) {
        return Some("PASSWORD");
      }
      var basic := server.base64(username + ":" + password);
      var reply := Send("POST", AUTH, Some(basic));
      if reply.Err? {
        return Some(reply.error);
      }
      if reply.value.None? || reply.value.value.token.None? || !TokenShape(reply.value.value.token.value) {
        return Some("TOKEN_SHAPE");
      }
      token := reply.value.value.token;
      failed := None;
    }
  }

  // ----- What every session keeps -----

  datatype Call =
    | Ask(verb: string, path: string, basic: Option<string>)
    | LogIn(username: string, password: string)
    | WrongHostname
    | Forget

  function Apply(server: Server, s: Session, call: Call): Session {
    match call
    case Ask(verb, path, basic) => Request(server, s, verb, path, basic).0
    case LogIn(username, password) => Authenticate(server, s, username, password).0
    case WrongHostname => Probe(server, s).0
    case Forget => s.(token := None)
  }

  function ApplyAll(server: Server, s: Session, calls: seq<Call>): Session
    decreases |calls|
  {
    if calls == [] then s else ApplyAll(server, Apply(server, s, calls[0]), calls[1..])
  }

  /** How many connections were opened to send a request, and how many of those to authenticate. */
  function Attempts(wire: seq<Connection>): nat {
    if wire == [] then 0 else Attempts(wire[..|wire| - 1]) + if wire[|wire| - 1].host == HOSTNAME then 1 else 0
  }

  function Logins(wire: seq<Connection>): nat {
    if wire == [] then 0 else Logins(wire[..|wire| - 1]) + if wire[|wire| - 1].verb == "POST" then 1 else 0
  }

  /** Nothing is sent before the peer is verified; POST only authenticates; GET only reads allowed routes. */
  predicate Honest(c: Connection) {
    && (c.host == HOSTNAME ==> (c.verb == "POST" && c.path == AUTH) || (c.verb == "GET" && Allowed(c.path)))
    && (c.sent.Some? ==>
          && c.presented == Some(FINGERPRINT) && c.host == HOSTNAME
          && (c.verb == "POST" <==> c.sent.value.Basic?)
          && (c.sent.value.NoAuth? ==> c.path == "/"))
  }

  ghost predicate Kept(s: Session) {
    && Attempts(s.wire) <= s.requests && Attempts(s.wire) <= MAX_REQUESTS
    && Logins(s.wire) <= 1 && (!s.authAttempted ==> Logins(s.wire) == 0)
    && (s.token.Some? ==> s.authAttempted)
    && forall i :: 0 <= i < |s.wire| ==> Honest(s.wire[i])
  }

  /** What one request may do to the session: count itself and append one honest connection. */
  ghost predicate Extends(s: Session, after: Session) {
    && after.token == s.token && (s.authAttempted ==> after.authAttempted) && s.requests <= after.requests
    && (after.wire != s.wire ==>
          && |after.wire| == |s.wire| + 1 && after.wire[..|s.wire|] == s.wire
          && var c := after.wire[|s.wire|];
          Honest(c) && after.requests == s.requests + 1 <= MAX_REQUESTS
          && (c.verb == "POST" ==> !s.authAttempted && after.authAttempted))
  }

  lemma RequestExtends(server: Server, s: Session, verb: string, path: string, basic: Option<string>)
    ensures Extends(s, Request(server, s, verb, path, basic).0)
  {
    var after := Request(server, s, verb, path, basic).0;
    if after.wire != s.wire {
      assert Refusal(s, verb, path, basic).None?;
      var c := after.wire[|s.wire|];
      assert after.wire[..|s.wire|] == s.wire;
      assert c.verb == verb && c.path == path && c.host == HOSTNAME;
      assert c.sent.Some? ==> c.presented == Some(FINGERPRINT) && c.sent.value == AuthHeader(s, basic);
    }
  }

  lemma ExtensionKeeps(s: Session, after: Session)
    requires Kept(s) && Extends(s, after)
    ensures Kept(after)
  {
    if after.wire != s.wire {
      assert after.wire[..|after.wire| - 1] == s.wire;
    }
  }

  lemma RequestKeeps(server: Server, s: Session, verb: string, path: string, basic: Option<string>)
    requires Kept(s)
    ensures Kept(Request(server, s, verb, path, basic).0)
    ensures Request(server, s, verb, path, basic).0.token == s.token
  {
    RequestExtends(server, s, verb, path, basic);
    ExtensionKeeps(s, Request(server, s, verb, path, basic).0);
  }

  lemma AuthenticateKeeps(server: Server, s: Session, username: string, password: string)
    requires Kept(s)
    ensures Kept(Authenticate(server, s, username, password).0)
  {
    var basic := server.base64(username + ":" + password);
    var (after, reply) := Request(server, s, "POST", AUTH, Some(basic));
    RequestKeeps(server, s, "POST", AUTH, Some(basic));
    LoginCounts(server, s, basic);
    assert forall token :: Kept(after) && after.authAttempted ==> Kept(after.(token := token));
  }

  /** A login that is answered has been counted. */
  lemma LoginCounts(server: Server, s: Session, basic: string)
    ensures var (after, reply) := Request(server, s, "POST", AUTH, Some(basic)); reply.Ok? ==> after.authAttempted
  {
  }

  lemma ProbeKeeps(server: Server, s: Session)
    requires Kept(s)
    ensures Kept(Probe(server, s).0)
  {
    var after := Probe(server, s).0;
    assert after.wire[..|after.wire| - 1] == s.wire;
    assert WRONG_HOSTNAME[0] != HOSTNAME[0];
  }

  lemma ApplyKeeps(server: Server, s: Session, call: Call)
    requires Kept(s)
    ensures Kept(Apply(server, s, call))
  {
    match call
    case Ask(verb, path, basic) => RequestKeeps(server, s, verb, path, basic);
    case LogIn(username, password) => AuthenticateKeeps(server, s, username, password);
    case WrongHostname => ProbeKeeps(server, s);
    case Forget =>
  }

  /** Any calls in any order against any server: one login attempt, 100 requests, allowed routes, verified peers. */
  lemma {:induction false} SessionKeeps(server: Server, s: Session, calls: seq<Call>)
    requires Kept(s)
    ensures Kept(ApplyAll(server, s, calls))
    decreases |calls|
  {
    if calls != [] {
      ApplyKeeps(server, s, calls[0]);
      SessionKeeps(server, Apply(server, s, calls[0]), calls[1..]);
    }
  }

  lemma NewSessionKeeps()
    ensures Kept(NEW_SESSION)
  {
  }
}
