/**
 collect and main in siem/rbac/collect_server_inventory.py against a server whose objects
 nobody changes: whether a session succeeds is then a matter of what the server holds.
 */
module StillServer {
  import opened Common
  import opened InventoryAcceptance
  import opened Relationships
  import opened RoleInventory
  import opened ServerClient
  import opened ServerInventory
  import opened ServerPaging

  /** What a server holds: the four collections and the answers of the single reads. */
  datatype State = State(catalog: Catalog, version: Data, current: Data, processed: Data, config: Data)

  /** How many items the server puts on a page of a collection. */
  type Sizes = string -> nat -> nat

  ghost predicate Answers(server: Server, path: string, data: Data) {
    forall n: nat, token: string :: IsData(server.reply(n, "GET", path, Bearer(token)), data)
  }

  predicate IsData(reply: Reply, data: Data) {
    reply.Answer? && reply.status == 200 && reply.identityEncoding && reply.json && reply.data == Ok(data)
  }

  /** The pinned server, in time, with one state for every token. */
  ghost predicate HoldsStill(server: Server, state: State, sizes: Sizes) {
    && ServesWell(server, "users", state.catalog.users, sizes("users"))
    && ServesWell(server, "roles", state.catalog.roles, sizes("roles"))
    && ServesWell(server, "policies", state.catalog.policies, sizes("policies"))
    && ServesWell(server, "rules", state.catalog.rules, sizes("rules"))
    && Answers(server, "/", state.version) && Answers(server, ME, state.current)
    && Answers(server, MY_POLICIES, state.processed) && Answers(server, CONFIG, state.config)
  }

  ghost predicate ServesWell(server: Server, kind: string, list: seq<Item>, size: nat -> nat) {
    Serves(server, kind, list, size) && Ascending(list) && |list| <= MAX_ITEMS
  }

  /** The requests that one read of the four collections takes. */
  function Pages(catalog: Catalog, sizes: Sizes): nat {
    Needed(sizes("users"), 0, |catalog.users|) + Needed(sizes("roles"), 0, |catalog.roles|)
    + Needed(sizes("policies"), 0, |catalog.policies|) + Needed(sizes("rules"), 0, |catalog.rules|)
  }

  // ----- The reads -----

  lemma GetOfStill(server: Server, s: Session, path: string, data: Data)
    requires server.connect(|s.wire|, HOSTNAME) == Presents(FINGERPRINT) && !server.late(|s.wire|)
    requires Answers(server, path, data) && Allowed(path) && s.token.Some? && s.requests < MAX_REQUESTS
    ensures var (after, r) := Get(server, s, path);
            r == Ok(data) && after.requests == s.requests + 1 && after.token == s.token
  {
    assert IsData(server.reply(|s.wire|, "GET", path, Bearer(s.token.value)), data);
    RequestSucceedsExactly(server, s, "GET", path, None, Some(data));
  }

  /** Reachable at any time. */
  ghost predicate Reachable(server: Server) {
    forall n :: server.connect(n, HOSTNAME) == Presents(FINGERPRINT) && !server.late(n)
  }

  lemma SinglesAllowed()
    ensures Allowed("/") && Allowed(ME) && Allowed(MY_POLICIES) && Allowed(CONFIG)
  {
    assert SINGLE_READS[0] == "/" && SINGLE_READS[1] == CONFIG && SINGLE_READS[2] == ME && SINGLE_READS[3] == MY_POLICIES;
  }

  lemma ContextOfStill(server: Server, s: Session, state: State)
    requires Reachable(server) && Answers(server, "/", state.version) && Answers(server, ME, state.current)
    requires Answers(server, MY_POLICIES, state.processed) && Answers(server, CONFIG, state.config)
    requires s.token.Some? && s.requests + 4 <= MAX_REQUESTS
    ensures var (after, r) := ReadContext(server, s);
            if state.version.apiVersion == Some(API_VERSION) then
              && r == Ok(Context(state.current, state.processed, state.config))
              && after.requests == s.requests + 4 && after.token == s.token
            else r == Err("SERVER_VERSION")
  {
    SinglesAllowed();
    GetOfStill(server, s, "/", state.version);
    var s1 := Get(server, s, "/").0;
    GetOfStill(server, s1, ME, state.current);
    var s2 := Get(server, s1, ME).0;
    GetOfStill(server, s2, MY_POLICIES, state.processed);
    var s3 := Get(server, s2, MY_POLICIES).0;
    GetOfStill(server, s3, CONFIG, state.config);
  }

  lemma RecheckOfStill(server: Server, s: Session, state: State)
    requires Reachable(server) && Answers(server, ME, state.current)
    requires Answers(server, MY_POLICIES, state.processed) && Answers(server, CONFIG, state.config)
    requires s.token.Some? && s.requests + 3 <= MAX_REQUESTS
    ensures Recheck(server, s, Context(state.current, state.processed, state.config)).1.None?
  {
    SinglesAllowed();
    GetOfStill(server, s, CONFIG, state.config);
    var s1 := Get(server, s, CONFIG).0;
    GetOfStill(server, s1, MY_POLICIES, state.processed);
    var s2 := Get(server, s1, MY_POLICIES).0;
    GetOfStill(server, s2, ME, state.current);
  }

  /** One collection of a still server. */
  lemma CollectionOfStill(server: Server, s: Session, kind: string, list: seq<Item>, size: nat -> nat)
    requires ServesWell(server, kind, list, size) && kind in COLLECTIONS && s.token.Some?
    requires s.requests + Needed(size, 0, |list|) <= MAX_REQUESTS
    ensures var (after, r) := FetchCollection(server, s, kind);
            r == Ok(list) && after.requests == s.requests + Needed(size, 0, |list|) && after.token == s.token
  {
    assert list[..0] == [];
    FetchServed(server, s, kind, list, size, 0, None);
  }

  lemma FetchAllOfStill(server: Server, s: Session, state: State, sizes: Sizes)
    requires HoldsStill(server, state, sizes) && s.token.Some? && s.requests + Pages(state.catalog, sizes) <= MAX_REQUESTS
    ensures var (after, r) := FetchAll(server, s);
            r == Ok(state.catalog) && after.requests == s.requests + Pages(state.catalog, sizes) && after.token == s.token
  {
    var c := state.catalog;
    assert COLLECTIONS[0] == "users" && COLLECTIONS[1] == "roles" && COLLECTIONS[2] == "policies" && COLLECTIONS[3] == "rules";
    CollectionOfStill(server, s, "users", c.users, sizes("users"));
    var s1 := FetchCollection(server, s, "users").0;
    CollectionOfStill(server, s1, "roles", c.roles, sizes("roles"));
    var s2 := FetchCollection(server, s1, "roles").0;
    CollectionOfStill(server, s2, "policies", c.policies, sizes("policies"));
    var s3 := FetchCollection(server, s2, "policies").0;
    CollectionOfStill(server, s3, "rules", c.rules, sizes("rules"));
  }

  // ----- The whole session -----

  /** The server's state is one that the inventory accepts for this operator. */
  ghost predicate Approved(state: State, username: string) {
    && state.version.apiVersion == Some(API_VERSION)
    && exists admin, readonly, identity, broker ::
         AcceptableCatalog(state.catalog, state.current, state.processed, state.config, username, admin, readonly, identity, broker)
  }

  /** Against a server that holds still, and within the budget, a collection is accepted exactly when its state is. */
  lemma StillCollectAcceptsExactly(server: Server, s: Session, state: State, sizes: Sizes, username: string)
    requires HoldsStill(server, state, sizes) && s.token.Some?
    requires s.requests + 7 + 2 * Pages(state.catalog, sizes) <= MAX_REQUESTS
    ensures Collect(server, s, username).1.Ok? <==> Approved(state, username)
    ensures Collect(server, s, username).1.Ok? ==>
              Collect(server, s, username).1 == Summarize(state.catalog, state.current, state.processed, state.config, username)
  {
    ContextOfStill(server, s, state);
    var c := Context(state.current, state.processed, state.config);
    SummarizeAcceptsExactly(state.catalog, state.current, state.processed, state.config, username);
    if state.version.apiVersion == Some(API_VERSION) {
      var s1 := ReadContext(server, s).0;
      FetchAllOfStill(server, s1, state, sizes);
      var s2 := FetchAll(server, s1).0;
      ReadAgainOfStill(server, s2, state, sizes);
      CollectIsSummary(server, s, username, c, state.catalog);
    }
  }

  /** When every read succeeds and is confirmed, the summary decides. */
  lemma CollectIsSummary(server: Server, s: Session, username: string, c: Context, catalog: Catalog)
    requires Ordered(catalog) && ReadContext(server, s).1 == Ok(c)
    requires var (s2, first) := FetchAll(server, ReadContext(server, s).0); first == Ok(catalog) && ReadAgain(server, s2, c, catalog).1.None?
    ensures Collect(server, s, username).1 == Summarize(catalog, c.current, c.processed, c.config, username)
  {
  }

  lemma ReadAgainOfStill(server: Server, s: Session, state: State, sizes: Sizes)
    requires HoldsStill(server, state, sizes) && s.token.Some? && s.requests + Pages(state.catalog, sizes) + 3 <= MAX_REQUESTS
    ensures ReadAgain(server, s, Context(state.current, state.processed, state.config), state.catalog).1.None?
  {
    FetchAllOfStill(server, s, state, sizes);
    RecheckOfStill(server, FetchAll(server, s).0, state);
  }

  /** What comes before the inventory: the root refuses a stranger, TLS the wrong name, and the login gives a token. */
  ghost predicate LetsIn(server: Server, username: string, password: string) {
    && IsRefusal(server.reply(0, "GET", "/", NoAuth))
    && server.connect(1, WRONG_HOSTNAME) == Rejected(HOSTNAME_MISMATCH)
    && LoginWorks(server, 2, username, password)
  }

  predicate LoginWorks(server: Server, n: nat, username: string, password: string) {
    Acceptable(username, password) && GivesToken(server.reply(n, "POST", AUTH, Basic(server.base64(username + ":" + password))))
  }

  predicate IsRefusal(reply: Reply) { reply.Answer? && reply.status == 401 }

  predicate GivesToken(reply: Reply) {
    && reply.Answer? && reply.status == 200 && reply.identityEncoding && reply.json && reply.data.Ok?
    && reply.data.value.token.Some? && TokenShape(reply.data.value.token.value)
  }

  /** A whole run against a still server succeeds exactly when it is let in and the state is approved. */
  lemma StillRunSucceedsExactly(server: Server, state: State, sizes: Sizes, username: string, password: string)
    requires HoldsStill(server, state, sizes) && 9 + 2 * Pages(state.catalog, sizes) <= MAX_REQUESTS
    ensures Run(server, username, password).1.Ok? <==> LetsIn(server, username, password) && Approved(state, username)
  {
    HelloOfStill(server);
    RunParts(server, username, password);
    var s1 := Request(server, NEW_SESSION, "GET", "/", None).0;
    ProbeOfStill(server, s1);
    var s2 := Probe(server, s1).0;
    InventoryOfStill(server, s2, state, sizes, username, password);
    assert |s1.wire| == 1 && |s2.wire| == 2;
    assert LetsIn(server, username, password) <==>
           && IsRefusal(server.reply(0, "GET", "/", NoAuth)) && Probe(server, s1).1.None?
           && LoginWorks(server, 2, username, password);
  }

  lemma RunParts(server: Server, username: string, password: string)
    ensures var (s1, hello) := Request(server, NEW_SESSION, "GET", "/", None);
            var (s2, accepted) := Probe(server, s1);
            Run(server, username, password).1.Ok? <==> hello.Ok? && accepted.None? && Inventory(server, s2, username, password).1.Ok?
  {
  }

  lemma ProbeOfStill(server: Server, s: Session)
    ensures var (after, failed) := Probe(server, s);
            && (failed.None? <==> server.connect(|s.wire|, WRONG_HOSTNAME) == Rejected(HOSTNAME_MISMATCH))
            && |after.wire| == |s.wire| + 1 && after.(wire := s.wire) == s
  {
  }

  lemma LoginOfStill(server: Server, s: Session, username: string, password: string)
    requires Reachable(server) && s.token.None? && !s.authAttempted && s.requests < MAX_REQUESTS
    ensures var (after, failed) := Authenticate(server, s, username, password);
            && (failed.None? <==> LoginWorks(server, |s.wire|, username, password))
            && (failed.None? ==> after.token.Some? && after.requests == s.requests + 1)
  {
    LoginSucceedsExactly(server, s, username, password);
  }

  lemma InventoryOfStill(server: Server, s: Session, state: State, sizes: Sizes, username: string, password: string)
    requires HoldsStill(server, state, sizes) && s.token.None? && !s.authAttempted
    requires s.requests + 8 + 2 * Pages(state.catalog, sizes) <= MAX_REQUESTS
    ensures Inventory(server, s, username, password).1.Ok? <==>
            LoginWorks(server, |s.wire|, username, password) && Approved(state, username)
  {
    LoginOfStill(server, s, username, password);
    var (after, denied) := Authenticate(server, s, username, password);
    if denied.None? {
      StillCollectAcceptsExactly(server, after, state, sizes, username);
    }
  }

  lemma HelloOfStill(server: Server)
    requires Reachable(server)
    ensures Request(server, NEW_SESSION, "GET", "/", None).1.Ok? <==> IsRefusal(server.reply(0, "GET", "/", NoAuth))
    ensures var s := Request(server, NEW_SESSION, "GET", "/", None).0;
            s.requests == 1 && |s.wire| == 1 && s.token.None? && !s.authAttempted
  {
    SinglesAllowed();
  }
}
