/** collect and main in siem/rbac/collect_server_inventory.py: one whole session, from the first connection on. */
module ServerInventory {
  import opened Common
  import opened ServerClient
  import opened ServerPaging
  import opened Relationships
  import opened RoleInventory

  const API_VERSION := "4.14.7"
  const ME := "/security/users/me"
  const MY_POLICIES := "/security/users/me/policies"
  const CONFIG := "/security/config"

  // ----- The reads -----

  /** One GET that must give data. */
  function Get(server: Server, s: Session, path: string): (Session, Result<Data, string>) {
    var (after, reply) := Request(server, s, "GET", path, None);
    (after, if reply.Err? then Err(reply.error) else if reply.value.None? then Err("API_ERROR") else Ok(reply.value.value))
  }

  function FetchAll(server: Server, s: Session): (Session, Result<Catalog, string>) {
    var (s1, users) := FetchCollection(server, s, "users");
    if users.Err? then (s1, Err(users.error))
    else
      var (s2, roles) := FetchCollection(server, s1, "roles");
      if roles.Err? then (s2, Err(roles.error))
      else
        var (s3, policies) := FetchCollection(server, s2, "policies");
        if policies.Err? then (s3, Err(policies.error))
        else
          var (s4, rules) := FetchCollection(server, s3, "rules");
          if rules.Err? then (s4, Err(rules.error))
          else (s4, Ok(Catalog(users.value, roles.value, policies.value, rules.value)))
  }

  lemma FetchAllOrders(server: Server, s: Session)
    requires FetchAll(server, s).1.Ok?
    ensures Ordered(FetchAll(server, s).1.value)
  {
    var (s1, users) := FetchCollection(server, s, "users");
    var (s2, roles) := FetchCollection(server, s1, "roles");
    var (s3, policies) := FetchCollection(server, s2, "policies");
    CollectionIsWhatPagesHeld(server, s, "users");
    CollectionIsWhatPagesHeld(server, s1, "roles");
    CollectionIsWhatPagesHeld(server, s2, "policies");
    CollectionIsWhatPagesHeld(server, s3, "rules");
  }

  datatype Context = Context(current: Data, processed: Data, config: Data)

  /** The version and the reads that precede the catalog. */
  function ReadContext(server: Server, s: Session): (Session, Result<Context, string>) {
    var (s1, version) := Get(server, s, "/");
    if version.Err? then (s1, Err(version.error))
    else if version.value.apiVersion != Some(API_VERSION) then (s1, Err("SERVER_VERSION"))
    else
      var (s2, current) := Get(server, s1, ME);
      if current.Err? then (s2, Err(current.error))
      else
        var (s3, processed) := Get(server, s2, MY_POLICIES);
        if processed.Err? then (s3, Err(processed.error))
        else
          var (s4, config) := Get(server, s3, CONFIG);
          if config.Err? then (s4, Err(config.error))
          else (s4, Ok(Context(current.value, processed.value, config.value)))
  }

  /** The last three reads, each compared with the first one of its kind. */
  function Recheck(server: Server, s: Session, context: Context): (Session, Option<string>) {
    var (s1, config) := Get(server, s, CONFIG);
    if config.Err? then (s1, Some(config.error))
    else if config.value != context.config then (s1, Some("CONTEXT_DRIFT"))
    else
      var (s2, processed) := Get(server, s1, MY_POLICIES);
      if processed.Err? then (s2, Some(processed.error))
      else if processed.value != context.processed then (s2, Some("CONTEXT_DRIFT"))
      else
        var (s3, current) := Get(server, s2, ME);
        if current.Err? then (s3, Some(current.error))
        else if current.value != context.current then (s3, Some("CONTEXT_DRIFT"))
        else (s3, None)
  }

  /** The second read of everything, compared with the first. */
  function ReadAgain(server: Server, s: Session, context: Context, first: Catalog): (Session, Option<string>) {
    var (s1, second) := FetchAll(server, s);
    if second.Err? then (s1, Some(second.error))
    else if first != second.value then (s1, Some("CATALOG_DRIFT"))
    else Recheck(server, s1, context)
  }

  /** `collect` */
  function Collect(server: Server, s: Session, username: string): (Session, Result<Summary, string>) {
    var (s1, context) := ReadContext(server, s);
    if context.Err? then (s1, Err(context.error))
    else
      var (s2, first) := FetchAll(server, s1);
      if first.Err? then (s2, Err(first.error))
      else
        FetchAllOrders(server, s1);
        var c := context.value;
        var summary := Summarize(first.value, c.current, c.processed, c.config, username);
        if summary.Err? then (s2, summary)
        else
          var (s3, drift) := ReadAgain(server, s2, c, first.value);
          (s3, if drift.Some? then Err(drift.value) else summary)
  }

  /** The part of `main` that uses credentials; it ends with the token released. */
  function Inventory(server: Server, s: Session, username: string, password: string): (Session, Result<Summary, string>) {
    var (s1, denied) := Authenticate(server, s, username, password);
    if denied.Some? then (s1.(token := None), Err(denied.value))
    else
      var (s2, summary) := Collect(server, s1, username);
      (s2.(token := None), summary)
  }

  /** `main`, from the new client on. */
  function Run(server: Server, username: string, password: string): (Session, Result<Summary, string>) {
    var (s1, hello) := Request(server, NEW_SESSION, "GET", "/", None);
    if hello.Err? then (s1, Err(hello.error))
    else
      var (s2, accepted) := Probe(server, s1);
      if accepted.Some? then (s2, Err(accepted.value)) else Inventory(server, s2, username, password)
  }

  // ----- The same, step by step on one client -----

  method GetData(client: Client, path: string) returns (r: Result<Data, string>)
    modifies client
    ensures (client.State(), r) == Get(client.server, old(client.State()), path)
  {
    var reply := client.Send("GET", path, None);
    if reply.Err? {
      return Err(reply.error);
    }
    r := if reply.value.None? then Err("API_ERROR") else Ok(reply.value.value);
  }

  method ReadAll(client: Client) returns (r: Result<Catalog, string>)
    modifies client
    ensures (client.State(), r) == FetchAll(client.server, old(client.State()))
  {
    var users := ReadCollection(client, "users");
    if users.Err? {
      return Err(users.error);
    }
    var roles := ReadCollection(client, "roles");
    if roles.Err? {
      return Err(roles.error);
    }
    var policies := ReadCollection(client, "policies");
    if policies.Err? {
      return Err(policies.error);
    }
    var rules := ReadCollection(client, "rules");
    if rules.Err? {
      return Err(rules.error);
    }
    r := Ok(Catalog(users.value, roles.value, policies.value, rules.value));
  }

  method ReadContextOf(client: Client) returns (r: Result<Context, string>)
    modifies client
    ensures (client.State(), r) == ReadContext(client.server, old(client.State()))
  {
    var version := GetData(client, "/");
    if version.Err? {
      return Err(version.error);
    }
    if version.value.apiVersion != Some(API_VERSION) {
      return Err("SERVER_VERSION");
    }
    var current := GetData(client, ME);
    if current.Err? {
      return Err(current.error);
    }
    var processed := GetData(client, MY_POLICIES);
    if processed.Err? {
      return Err(processed.error);
    }
    var config := GetData(client, CONFIG);
    if config.Err? {
      return Err(config.error);
    }
    r := Ok(Context(current.value, processed.value, config.value));
  }

  method RecheckContext(client: Client, context: Context) returns (failed: Option<string>)
    modifies client
    ensures (client.State(), failed) == Recheck(client.server, old(client.State()), context)
  {
    var config := GetData(client, CONFIG);
    if config.Err? {
      return Some(config.error);
    }
    if config.value != context.config {
      return Some("CONTEXT_DRIFT");
    }
    var processed := GetData(client, MY_POLICIES);
    if processed.Err? {
      return Some(processed.error);
    }
    if processed.value != context.processed {
      return Some("CONTEXT_DRIFT");
    }
    var current := GetData(client, ME);
    if current.Err? {
      return Some(current.error);
    }
    failed := if current.value != context.current then Some("CONTEXT_DRIFT") else None;
  }

  method ReadAgainAndCompare(client: Client, context: Context, first: Catalog) returns (failed: Option<string>)
    modifies client
    ensures (client.State(), failed) == ReadAgain(client.server, old(client.State()), context, first)
  {
    var second := ReadAll(client);
    if second.Err? {
      return Some(second.error);
    }
    if first != second.value {
      return Some("CATALOG_DRIFT");
    }
    failed := RecheckContext(client, context);
  }

  method CollectInventory(client: Client, username: string) returns (r: Result<Summary, string>)
    modifies client
    ensures (client.State(), r) == Collect(client.server, old(client.State()), username)
  {
    var context := ReadContextOf(client);
    if context.Err? {
      return Err(context.error);
    }
    var c := context.value;
    ghost var before := client.State();
    var first := ReadAll(client);
    if first.Err? {
      return Err(first.error);
    }
    FetchAllOrders(client.server, before);
    r := Summarize(first.value, c.current, c.processed, c.config, username);
    if r.Err? {
      return;
    }
    var drift := ReadAgainAndCompare(client, c, first.value);
    if drift.Some? {
      return Err(drift.value);
    }
  }

  method RunSession(server: Server, username: string, password: string) returns (client: Client, r: Result<Summary, string>)
    ensures fresh(client) && (client.State(), r) == Run(server, username, password)
  {
    client := new Client(server);
    var hello := client.Send("GET", "/", None);
    if hello.Err? {
      return client, Err(hello.error);
    }
    var accepted := client.ProbeHostname();
    if accepted.Some? {
      return client, Err(accepted.value);
    }
    var denied := client.LogIn(username, password);
    if denied.Some? {
      r := Err(denied.value);
    } else {
      r := CollectInventory(client, username);
    }
    client.token := None;
  }

  // ----- The budget -----

  lemma GetCost(server: Server, s: Session, path: string)
    ensures s.requests <= Get(server, s, path).0.requests <= s.requests + 1
  {
  }

  lemma FetchAllCost(server: Server, s: Session)
    requires FullPages(server)
    ensures s.requests <= FetchAll(server, s).0.requests <= s.requests + 40
  {
    var (s1, users) := FetchCollection(server, s, "users");
    var (s2, roles) := FetchCollection(server, s1, "roles");
    var (s3, policies) := FetchCollection(server, s2, "policies");
    CollectionCost(server, s, "users");
    CollectionCost(server, s1, "roles");
    CollectionCost(server, s2, "policies");
    CollectionCost(server, s3, "rules");
  }

  lemma ContextCost(server: Server, s: Session)
    ensures s.requests <= ReadContext(server, s).0.requests <= s.requests + 4
  {
    var (s1, version) := Get(server, s, "/");
    var (s2, current) := Get(server, s1, ME);
    var (s3, processed) := Get(server, s2, MY_POLICIES);
    GetCost(server, s, "/");
    GetCost(server, s1, ME);
    GetCost(server, s2, MY_POLICIES);
    GetCost(server, s3, CONFIG);
  }

  lemma RecheckCost(server: Server, s: Session, context: Context)
    ensures s.requests <= Recheck(server, s, context).0.requests <= s.requests + 3
  {
    var (s1, config) := Get(server, s, CONFIG);
    var (s2, processed) := Get(server, s1, MY_POLICIES);
    GetCost(server, s, CONFIG);
    GetCost(server, s1, MY_POLICIES);
    GetCost(server, s2, ME);
  }

  lemma ReadAgainCost(server: Server, s: Session, context: Context, first: Catalog)
    requires FullPages(server)
    ensures s.requests <= ReadAgain(server, s, context, first).0.requests <= s.requests + 43
  {
    FetchAllCost(server, s);
    RecheckCost(server, FetchAll(server, s).0, context);
  }

  lemma CollectCost(server: Server, s: Session, username: string)
    requires FullPages(server)
    ensures s.requests <= Collect(server, s, username).0.requests <= s.requests + 87
  {
    var (s1, context) := ReadContext(server, s);
    ContextCost(server, s);
    FetchAllCost(server, s1);
    var (s2, first) := FetchAll(server, s1);
    if context.Ok? && first.Ok? {
      ReadAgainCost(server, s2, context.value, first.value);
    }
  }

  lemma InventoryCost(server: Server, s: Session, username: string, password: string)
    requires FullPages(server)
    ensures Inventory(server, s, username, password).0.requests <= s.requests + 88
  {
    CollectCost(server, Authenticate(server, s, username, password).0, username);
  }

  /** With full pages a whole session stays within 89 of the 100 requests, however it ends. */
  lemma SessionBudget(server: Server, username: string, password: string)
    requires FullPages(server)
    ensures Run(server, username, password).0.requests <= 89
  {
    var s1 := Request(server, NEW_SESSION, "GET", "/", None).0;
    InventoryCost(server, Probe(server, s1).0, username, password);
  }

  // ----- What every run keeps -----

  lemma GetKeeps(server: Server, s: Session, path: string)
    requires Kept(s)
    ensures Kept(Get(server, s, path).0)
  {
    RequestKeeps(server, s, "GET", path, None);
  }

  lemma {:induction false} FetchKeeps(server: Server, s: Session, kind: string, found: seq<Item>, expected: Option<nat>)
    requires Kept(s) && |found| < MAX_ITEMS
    ensures Kept(Fetch(server, s, kind, found, expected).0)
    decreases MAX_ITEMS - |found|
  {
    var (after, reply) := Request(server, s, "GET", PagePath(kind, |found|), None);
    RequestKeeps(server, s, "GET", PagePath(kind, |found|), None);
    if reply.Ok? && Rows(reply.value).Ok? {
      var (total, batch) := Rows(reply.value).value;
      var grown := TakePage(found, expected, total, batch);
      if grown.Ok? && |grown.value| != total {
        AbsorbAppends(found, batch);
        FetchKeeps(server, after, kind, grown.value, Some(total));
      }
    }
  }

  lemma FetchAllKeeps(server: Server, s: Session)
    requires Kept(s)
    ensures Kept(FetchAll(server, s).0)
  {
    var (s1, users) := FetchCollection(server, s, "users");
    FetchKeeps(server, s, "users", [], None);
    var (s2, roles) := FetchCollection(server, s1, "roles");
    FetchKeeps(server, s1, "roles", [], None);
    var (s3, policies) := FetchCollection(server, s2, "policies");
    FetchKeeps(server, s2, "policies", [], None);
    FetchKeeps(server, s3, "rules", [], None);
  }

  lemma CollectKeeps(server: Server, s: Session, username: string)
    requires Kept(s)
    ensures Kept(Collect(server, s, username).0)
  {
    ContextKeeps(server, s);
    var (s1, context) := ReadContext(server, s);
    FetchAllKeeps(server, s1);
    var (s2, first) := FetchAll(server, s1);
    if context.Ok? && first.Ok? {
      ReadAgainKeeps(server, s2, context.value, first.value);
    }
  }

  lemma ReadAgainKeeps(server: Server, s: Session, context: Context, first: Catalog)
    requires Kept(s)
    ensures Kept(ReadAgain(server, s, context, first).0)
  {
    FetchAllKeeps(server, s);
    RecheckKeeps(server, FetchAll(server, s).0, context);
  }

  lemma ContextKeeps(server: Server, s: Session)
    requires Kept(s)
    ensures Kept(ReadContext(server, s).0)
  {
    GetKeeps(server, s, "/");
    var s1 := Get(server, s, "/").0;
    GetKeeps(server, s1, ME);
    var s2 := Get(server, s1, ME).0;
    GetKeeps(server, s2, MY_POLICIES);
    GetKeeps(server, Get(server, s2, MY_POLICIES).0, CONFIG);
  }

  lemma RecheckKeeps(server: Server, s: Session, context: Context)
    requires Kept(s)
    ensures Kept(Recheck(server, s, context).0)
  {
    GetKeeps(server, s, CONFIG);
    var s1 := Get(server, s, CONFIG).0;
    GetKeeps(server, s1, MY_POLICIES);
    GetKeeps(server, Get(server, s1, MY_POLICIES).0, ME);
  }

  lemma InventoryKeeps(server: Server, s: Session, username: string, password: string)
    requires Kept(s)
    ensures Kept(Inventory(server, s, username, password).0) && Inventory(server, s, username, password).0.token.None?
  {
    AuthenticateKeeps(server, s, username, password);
    CollectKeeps(server, Authenticate(server, s, username, password).0, username);
    assert forall u: Session :: Kept(u) ==> Kept(u.(token := None));
  }

  /** A whole run keeps the session's promises against any server, and ends without a token. */
  lemma RunKeeps(server: Server, username: string, password: string)
    ensures Kept(Run(server, username, password).0) && Run(server, username, password).0.token.None?
  {
    NewSessionKeeps();
    RequestKeeps(server, NEW_SESSION, "GET", "/", None);
    var s1 := Request(server, NEW_SESSION, "GET", "/", None).0;
    ProbeKeeps(server, s1);
    InventoryKeeps(server, Probe(server, s1).0, username, password);
  }

  /** The wire from `from` on starts with a GET of `path` that carried the token and brought `data`. */
  ghost predicate Brought(server: Server, wire: seq<Connection>, from: nat, token: string, path: string, data: Data) {
    && from < |wire| && wire[from] == Connection(HOSTNAME, "GET", path, Some(FINGERPRINT), Some(Bearer(token)))
    && var reply := server.reply(from, "GET", path, Bearer(token));
    reply.Answer? && reply.status == 200 && reply.data == Ok(data)
  }

  lemma GetBrings(server: Server, s: Session, path: string)
    requires s.token.Some? && Get(server, s, path).1.Ok?
    ensures var (after, r) := Get(server, s, path);
            && after.token == s.token && |after.wire| == |s.wire| + 1 && after.wire[..|s.wire|] == s.wire
            && Brought(server, after.wire, |s.wire|, s.token.value, path, r.value)
  {
    RequestSucceedsExactly(server, s, "GET", path, None, Some(Get(server, s, path).1.value));
  }

  lemma BroughtStays(server: Server, wire: seq<Connection>, later: seq<Connection>, from: nat, token: string, path: string, data: Data)
    requires Brought(server, wire, from, token, path, data) && |wire| <= |later| && later[..|wire|] == wire
    ensures Brought(server, later, from, token, path, data)
  {
    assert later[from] == later[..|wire|][from];
  }

  /** What precedes the catalog: the pinned version, then the user, the user's policies and the configuration, as answered. */
  lemma ContextOnWire(server: Server, s: Session) returns (version: Data)
    requires s.token.Some? && ReadContext(server, s).1.Ok?
    ensures var (after, context) := ReadContext(server, s);
            var n, token := |s.wire|, s.token.value;
            && |after.wire| == n + 4 && after.wire[..n] == s.wire && after.token == s.token
            && Brought(server, after.wire, n, token, "/", version) && version.apiVersion == Some(API_VERSION)
            && Brought(server, after.wire, n + 1, token, ME, context.value.current)
            && Brought(server, after.wire, n + 2, token, MY_POLICIES, context.value.processed)
            && Brought(server, after.wire, n + 3, token, CONFIG, context.value.config)
  {
    var token := s.token.value;
    var (s1, v) := Get(server, s, "/");
    version := v.value;
    GetBrings(server, s, "/");
    var (s2, current) := Get(server, s1, ME);
    GetBrings(server, s1, ME);
    var (s3, processed) := Get(server, s2, MY_POLICIES);
    GetBrings(server, s2, MY_POLICIES);
    var (s4, config) := Get(server, s3, CONFIG);
    GetBrings(server, s3, CONFIG);
    Prefix3(s.wire, s1.wire, s2.wire, s3.wire, s4.wire);
    BroughtStays(server, s1.wire, s4.wire, |s.wire|, token, "/", version);
    BroughtStays(server, s2.wire, s4.wire, |s1.wire|, token, ME, current.value);
    BroughtStays(server, s3.wire, s4.wire, |s2.wire|, token, MY_POLICIES, processed.value);
  }

  lemma Prefix3<T>(a: seq<T>, b: seq<T>, c: seq<T>, d: seq<T>, e: seq<T>)
    requires a <= b <= c <= d <= e
    ensures e[..|a|] == a && e[..|b|] == b && e[..|c|] == c
  {
  }

  /** The last three reads ask for the same and bring the same as the first ones. */
  lemma RecheckOnWire(server: Server, s: Session, context: Context)
    requires s.token.Some? && Recheck(server, s, context).1.None?
    ensures var after := Recheck(server, s, context).0;
            var n, token := |s.wire|, s.token.value;
            && |after.wire| == n + 3 && after.wire[..n] == s.wire
            && Brought(server, after.wire, n, token, CONFIG, context.config)
            && Brought(server, after.wire, n + 1, token, MY_POLICIES, context.processed)
            && Brought(server, after.wire, n + 2, token, ME, context.current)
  {
    var token := s.token.value;
    var s1 := Get(server, s, CONFIG).0;
    GetBrings(server, s, CONFIG);
    var s2 := Get(server, s1, MY_POLICIES).0;
    GetBrings(server, s1, MY_POLICIES);
    var s3 := Get(server, s2, ME).0;
    GetBrings(server, s2, ME);
    Prefix3(s.wire, s.wire, s1.wire, s2.wire, s3.wire);
    BroughtStays(server, s1.wire, s3.wire, |s.wire|, token, CONFIG, context.config);
    BroughtStays(server, s2.wire, s3.wire, |s1.wire|, token, MY_POLICIES, context.processed);
  }

  /** An accepted inventory was read twice with equal results, in order, and meets every relationship. */
  lemma AcceptedInventory(server: Server, s: Session, username: string) returns (catalog: Catalog)
    requires Collect(server, s, username).1.Ok?
    ensures var (s1, context) := ReadContext(server, s);
            var (s2, first) := FetchAll(server, s1);
            var (s3, second) := FetchAll(server, s2);
            && context.Ok? && first == second == Ok(catalog) && Ordered(catalog)
            && Recheck(server, s3, context.value) == (Collect(server, s, username).0, None)
    ensures var summary := Collect(server, s, username).1.value;
            && SameLinks(catalog.users, catalog.roles, "users")
            && SameLinks(catalog.policies, catalog.roles, "policies")
            && SameLinks(catalog.rules, catalog.roles, "rules")
            && Link(summary.readonly, "policies").Some? && |summary.selected| == 13
            && HoldsTheTable(READONLY, catalog.policies, Link(summary.readonly, "policies").value, summary.selected)
  {
    var (s1, context) := ReadContext(server, s);
    var c := context.value;
    catalog := FetchAll(server, s1).1.value;
    FetchAllOrders(server, s1);
    AcceptedLinksAgree(catalog, c.current, c.processed, c.config, username);
    ReadonlyRoleIsPinned(catalog, c.current, c.processed, c.config, username);
  }
}
