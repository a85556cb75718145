/**
 What the two passes of collect in siem/rbac/collect_server_inventory.py show: every
 route is a value that others may change between any two connections.
 */
module InventorySnapshot {
  import opened Common
  import DoubleCollect
  import opened Relationships
  import opened RoleInventory
  import opened ServerClient
  import opened ServerInventory
  import opened ServerPaging

  // ----- Routes as registers over the connection number -----

  /** What a page of a collection is: the total it reports, and its items. */
  datatype Page = Page(total: int, items: seq<Item>)

  /** The page that a route would show on the n-th connection. */
  function PageShown(server: Server, token: string, path: string, n: nat): Option<Page> {
    var reply := server.reply(n, "GET", path, Bearer(token));
    if reply.Answer? && reply.data.Ok? && reply.data.value.total.Some? && reply.data.value.items.Some?
    then Some(Page(reply.data.value.total.value, reply.data.value.items.value)) else None
  }

  /** The data that a route would show on the n-th connection. */
  function DataShown(server: Server, token: string, path: string, n: nat): Option<Data> {
    var reply := server.reply(n, "GET", path, Bearer(token));
    if reply.Answer? && reply.data.Ok? then Some(reply.data.value) else None
  }

  /** What every route would show on any connection, to whoever holds the token. */
  function Pages(server: Server, token: string): (string, nat) -> Option<Page> {
    (path: string, n: nat) => PageShown(server, token, path, n)
  }

  function Singles(server: Server, token: string): (string, nat) -> Option<Data> {
    (path: string, n: nat) => DataShown(server, token, path, n)
  }

  function At<V>(shown: (string, nat) -> V, path: string): nat -> V { (n: nat) => shown(path, n) }

  /** No route of the allowlist goes back to an earlier answer. */
  ghost predicate NeverReturn<V(!new)>(shown: (string, nat) -> V) {
    forall path :: Allowed(path) ==> DoubleCollect.NeverReturns(At(shown, path))
  }

  lemma Between<V(!new)>(shown: (string, nat) -> V, path: string, n: nat, cut: nat, m: nat)
    requires NeverReturn(shown) && Allowed(path) && n <= cut <= m && shown(path, n) == shown(path, m)
    ensures shown(path, cut) == shown(path, n)
  {
    DoubleCollect.HeldBetween(At(shown, path), n, cut, m);
  }

  ghost predicate RoutesNeverReturn(server: Server, token: string) {
    NeverReturn(Pages(server, token)) && NeverReturn(Singles(server, token))
  }

  // ----- The pages that one read asks for -----

  /** The k-th page is asked for: the first always, and others while items are left. */
  predicate Requested(k: nat, size: nat) { k == 0 || PAGE_SIZE * k < size }

  function PageOf(list: seq<Item>, k: nat): Page
    requires PAGE_SIZE * k <= |list|
  {
    Page(|list|, list[PAGE_SIZE * k..if PAGE_SIZE * (k + 1) < |list| then PAGE_SIZE * (k + 1) else |list|])
  }

  /** The k-th page of the route shows that page of the list. */
  predicate ShowsPage(shown: (string, nat) -> Option<Page>, kind: string, list: seq<Item>, k: nat, n: nat)
    requires PAGE_SIZE * k <= |list|
  {
    shown(PagePath(kind, PAGE_SIZE * k), n) == Some(PageOf(list, k))
  }

  /** A read keeps what it has found. */
  lemma {:induction false} FetchExtends(server: Server, s: Session, kind: string, found: seq<Item>, expected: Option<nat>)
    requires |found| < MAX_ITEMS && Fetch(server, s, kind, found, expected).1.Ok?
    ensures found <= Fetch(server, s, kind, found, expected).1.value
    decreases MAX_ITEMS - |found|
  {
    var (mid, reply) := Request(server, s, "GET", PagePath(kind, |found|), None);
    var (total, batch) := Rows(reply.value).value;
    AbsorbAppends(found, batch);
    if |found + batch| != total {
      FetchExtends(server, mid, kind, found + batch, Some(total));
    }
  }

  /** The rest of a read after one page: it is over, or goes on from the next full page. */
  ghost predicate GoesOn(server: Server, s: Session, kind: string, found: seq<Item>, expected: Option<nat>, pages: nat,
                         mid: Session, grown: seq<Item>, total: nat)
    requires |found| < MAX_ITEMS
  {
    && pages < 9 && |grown| == PAGE_SIZE * (pages + 1) && Ascending(grown)
    && Fetch(server, mid, kind, grown, Some(total)) == Fetch(server, s, kind, found, expected)
  }

  /** A page that arrived is what its route showed on that connection. */
  lemma PageArrived(server: Server, s: Session, kind: string, offset: nat)
    requires s.token.Some? && Request(server, s, "GET", PagePath(kind, offset), None).1.Ok?
    requires Rows(Request(server, s, "GET", PagePath(kind, offset), None).1.value).Ok?
    ensures var (mid, reply) := Request(server, s, "GET", PagePath(kind, offset), None);
            var (total, batch) := Rows(reply.value).value;
            && Pages(server, s.token.value)(PagePath(kind, offset), |s.wire|) == Some(Page(total, batch))
            && mid.token == s.token && |mid.wire| == |s.wire| + 1
  {
    PageIsNotRoot(kind, offset);
    AnswerIsOnTheWire(server, s, PagePath(kind, offset));
  }

  /** One step: the page that it got is that page of the whole list. */
  lemma FetchStep(server: Server, s: Session, kind: string, found: seq<Item>, expected: Option<nat>, pages: nat)
    requires FullPages(server) && s.token.Some? && pages < 10 && |found| == PAGE_SIZE * pages
    requires Ascending(found) && Fetch(server, s, kind, found, expected).1.Ok?
    ensures var (mid, reply) := Request(server, s, "GET", PagePath(kind, |found|), None);
            && reply.Ok? && Rows(reply.value).Ok?
            && var list := Fetch(server, s, kind, found, expected).1.value;
            var (total, batch) := Rows(reply.value).value;
            && PAGE_SIZE * pages <= |list| && PageOf(list, pages) == Page(total, batch)
            && (PAGE_SIZE * (pages + 1) < |list| ==> GoesOn(server, s, kind, found, expected, pages, mid, found + batch, total))
  {
    var (mid, reply) := Request(server, s, "GET", PagePath(kind, |found|), None);
    var (total, batch) := Rows(reply.value).value;
    FullPageTaken(server, s, kind, found, expected);
    AbsorbAppends(found, batch);
    AbsorbOrders(found, batch);
    FetchExtends(server, s, kind, found, expected);
    var list := Fetch(server, s, kind, found, expected).1.value;
    if |found + batch| != total {
      FetchExtends(server, mid, kind, found + batch, Some(total));
      FetchAccounts(server, mid, kind, found + batch, Some(total));
    }
    TakesPage(list, found, batch, pages);
  }

  lemma TakesPage(list: seq<Item>, found: seq<Item>, batch: seq<Item>, pages: nat)
    requires |found| == PAGE_SIZE * pages && |batch| <= PAGE_SIZE && found + batch <= list
    requires |batch| == PAGE_SIZE || list == found + batch
    ensures PageOf(list, pages) == Page(|list|, batch)
  {
    assert list[..|found + batch|][|found|..] == batch;
  }

  /** The k-th page of a read with full pages arrived on some connection of that read. */
  lemma {:induction false} FetchShows(server: Server, s: Session, kind: string, found: seq<Item>, expected: Option<nat>, pages: nat, k: nat)
    returns (n: nat)
    requires FullPages(server) && s.token.Some? && pages <= k && pages < 10 && |found| == PAGE_SIZE * pages
    requires Ascending(found) && Fetch(server, s, kind, found, expected).1.Ok?
    requires k == pages || PAGE_SIZE * k < |Fetch(server, s, kind, found, expected).1.value|
    ensures var (after, r) := Fetch(server, s, kind, found, expected);
            && |s.wire| <= n < |after.wire|
            && PAGE_SIZE * k <= |r.value| && ShowsPage(Pages(server, s.token.value), kind, r.value, k, n)
    decreases 10 - pages
  {
    FetchStep(server, s, kind, found, expected, pages);
    PageArrived(server, s, kind, |found|);
    var (mid, reply) := Request(server, s, "GET", PagePath(kind, |found|), None);
    var (total, batch) := Rows(reply.value).value;
    if k == pages {
      FetchAccounts(server, s, kind, found, expected);
      n := |s.wire|;
    } else {
      n := FetchShows(server, mid, kind, found + batch, Some(total), pages + 1, k);
    }
  }

  // ----- Two reads of one collection -----

  /** Every page that was asked for shows the list. */
  ghost predicate ShowsList(shown: (string, nat) -> Option<Page>, kind: string, list: seq<Item>, n: nat) {
    forall k: nat :: Requested(k, |list|) ==> PAGE_SIZE * k <= |list| && ShowsPage(shown, kind, list, k, n)
  }

  /** A list that is read before and after a connection is what the routes showed at it. */
  lemma ReadTwiceShown(server: Server, s: Session, u: Session, kind: string, cut: nat)
    requires FullPages(server) && s.token.Some? && u.token == s.token && RoutesNeverReturn(server, s.token.value)
    requires kind in COLLECTIONS
    requires FetchCollection(server, s, kind).1.Ok? && FetchCollection(server, u, kind).1 == FetchCollection(server, s, kind).1
    requires |FetchCollection(server, s, kind).0.wire| <= cut <= |u.wire|
    ensures ShowsList(Pages(server, s.token.value), kind, FetchCollection(server, s, kind).1.value, cut)
  {
    var list := FetchCollection(server, s, kind).1.value;
    FetchSize(server, s, kind, [], None);
    forall k: nat | Requested(k, |list|)
      ensures PAGE_SIZE * k <= |list| && ShowsPage(Pages(server, s.token.value), kind, list, k, cut)
    {
      PagesAllowed(kind, PAGE_SIZE * k);
      var n := FetchShows(server, s, kind, [], None, 0, k);
      var m := FetchShows(server, u, kind, [], None, 0, k);
      Between(Pages(server, s.token.value), PagePath(kind, PAGE_SIZE * k), n, cut, m);
    }
  }

  // ----- The whole inventory -----

  /** All four collections show the catalog. */
  ghost predicate ShowsCatalog(shown: (string, nat) -> Option<Page>, catalog: Catalog, n: nat) {
    && ShowsList(shown, "users", catalog.users, n) && ShowsList(shown, "roles", catalog.roles, n)
    && ShowsList(shown, "policies", catalog.policies, n) && ShowsList(shown, "rules", catalog.rules, n)
  }

  /** Where one collection's read ends, and what it keeps. */
  lemma FetchGrows(server: Server, s: Session, kind: string)
    requires FetchCollection(server, s, kind).1.Ok?
    ensures var after := FetchCollection(server, s, kind).0; |s.wire| < |after.wire| && after.token == s.token
  {
    FetchAccounts(server, s, kind, [], None);
  }

  lemma CatalogReadTwice(server: Server, s: Session)
    requires FullPages(server) && s.token.Some? && RoutesNeverReturn(server, s.token.value)
    requires var (mid, first) := FetchAll(server, s); first.Ok? && FetchAll(server, mid).1 == first
    ensures var (mid, first) := FetchAll(server, s);
            mid.token == s.token && |s.wire| < |mid.wire| < |FetchAll(server, mid).0.wire|
            && FetchAll(server, mid).0.token == s.token
            && ShowsCatalog(Pages(server, s.token.value), first.value, |mid.wire|)
  {
    var s1 := FetchCollection(server, s, "users").0;
    var s2 := FetchCollection(server, s1, "roles").0;
    var s3 := FetchCollection(server, s2, "policies").0;
    var mid := FetchCollection(server, s3, "rules").0;
    FetchGrows(server, s, "users");
    FetchGrows(server, s1, "roles");
    FetchGrows(server, s2, "policies");
    FetchGrows(server, s3, "rules");
    var u1 := FetchCollection(server, mid, "users").0;
    var u2 := FetchCollection(server, u1, "roles").0;
    var u3 := FetchCollection(server, u2, "policies").0;
    FetchGrows(server, mid, "users");
    FetchGrows(server, u1, "roles");
    FetchGrows(server, u2, "policies");
    FetchGrows(server, u3, "rules");
    ReadTwiceShown(server, s, mid, "users", |mid.wire|);
    ReadTwiceShown(server, s1, u1, "roles", |mid.wire|);
    ReadTwiceShown(server, s2, u2, "policies", |mid.wire|);
    ReadTwiceShown(server, s3, u3, "rules", |mid.wire|);
  }

  /** The single reads in the order of the first pass, and what they gave. */
  function SinglePath(i: nat): string
    requires i < 3
  {
    if i == 0 then ME else if i == 1 then MY_POLICIES else CONFIG
  }

  lemma SingleAllowed(i: nat)
    requires i < 3
    ensures Allowed(SinglePath(i))
  {
    assert SINGLE_READS[1] == CONFIG && SINGLE_READS[2] == ME && SINGLE_READS[3] == MY_POLICIES;
  }

  function Single(c: Context, i: nat): Data
    requires i < 3
  {
    if i == 0 then c.current else if i == 1 then c.processed else c.config
  }

  /** The single reads show the context. */
  ghost predicate ShowsContext(shown: (string, nat) -> Option<Data>, c: Context, n: nat) {
    forall i: nat :: i < 3 ==> shown(SinglePath(i), n) == Some(Single(c, i))
  }

  /** The connections after the n-th showed the context in order, and those from the m-th on in reverse order. */
  ghost predicate ContextRead(shown: (string, nat) -> Option<Data>, c: Context, n: nat) {
    forall i: nat :: i < 3 ==> shown(SinglePath(i), n + 1 + i) == Some(Single(c, i))
  }

  ghost predicate ContextConfirmed(shown: (string, nat) -> Option<Data>, c: Context, m: nat) {
    forall i: nat :: i < 3 ==> shown(SinglePath(i), m + 2 - i) == Some(Single(c, i))
  }

  /**
   With full pages, and if no route goes back to an earlier answer, everything that an
   accepted collection rests on was there together at the connection between its two
   passes: every page that was asked for, the configuration, and the user with its policies.
   */
  lemma CollectedTogether(server: Server, s: Session, username: string)
    requires FullPages(server) && s.token.Some? && RoutesNeverReturn(server, s.token.value)
    requires Collect(server, s, username).1.Ok?
    ensures var token := s.token.value;
            var (s1, context) := ReadContext(server, s);
            var (s2, first) := FetchAll(server, s1);
            && context.Ok? && first.Ok? && |s.wire| < |s2.wire| < |Collect(server, s, username).0.wire|
            && ShowsCatalog(Pages(server, token), first.value, |s2.wire|)
            && ShowsContext(Singles(server, token), context.value, |s2.wire|)
  {
    var catalog := AcceptedInventory(server, s, username);
    var (s1, context) := ReadContext(server, s);
    var version := ContextOnWire(server, s);
    var s2 := FetchAll(server, s1).0;
    CatalogReadTwice(server, s1);
    var s3 := FetchAll(server, s2).0;
    RecheckOnWire(server, s3, context.value);
    ContextShown(server, s);
    RecheckShown(server, s3, context.value);
    ContextBetween(Singles(server, s.token.value), |s.wire|, |s2.wire|, |s3.wire|, context.value);
  }

  /** A read that brought data shows it. */
  lemma BroughtIsShown(server: Server, wire: seq<Connection>, n: nat, token: string, path: string, data: Data)
    ensures Brought(server, wire, n, token, path, data) ==> Singles(server, token)(path, n) == Some(data)
  {
  }

  lemma ContextShown(server: Server, s: Session)
    requires s.token.Some? && ReadContext(server, s).1.Ok?
    ensures ContextRead(Singles(server, s.token.value), ReadContext(server, s).1.value, |s.wire|)
  {
    var version := ContextOnWire(server, s);
    var (after, context) := ReadContext(server, s);
    var n, token, c := |s.wire|, s.token.value, context.value;
    BroughtIsShown(server, after.wire, n + 1, token, ME, c.current);
    BroughtIsShown(server, after.wire, n + 2, token, MY_POLICIES, c.processed);
    BroughtIsShown(server, after.wire, n + 3, token, CONFIG, c.config);
  }

  lemma RecheckShown(server: Server, s: Session, c: Context)
    requires s.token.Some? && Recheck(server, s, c).1.None?
    ensures ContextConfirmed(Singles(server, s.token.value), c, |s.wire|)
  {
    RecheckOnWire(server, s, c);
    var after := Recheck(server, s, c).0;
    forall i: nat | i < 3
      ensures Singles(server, s.token.value)(SinglePath(i), |s.wire| + 2 - i) == Some(Single(c, i))
    {
      BroughtIsShown(server, after.wire, |s.wire| + 2 - i, s.token.value, SinglePath(i), Single(c, i));
    }
  }

  /** What was read before the catalog and confirmed after it is what the routes showed in between. */
  lemma ContextBetween(shown: (string, nat) -> Option<Data>, n: nat, cut: nat, m: nat, c: Context)
    requires NeverReturn(shown) && n + 3 <= cut <= m && ContextRead(shown, c, n) && ContextConfirmed(shown, c, m)
    ensures ShowsContext(shown, c, cut)
  {
    forall i: nat | i < 3 ensures shown(SinglePath(i), cut) == Some(Single(c, i)) {
      SingleAllowed(i);
      Between(shown, SinglePath(i), n + 1 + i, cut, m + 2 - i);
    }
  }
}
