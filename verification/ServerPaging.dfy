/** fetch_collection in siem/rbac/collect_server_inventory.py: one collection, page by page. */
module ServerPaging {
  import opened Common
  import opened ServerBody
  import opened ServerClient

  const ID_LIMIT := 0x8000_0000

  // ----- Pages -----

  /** `rows`: a complete result has a total of 0 to 1000 and a list of items. */
  function Rows(reply: Option<Data>): Result<(nat, seq<Item>), string> {
    if reply.None? || !reply.value.clean then Err("PARTIAL_RESULT")
    else if reply.value.total.None? || !(0 <= reply.value.total.value <= MAX_ITEMS) || reply.value.items.None? then
      Err("PAGE_SHAPE")
    else Ok((reply.value.total.value, reply.value.items.value))
  }

  /** The identifier of the last item found, or 0. */
  function LastId(found: seq<Item>): int {
    if found == [] || found[|found| - 1].id.None? then 0 else found[|found| - 1].id.value
  }

  /** Appends a page's items: each must be an object with an identifier above the last one. */
  function Absorb(found: seq<Item>, batch: seq<Item>): Result<seq<Item>, string>
    decreases |batch|
  {
    if batch == [] then Ok(found)
    else if !batch[0].isObject then Err("ITEM_SHAPE")
    else if batch[0].id.None? || !(LastId(found) < batch[0].id.value < ID_LIMIT) then Err("PAGE_ORDER")
    else Absorb(found + [batch[0]], batch[1..])
  }

  /** The checks on one page, given what is found and the total that earlier pages reported. */
  function TakePage(found: seq<Item>, expected: Option<nat>, total: nat, batch: seq<Item>): Result<seq<Item>, string> {
    if (expected.Some? && total != expected.value) || |batch| > PAGE_SIZE then Err("PAGINATION_DRIFT")
    else if batch == [] && |found| != total then Err("EMPTY_PAGE")
    else
      var grown := Absorb(found, batch);
      if grown.Ok? && |grown.value| > total then Err("PAGE_OVERFLOW") else grown
  }

  lemma {:induction false} AbsorbAppends(found: seq<Item>, batch: seq<Item>)
    requires Absorb(found, batch).Ok?
    ensures Absorb(found, batch).value == found + batch
    decreases |batch|
  {
    if batch == [] {
      assert found + batch == found;
    } else {
      AbsorbAppends(found + [batch[0]], batch[1..]);
      assert (found + [batch[0]]) + batch[1..] == found + batch;
    }
  }

  // ----- The loop -----

  function Fetch(server: Server, s: Session, kind: string, found: seq<Item>, expected: Option<nat>): (Session, Result<seq<Item>, string>)
    requires |found| < MAX_ITEMS
    decreases MAX_ITEMS - |found|
  {
    var (after, reply) := Request(server, s, "GET", PagePath(kind, |found|), None);
    if reply.Err? then (after, Err(reply.error))
    else
      var rows := Rows(reply.value);
      if rows.Err? then (after, Err(rows.error))
      else
        var (total, batch) := rows.value;
        var grown := TakePage(found, expected, total, batch);
        if grown.Err? || |grown.value| == total then (after, grown)
        else
          AbsorbAppends(found, batch);
          Fetch(server, after, kind, grown.value, Some(total))
  }

  function FetchCollection(server: Server, s: Session, kind: string): (Session, Result<seq<Item>, string>) {
    if kind !in COLLECTIONS then (s, Err("ROUTE_DENIED")) else Fetch(server, s, kind, [], None)
  }

  /** The loop over a page's items. */
  method AbsorbPage(found: seq<Item>, batch: seq<Item>) returns (r: Result<seq<Item>, string>)
    ensures r == Absorb(found, batch)
  {
    var grown, last := found, LastId(found);
    assert batch[0..] == batch;
    for i := 0 to |batch|
      invariant last == LastId(grown) && Absorb(grown, batch[i..]) == Absorb(found, batch)
    {
      assert batch[i..][1..] == batch[i + 1..];
      if !batch[i].isObject {
        return Err("ITEM_SHAPE");
      }
      if batch[i].id.None? || !(last < batch[i].id.value < ID_LIMIT) {
        return Err("PAGE_ORDER");
      }
      last := batch[i].id.value;
      grown := grown + [batch[i]];
    }
    r := Ok(grown);
  }

  /** `fetch_collection`; it stops whatever the server answers. */
  method ReadCollection(client: Client, kind: string) returns (r: Result<seq<Item>, string>)
    modifies client
    ensures (client.State(), r) == FetchCollection(client.server, old(client.State()), kind)
  {
    if kind !in COLLECTIONS {
      return Err("ROUTE_DENIED");
    }
    var found: seq<Item> := [];
    var expected: Option<nat> := None;
    ghost var whole := Fetch(client.server, client.State(), kind, [], None);
    while true
      invariant |found| < MAX_ITEMS && Fetch(client.server, client.State(), kind, found, expected) == whole
      decreases MAX_ITEMS - |found|
    {
      var reply := client.Send("GET", PagePath(kind, |found|), None);
      if reply.Err? {
        return Err(reply.error);
      }
      var rows := Rows(reply.value);
      if rows.Err? {
        return Err(rows.error);
      }
      var (total, batch) := rows.value;
      if expected.None? {
        expected := Some(total);
      }
      if total != expected.value || |batch| > PAGE_SIZE {
        return Err("PAGINATION_DRIFT");
      }
      if batch == [] && |found| != total {
        return Err("EMPTY_PAGE");
      }
      var grown := AbsorbPage(found, batch);
      if grown.Err? {
        return grown;
      }
      AbsorbAppends(found, batch);
      found := grown.value;
      if |found| > total {
        return Err("PAGE_OVERFLOW");
      }
      if |found| == total {
        return Ok(found);
      }
    }
  }

  // ----- What a result means -----

  /** Objects with identifiers of 1 to 2^31 - 1, strictly increasing. */
  ghost predicate Ascending(items: seq<Item>) {
    && (forall i :: 0 <= i < |items| ==> items[i].isObject && items[i].id.Some? && 0 < items[i].id.value < ID_LIMIT)
    && (forall i, j :: 0 <= i < j < |items| ==> items[i].id.value < items[j].id.value)
  }

  lemma {:induction false} AbsorbOrders(found: seq<Item>, batch: seq<Item>)
    requires Ascending(found)
    ensures Absorb(found, batch).Ok? <==> Ascending(found + batch)
    decreases |batch|
  {
    if batch == [] {
      assert found + batch == found;
    } else {
      var grown := found + [batch[0]];
      assert found + batch == grown + batch[1..];
      if batch[0].isObject && batch[0].id.Some? && LastId(found) < batch[0].id.value < ID_LIMIT {
        assert Ascending(grown);
        AbsorbOrders(grown, batch[1..]);
      } else {
        assert (found + batch)[|found|] == batch[0];
        assert found != [] ==> (found + batch)[|found| - 1] == found[|found| - 1];
      }
    }
  }

  /**
   The connections `from` onwards are exactly the page requests of one read: each asks for
   the page that starts where the earlier ones ended, each reply reports `total`, and their
   items, in order, are what `items` has beyond `found`.
   */
  ghost predicate Accounts(server: Server, wire: seq<Connection>, from: nat, kind: string, found: seq<Item>,
                           items: seq<Item>, total: nat)
    requires from <= |wire|
    decreases |wire| - from
  {
    if from == |wire| then found == items
    else
      var c := wire[from];
      && c.verb == "GET" && c.path == PagePath(kind, |found|) && c.sent.Some?
      && var reply := server.reply(from, c.verb, c.path, c.sent.value);
      reply.Answer? && reply.data.Ok? && reply.data.value.clean && reply.data.value.total == Some(total)
      && reply.data.value.items.Some? && |reply.data.value.items.value| <= PAGE_SIZE
      && Accounts(server, wire, from + 1, kind, found + reply.data.value.items.value, items, total)
  }

  /** A request that gave data sent its header on the next connection and got that data. */
  lemma AnswerIsOnTheWire(server: Server, s: Session, path: string)
    requires path != "/" && Request(server, s, "GET", path, None).1.Ok?
    ensures var (after, reply) := Request(server, s, "GET", path, None);
            && after.wire[..|s.wire|] == s.wire && |after.wire| == |s.wire| + 1
            && var c := after.wire[|s.wire|];
            c.verb == "GET" && c.path == path && c.sent.Some? && after.token == s.token
            && server.reply(|s.wire|, "GET", path, c.sent.value).Answer?
            && reply.value.Some? && server.reply(|s.wire|, "GET", path, c.sent.value).data == Ok(reply.value.value)
  {
  }

  lemma {:induction false} FetchAccounts(server: Server, s: Session, kind: string, found: seq<Item>, expected: Option<nat>)
    requires |found| < MAX_ITEMS && Ascending(found)
    requires Fetch(server, s, kind, found, expected).1.Ok?
    ensures var (after, r) := Fetch(server, s, kind, found, expected);
            && Ascending(r.value) && |s.wire| < |after.wire| && after.wire[..|s.wire|] == s.wire
            && after.token == s.token
            && Accounts(server, after.wire, |s.wire|, kind, found, r.value, |r.value|)
            && (expected.Some? ==> expected.value == |r.value|)
    decreases MAX_ITEMS - |found|
  {
    var path := PagePath(kind, |found|);
    PageIsNotRoot(kind, |found|);
    AnswerIsOnTheWire(server, s, path);
    var (mid, reply) := Request(server, s, "GET", path, None);
    var (total, batch) := Rows(reply.value).value;
    var (after, r) := Fetch(server, s, kind, found, expected);
    AbsorbAppends(found, batch);
    AbsorbOrders(found, batch);
    if |found + batch| != total {
      FetchAccounts(server, mid, kind, found + batch, Some(total));
      assert after.wire[..|s.wire|] == after.wire[..|mid.wire|][..|s.wire|];
      assert after.wire[|s.wire|] == after.wire[..|mid.wire|][|s.wire|];
    }
  }

  /** Whatever the server answers, a result is ordered and is what pages with one fixed total held. */
  lemma CollectionIsWhatPagesHeld(server: Server, s: Session, kind: string)
    requires FetchCollection(server, s, kind).1.Ok?
    ensures var (after, r) := FetchCollection(server, s, kind);
            && Ascending(r.value) && |r.value| <= MAX_ITEMS
            && |s.wire| < |after.wire| && after.wire[..|s.wire|] == s.wire
            && Accounts(server, after.wire, |s.wire|, kind, [], r.value, |r.value|)
  {
    FetchAccounts(server, s, kind, [], None);
    FetchSize(server, s, kind, [], None);
  }

  lemma {:induction false} FetchSize(server: Server, s: Session, kind: string, found: seq<Item>, expected: Option<nat>)
    requires |found| < MAX_ITEMS && Fetch(server, s, kind, found, expected).1.Ok?
    ensures |Fetch(server, s, kind, found, expected).1.value| <= MAX_ITEMS
    decreases MAX_ITEMS - |found|
  {
    var (mid, reply) := Request(server, s, "GET", PagePath(kind, |found|), None);
    var (total, batch) := Rows(reply.value).value;
    AbsorbAppends(found, batch);
    if |found + batch| != total {
      FetchSize(server, mid, kind, found + batch, Some(total));
    }
  }

  /** No page of a known collection is refused by the allowlist: the offsets stay below its bound. */
  lemma {:induction false} OffsetsStayAllowed(server: Server, s: Session, kind: string, found: seq<Item>, expected: Option<nat>)
    requires kind in COLLECTIONS && |found| < MAX_ITEMS
    ensures Fetch(server, s, kind, found, expected).1 != Err("ROUTE_DENIED")
    decreases MAX_ITEMS - |found|
  {
    PagesAllowed(kind, |found|);
    var (mid, reply) := Request(server, s, "GET", PagePath(kind, |found|), None);
    NeverRouteDenied(server, s, PagePath(kind, |found|));
    if reply.Ok? && Rows(reply.value).Ok? {
      var (total, batch) := Rows(reply.value).value;
      AbsorbErrors(found, batch);
      var grown := TakePage(found, expected, total, batch);
      if grown.Ok? && |grown.value| != total {
        AbsorbAppends(found, batch);
        OffsetsStayAllowed(server, mid, kind, grown.value, Some(total));
      }
    }
  }

  lemma NeverRouteDenied(server: Server, s: Session, path: string)
    requires Allowed(path)
    ensures Request(server, s, "GET", path, None).1 != Err("ROUTE_DENIED")
  {
    var auth := AuthHeader(s, None);
    match server.response(|s.wire|, "GET", path, auth)
    case Silent =>
    case Headers(status, identityEncoding, json, framing, body) =>
      ReceivedCodes(framing, body);
      assert "ROUTE_DENIED" !in CODES;
  }

  lemma {:induction false} AbsorbErrors(found: seq<Item>, batch: seq<Item>)
    ensures Absorb(found, batch).Err? ==> Absorb(found, batch).error in ["ITEM_SHAPE", "PAGE_ORDER"]
    decreases |batch|
  {
    if batch != [] {
      AbsorbErrors(found + [batch[0]], batch[1..]);
    }
  }

  // ----- Servers that page a fixed list -----

  /** Where the page at `offset` ends when the server puts `size(offset)` items on it. */
  function PageCut(size: nat -> nat, offset: nat, n: nat): (cut: nat)
    requires offset <= n
    ensures offset <= cut <= n
  {
    if offset + size(offset) < n then offset + size(offset) else n
  }

  ghost predicate IsPage(reply: Reply, page: seq<Item>, total: nat) {
    reply.Answer? && reply.status == 200 && reply.identityEncoding && reply.json && reply.data.Ok?
    && reply.data.value.clean && reply.data.value.total == Some(total) && reply.data.value.items == Some(page)
  }

  /** The server pages one list, sorted by identifier, with page sizes of its own. */
  ghost predicate Serves(server: Server, kind: string, list: seq<Item>, size: nat -> nat) {
    && (forall n :: server.connect(n, HOSTNAME) == Presents(FINGERPRINT) && !server.late(n))
    && (forall offset :: 1 <= size(offset) <= PAGE_SIZE)
    && (forall n: nat, offset: nat, token: string :: offset <= |list| ==>
                                                       IsPage(server.reply(n, "GET", PagePath(kind, offset), Bearer(token)), list[offset..PageCut(size, offset, |list|)], |list|))
  }

  /** How many pages there are from `offset` on; an empty collection has one. */
  function Needed(size: nat -> nat, offset: nat, n: nat): nat
    requires offset <= n
    decreases n - offset
  {
    if size(offset) == 0 || n <= offset + size(offset) then 1 else 1 + Needed(size, offset + size(offset), n)
  }

  lemma {:induction false} FetchServed(server: Server, s: Session, kind: string, list: seq<Item>, size: nat -> nat,
                                       offset: nat, expected: Option<nat>)
    requires Serves(server, kind, list, size) && Ascending(list) && |list| <= MAX_ITEMS
    requires kind in COLLECTIONS && s.token.Some? && offset <= |list| && offset < MAX_ITEMS
    requires expected.Some? ==> expected.value == |list|
    requires s.requests + Needed(size, offset, |list|) <= MAX_REQUESTS
    ensures var (after, r) := Fetch(server, s, kind, list[..offset], expected);
            r == Ok(list) && after.requests == s.requests + Needed(size, offset, |list|) && after.token == s.token
    decreases |list| - offset
  {
    var path := PagePath(kind, offset);
    PagesAllowed(kind, offset);
    PageIsNotRoot(kind, offset);
    var cut := PageCut(size, offset, |list|);
    assert IsPage(server.reply(|s.wire|, "GET", path, Bearer(s.token.value)), list[offset..cut], |list|);
    PageArrives(server, s, path, list[offset..cut], |list|);
    PageIsTaken(list, offset, cut, expected);
    if cut == |list| {
      assert list[..cut] == list;
    } else {
      FetchServed(server, Request(server, s, "GET", path, None).0, kind, list, size, cut, Some(|list|));
    }
  }

  /** A page cut from the sorted list passes every check. */
  lemma PageIsTaken(list: seq<Item>, offset: nat, cut: nat, expected: Option<nat>)
    requires Ascending(list) && offset <= cut <= |list| && cut - offset <= PAGE_SIZE
    requires offset == cut ==> cut == |list|
    requires expected.Some? ==> expected.value == |list|
    ensures TakePage(list[..offset], expected, |list|, list[offset..cut]) == Ok(list[..cut])
  {
    var found, batch := list[..offset], list[offset..cut];
    assert found + batch == list[..cut];
    AbsorbOrders(found, batch);
    AbsorbAppends(found, batch);
  }

  /** A page that the server sends while the budget lasts is what `rows` sees. */
  lemma PageArrives(server: Server, s: Session, path: string, batch: seq<Item>, total: nat)
    requires Allowed(path) && path != "/" && s.token.Some? && s.requests < MAX_REQUESTS && total <= MAX_ITEMS
    requires server.connect(|s.wire|, HOSTNAME) == Presents(FINGERPRINT) && !server.late(|s.wire|)
    requires IsPage(server.reply(|s.wire|, "GET", path, Bearer(s.token.value)), batch, total)
    ensures var (after, reply) := Request(server, s, "GET", path, None);
            reply.Ok? && Rows(reply.value) == Ok((total, batch)) && after.requests == s.requests + 1 && after.token == s.token
  {
  }

  /** Against a server that pages a fixed sorted list, the client gets that list. */
  lemma ServedListIsReturned(server: Server, s: Session, kind: string, list: seq<Item>, size: nat -> nat)
    requires Serves(server, kind, list, size) && Ascending(list) && |list| <= MAX_ITEMS
    requires kind in COLLECTIONS && s.token.Some? && s.requests + Needed(size, 0, |list|) <= MAX_REQUESTS
    ensures FetchCollection(server, s, kind).1 == Ok(list)
    ensures FetchCollection(server, s, kind).0.requests == s.requests + Needed(size, 0, |list|)
  {
    assert list[..0] == [];
    FetchServed(server, s, kind, list, size, 0, None);
  }

  // ----- Full pages -----

  /** Every page holds 100 items or reaches the total that it reports. */
  ghost predicate FullPages(server: Server) {
    forall n: nat, kind: string, offset: nat, auth: Auth ::
      FullPage(server.reply(n, "GET", PagePath(kind, offset), auth), offset)
  }

  ghost predicate FullPage(reply: Reply, offset: nat) {
    reply.Answer? && reply.data.Ok? && reply.data.value.total.Some? && reply.data.value.items.Some? ==>
      |reply.data.value.items.value| >= PAGE_SIZE || offset + |reply.data.value.items.value| >= reply.data.value.total.value
  }

  /** A page that is not the last one is full. */
  lemma FullPageTaken(server: Server, s: Session, kind: string, found: seq<Item>, expected: Option<nat>)
    requires FullPages(server) && Request(server, s, "GET", PagePath(kind, |found|), None).1.Ok?
    requires var rows := Rows(Request(server, s, "GET", PagePath(kind, |found|), None).1.value);
             rows.Ok? && TakePage(found, expected, rows.value.0, rows.value.1).Ok?
    ensures var (total, batch) := Rows(Request(server, s, "GET", PagePath(kind, |found|), None).1.value).value;
            var grown := TakePage(found, expected, total, batch).value;
            |grown| <= total && (|grown| < total ==> |grown| == |found| + PAGE_SIZE)
  {
    PageIsNotRoot(kind, |found|);
    AnswerIsOnTheWire(server, s, PagePath(kind, |found|));
    var (after, reply) := Request(server, s, "GET", PagePath(kind, |found|), None);
    assert FullPage(server.reply(|s.wire|, "GET", PagePath(kind, |found|), after.wire[|s.wire|].sent.value), |found|);
    AbsorbAppends(found, Rows(reply.value).value.1);
  }

  lemma RequestCost(server: Server, s: Session, path: string)
    ensures s.requests <= Request(server, s, "GET", path, None).0.requests <= s.requests + 1
  {
  }

  lemma {:induction false} FetchCost(server: Server, s: Session, kind: string, found: seq<Item>, expected: Option<nat>, pages: nat)
    requires FullPages(server) && pages < 10 && |found| == PAGE_SIZE * pages
    ensures s.requests <= Fetch(server, s, kind, found, expected).0.requests <= s.requests + 10 - pages
    decreases 10 - pages
  {
    var (after, reply) := Request(server, s, "GET", PagePath(kind, |found|), None);
    RequestCost(server, s, PagePath(kind, |found|));
    if reply.Ok? && Rows(reply.value).Ok? {
      var (total, batch) := Rows(reply.value).value;
      var grown := TakePage(found, expected, total, batch);
      if grown.Ok? && |grown.value| != total {
        FullPageTaken(server, s, kind, found, expected);
        FetchCost(server, after, kind, grown.value, Some(total), pages + 1);
      }
    }
  }

  /** With full pages one collection takes at most ten requests. */
  lemma CollectionCost(server: Server, s: Session, kind: string)
    requires FullPages(server)
    ensures s.requests <= FetchCollection(server, s, kind).0.requests <= s.requests + 10
  {
    FetchCost(server, s, kind, [], None, 0);
  }
}
