/** summarize in siem/rbac/collect_server_inventory.py: the checks on a whole catalog, over its graph of links. */
module Relationships {
  import opened Common
  import opened ServerClient
  import opened ServerPaging

  /** The four collections, as the collector reads them. */
  datatype Catalog = Catalog(users: seq<Item>, roles: seq<Item>, policies: seq<Item>, rules: seq<Item>)

  ghost predicate Identified(items: seq<Item>) {
    forall i :: 0 <= i < |items| ==> items[i].id.Some?
  }

  /** Every item of a fetched collection has an identifier. */
  ghost predicate Fetched(catalog: Catalog) {
    Identified(catalog.users) && Identified(catalog.roles) && Identified(catalog.policies) && Identified(catalog.rules)
  }

  /** The order that fetch_collection establishes. */
  ghost predicate Ordered(catalog: Catalog) {
    Fetched(catalog)
    && Ascending(catalog.users) && Ascending(catalog.roles) && Ascending(catalog.policies) && Ascending(catalog.rules)
  }

  // ----- Lists of identifiers -----

  function Insert(x: int, sorted: seq<int>): (r: seq<int>)
    ensures multiset(r) == multiset{x} + multiset(sorted)
  {
    if sorted == [] || x <= sorted[0] then [x] + sorted
    else
      assert sorted == [sorted[0]] + sorted[1..];
      [sorted[0]] + Insert(x, sorted[1..])
  }

  function Sorted(xs: seq<int>): (r: seq<int>)
    ensures multiset(r) == multiset(xs)
  {
    if xs == [] then []
    else
      assert xs == [xs[0]] + xs[1..];
      Insert(xs[0], Sorted(xs[1..]))
  }

  /** `identifiers` */
  function Identifiers(value: Option<seq<int>>): Result<seq<int>, string> {
    if value.None? || exists i :: 0 <= i < |value.value| && !(0 < value.value[i] < ID_LIMIT) then Err("ID_LIST")
    else if !NoRepeats(value.value) then Err("DUPLICATE_ID")
    else Ok(Sorted(value.value))
  }

  lemma SortedHolds(xs: seq<int>, x: int)
    ensures x in Sorted(xs) <==> x in xs
  {
    assert x in Sorted(xs) <==> x in multiset(Sorted(xs));
    assert x in xs <==> x in multiset(xs);
  }

  function Link(item: Item, key: string): Option<seq<int>> {
    if key in item.links then Some(item.links[key]) else None
  }

  /** `{x['id']: x for x in items}`: the last item with an identifier wins. */
  function ById(items: seq<Item>): map<int, Item> {
    if items == [] then map[]
    else
      var last := items[|items| - 1];
      if last.id.Some? then ById(items[..|items| - 1])[last.id.value := last] else ById(items[..|items| - 1])
  }

  lemma {:induction false} ByIdFinds(items: seq<Item>, i: nat)
    requires Ascending(items) && i < |items|
    ensures items[i].id.value in ById(items) && ById(items)[items[i].id.value] == items[i]
  {
    var start := items[..|items| - 1];
    assert items == start + [items[|items| - 1]];
    assert forall j :: 0 <= j < |start| ==> start[j] == items[j];
    if i < |start| {
      ByIdFinds(start, i);
    }
  }

  lemma {:induction false} ByIdOnlyHolds(items: seq<Item>, id: int) returns (i: nat)
    requires id in ById(items)
    ensures i < |items| && items[i] == ById(items)[id] && items[i].id == Some(id)
  {
    var last := items[|items| - 1];
    if last.id == Some(id) {
      i := |items| - 1;
    } else {
      i := ByIdOnlyHolds(items[..|items| - 1], id);
    }
  }

  // ----- Links in both directions -----

  /** The first failure among the targets that the item `id` lists. */
  function LinkFailure(id: int, targets: seq<int>, others: map<int, Item>, back: string): Option<string> {
    if targets == [] then None
    else if targets[0] !in others then Some("RELATIONSHIP")
    else
      var listed := Identifiers(Link(others[targets[0]], back));
      if listed.Err? then Some(listed.error)
      else if id !in listed.value then Some("RELATIONSHIP")
      else LinkFailure(id, targets[1..], others, back)
  }

  function LinksFailure(items: seq<Item>, others: map<int, Item>, key: string, back: string): Option<string>
    requires Identified(items)
  {
    if items == [] then None
    else
      var targets := Identifiers(Link(items[0], key));
      if targets.Err? then Some(targets.error)
      else
        var failure := LinkFailure(items[0].id.value, targets.value, others, back);
        if failure.Some? then failure else LinksFailure(items[1..], others, key, back)
  }

  /** The two loops over one kind of item and the roles. */
  function EdgeFailure(items: seq<Item>, roles: seq<Item>, kind: string): Option<string>
    requires Identified(items) && Identified(roles)
  {
    var failure := LinksFailure(items, ById(roles), "roles", kind);
    if failure.Some? then failure else LinksFailure(roles, ById(items), kind, "roles")
  }

  ghost predicate LinksBack(item: Item, others: map<int, Item>, key: string, back: string)
    requires item.id.Some?
  {
    var targets := Identifiers(Link(item, key));
    targets.Ok? && forall x :: x in targets.value ==> ListsBack(item.id.value, x, others, back)
  }

  ghost predicate ListsBack(id: int, x: int, others: map<int, Item>, back: string) {
    x in others && Identifiers(Link(others[x], back)).Ok? && id in Identifiers(Link(others[x], back)).value
  }

  lemma {:induction false} LinkFailureExactly(id: int, targets: seq<int>, others: map<int, Item>, back: string)
    ensures LinkFailure(id, targets, others, back).None? <==> forall x :: x in targets ==> ListsBack(id, x, others, back)
  {
    if targets != [] {
      LinkFailureExactly(id, targets[1..], others, back);
      assert targets[0] in targets && forall x :: x in targets <==> x == targets[0] || x in targets[1..];
      assert LinkFailure(id, targets, others, back) ==
             if ListsBack(id, targets[0], others, back) then LinkFailure(id, targets[1..], others, back)
             else LinkFailure(id, targets, others, back);
    }
  }

  lemma {:induction false} LinksFailureExactly(items: seq<Item>, others: map<int, Item>, key: string, back: string)
    requires Identified(items)
    ensures LinksFailure(items, others, key, back).None? <==>
            forall i :: 0 <= i < |items| ==> LinksBack(items[i], others, key, back)
  {
    if items != [] {
      var targets := Identifiers(Link(items[0], key));
      if targets.Ok? {
        LinkFailureExactly(items[0].id.value, targets.value, others, back);
        assert LinksBack(items[0], others, key, back) <==> LinkFailure(items[0].id.value, targets.value, others, back).None?;
      }
      LinksFailureExactly(items[1..], others, key, back);
      assert forall i :: 1 <= i < |items| ==> items[i] == items[1..][i - 1];
    }
  }

  /** Every item has a valid list under `key`. */
  ghost predicate ListsValid(items: seq<Item>, key: string) {
    forall i :: 0 <= i < |items| ==> Identifiers(Link(items[i], key)).Ok?
  }

  /** Some item `a` lists `b` under `key`. */
  ghost predicate Edge(items: seq<Item>, key: string, a: int, b: int) {
    exists i :: 0 <= i < |items| && Lists(items[i], key, a, b)
  }

  ghost predicate Lists(item: Item, key: string, a: int, b: int) {
    item.id == Some(a) && Link(item, key).Some? && b in Link(item, key).value
  }

  /** What `items` list, `others` list back. */
  ghost predicate Mirrored(items: seq<Item>, others: seq<Item>, key: string, back: string) {
    forall a, b :: Edge(items, key, a, b) ==> Edge(others, back, b, a)
  }

  lemma EdgeIsMirrored(items: seq<Item>, others: seq<Item>, key: string, back: string, a: int, b: int)
    requires Ascending(items) && Ascending(others) && ListsValid(others, back)
    requires forall i :: 0 <= i < |items| ==> LinksBack(items[i], ById(others), key, back)
    requires Edge(items, key, a, b)
    ensures Edge(others, back, b, a)
  {
    var i :| 0 <= i < |items| && Lists(items[i], key, a, b);
    assert LinksBack(items[i], ById(others), key, back);
    SortedHolds(Link(items[i], key).value, b);
    EdgeIsListedBack(others, back, a, b);
  }

  /** Half of the agreement. */
  lemma MirroredExactly(items: seq<Item>, others: seq<Item>, key: string, back: string)
    requires Ascending(items) && Ascending(others) && ListsValid(items, key) && ListsValid(others, back)
    ensures LinksFailure(items, ById(others), key, back).None? <==> Mirrored(items, others, key, back)
  {
    LinksFailureExactly(items, ById(others), key, back);
    if LinksFailure(items, ById(others), key, back).None? {
      forall a, b | Edge(items, key, a, b) ensures Edge(others, back, b, a) {
        EdgeIsMirrored(items, others, key, back, a, b);
      }
    }
    if Mirrored(items, others, key, back) {
      forall i | 0 <= i < |items| ensures LinksBack(items[i], ById(others), key, back) {
        EdgesOfOneListedBack(items, others, key, back, i);
      }
    }
  }

  lemma EdgesOfOneListedBack(items: seq<Item>, others: seq<Item>, key: string, back: string, i: nat)
    requires Ascending(items) && Ascending(others) && ListsValid(items, key) && ListsValid(others, back) && i < |items|
    requires Mirrored(items, others, key, back)
    ensures LinksBack(items[i], ById(others), key, back)
  {
    var id := items[i].id.value;
    forall x | x in Identifiers(Link(items[i], key)).value ensures ListsBack(id, x, ById(others), back) {
      SortedHolds(Link(items[i], key).value, x);
      assert Lists(items[i], key, id, x);
      assert Edge(items, key, id, x);
      EdgeIsListedBack(others, back, id, x);
    }
  }

  lemma EdgeIsListedBack(others: seq<Item>, back: string, a: int, b: int)
    requires Ascending(others) && ListsValid(others, back)
    ensures Edge(others, back, b, a) <==> ListsBack(a, b, ById(others), back)
  {
    if Edge(others, back, b, a) {
      var i :| 0 <= i < |others| && Lists(others[i], back, b, a);
      ByIdFinds(others, i);
      SortedHolds(Link(others[i], back).value, a);
    }
    if ListsBack(a, b, ById(others), back) {
      var j := ByIdOnlyHolds(others, b);
      SortedHolds(Link(others[j], back).value, a);
      assert Lists(others[j], back, b, a);
    }
  }

  /** With ordered identifiers the check passes exactly when both sides record the same relation, in valid lists. */
  lemma EdgesAgreeExactly(items: seq<Item>, roles: seq<Item>, kind: string)
    requires Ascending(items) && Ascending(roles)
    ensures EdgeFailure(items, roles, kind).None? <==>
            && ListsValid(items, "roles") && ListsValid(roles, kind)
            && forall a, b :: Edge(items, "roles", a, b) <==> Edge(roles, kind, b, a)
  {
    LinksFailureExactly(items, ById(roles), "roles", kind);
    LinksFailureExactly(roles, ById(items), kind, "roles");
    if EdgeFailure(items, roles, kind).None? {
      assert ListsValid(items, "roles") && ListsValid(roles, kind);
    }
    if ListsValid(items, "roles") && ListsValid(roles, kind) {
      MirroredExactly(items, roles, "roles", kind);
      MirroredExactly(roles, items, kind, "roles");
    }
  }
}
