/**
 Which catalogs summarize in siem/rbac/collect_server_inventory.py accepts: all of its
 checks as one statement about the graph of users, roles, policies and rules.
 */
module InventoryAcceptance {
  import opened Common
  import opened Relationships
  import opened RoleInventory
  import opened ServerClient
  import opened ServerPaging

  // ----- Names -----

  /** `item` is the one item of the list with this name. */
  ghost predicate OnlyOne(items: seq<Item>, name: string, item: Item) {
    exists i :: 0 <= i < |items| && OnlyAt(items, name, i) && items[i] == item
  }

  ghost predicate OnlyAt(items: seq<Item>, name: string, i: int)
    requires 0 <= i < |items|
  {
    forall j :: 0 <= j < |items| ==> (items[j].name == Some(name) <==> j == i)
  }

  ghost predicate NoneNamed(items: seq<Item>, name: string) {
    forall i :: 0 <= i < |items| ==> items[i].name != Some(name)
  }

  lemma {:induction false} NoMatchExactly(items: seq<Item>, name: string)
    ensures Matching(items, name) == [] <==> NoneNamed(items, name)
  {
    if items != [] {
      NoMatchExactly(items[1..], name);
      assert forall i :: 0 < i < |items| ==> items[i] == items[1..][i - 1];
      assert forall i :: 0 <= i < |items[1..]| ==> items[1..][i] == items[i + 1];
    }
  }

  lemma OnlyOneSplits(items: seq<Item>, name: string, item: Item)
    requires items != []
    ensures OnlyOne(items, name, item) <==>
            if items[0].name == Some(name) then items[0] == item && NoneNamed(items[1..], name)
            else OnlyOne(items[1..], name, item)
  {
    var rest := items[1..];
    assert forall i :: 0 < i < |items| ==> items[i] == rest[i - 1];
    assert forall i :: 0 <= i < |rest| ==> rest[i] == items[i + 1];
    if i :| 0 <= i < |items| && OnlyAt(items, name, i) && items[i] == item {
      if i > 0 {
        assert items[0].name != Some(name);
        assert OnlyAt(rest, name, i - 1);
      }
    }
    if items[0].name == Some(name) && NoneNamed(rest, name) {
      assert OnlyAt(items, name, 0);
    }
    if items[0].name != Some(name) {
      if i :| 0 <= i < |rest| && OnlyAt(rest, name, i) && rest[i] == item {
        assert OnlyAt(items, name, i + 1);
      }
    }
  }

  lemma {:induction false} NamedExactly(items: seq<Item>, name: string, item: Item)
    ensures Named(items, name) == Some(item) <==> OnlyOne(items, name, item)
  {
    if items != [] {
      OnlyOneSplits(items, name, item);
      NoMatchExactly(items[1..], name);
      NamedExactly(items[1..], name, item);
    }
  }

  // ----- The parts of acceptance -----

  ghost predicate MayRead(processed: Data, action: string, resource: string) {
    action in processed.grants && resource in processed.grants[action] && processed.grants[action][resource] == "allow"
  }

  ghost predicate OnlyAllows(processed: Data, action: string) {
    action in processed.grants && forall r :: r in processed.grants[action] ==> processed.grants[action][r] == "allow"
  }

  /** White mode on both sides, and an unfiltered read of every security object and of the configuration. */
  ghost predicate UnfilteredReader(processed: Data, config: Data) {
    && config.rbacMode == Some("white") && processed.rbacMode == Some("white")
    && MayRead(processed, "security:read", "user:id:*") && MayRead(processed, "security:read", "role:id:*")
    && MayRead(processed, "security:read", "policy:id:*") && MayRead(processed, "security:read", "rule:id:*")
    && MayRead(processed, "security:read_config", "*:*:*")
    && OnlyAllows(processed, "security:read") && OnlyAllows(processed, "security:read_config")
  }

  ghost predicate AllNamed(catalog: Catalog) {
    NamesOk(catalog.users) && NamesOk(catalog.roles) && NamesOk(catalog.policies) && NamesOk(catalog.rules)
  }

  ghost predicate LinkedBothWays(items: seq<Item>, roles: seq<Item>, kind: string) {
    ListsValid(items, "roles") && ListsValid(roles, kind) && SameLinks(items, roles, kind)
  }

  ghost predicate AllLinked(catalog: Catalog) {
    && LinkedBothWays(catalog.users, catalog.roles, "users")
    && LinkedBothWays(catalog.policies, catalog.roles, "policies")
    && LinkedBothWays(catalog.rules, catalog.roles, "rules")
  }

  /** The answer about the caller is complete, and it is about this one user under this name. */
  ghost predicate IsCaller(current: Data, identity: Item, username: string) {
    && current.clean && current.total == Some(1) && current.items.Some? && |current.items.value| == 1
    && current.items.value[0].id == identity.id && current.items.value[0].name == Some(username)
  }

  ghost predicate HasRole(user: Item, role: Item) {
    role.id.Some? && Link(user, "roles").Some? && role.id.value in Link(user, "roles").value
  }

  /** What is to be created does not exist, and the one account that may run as others is the broker's. */
  ghost predicate RoomForService(users: seq<Item>, rules: seq<Item>, broker: Item) {
    && NoneNamed(users, "assistant-svc") && NoneNamed(rules, "alertmind_socanalyst_server_ro")
    && OnlyOne(users, "wazuh-wui", broker) && broker.runAs == Some(true)
    && forall i :: 0 <= i < |users| ==> users[i].runAs.Some?
  }

  /** A list of one or more strings of 1 to 512 characters. */
  ghost predicate StringList(value: Option<seq<string>>) {
    value.Some? && value.value != [] && forall i :: 0 <= i < |value.value| ==> 0 < |value.value[i]| <= 512
  }

  /** A policy definition with exactly its three members, an effect and two lists. */
  ghost predicate Definable(policy: Option<PolicyDef>) {
    && policy.Some? && policy.value.exactKeys && policy.value.effect in ["allow", "deny"]
    && StringList(policy.value.actions) && StringList(policy.value.resources)
  }

  /** The definition allows exactly the row's actions on the row's resources. */
  ghost predicate AllowsRow(policy: Option<PolicyDef>, row: Row) {
    && Definable(policy) && policy.value.effect == "allow"
    && (forall x :: x in policy.value.actions.value <==> x in row.actions)
    && (forall x :: x in policy.value.resources.value <==> x in row.resources)
  }

  /** The role lists 13 policies, and each is one of the catalog that allows what the row of its name does. */
  ghost predicate IsPinned(role: Item, policies: seq<Item>) {
    && Link(role, "policies").Some? && |Link(role, "policies").value| == 13
    && forall x :: x in Link(role, "policies").value ==> SomePinned(policies, x)
  }

  ghost predicate SomePinned(policies: seq<Item>, id: int) {
    exists i :: 0 <= i < |policies| && policies[i].id == Some(id) && OfTable(policies[i])
  }

  ghost predicate OfTable(policy: Item) {
    exists k :: 0 <= k < |READONLY| && policy.name == Some(READONLY[k].name) && AllowsRow(policy.policy, READONLY[k])
  }

  /** Every rule and every policy has a definition that can be recorded. */
  ghost predicate Recordable(rules: seq<Item>, policies: seq<Item>) {
    && (forall i :: 0 <= i < |rules| ==> rules[i].isRule)
    && (forall i :: 0 <= i < |policies| ==> Definable(policies[i].policy))
  }

  /** What is accepted of the catalog besides what is to be created. */
  ghost predicate Sound(catalog: Catalog, current: Data, processed: Data, config: Data, username: string,
                        admin: Item, readonly: Item, identity: Item)
  {
    && UnfilteredReader(processed, config) && AllNamed(catalog) && AllLinked(catalog)
    && OnlyOne(catalog.roles, "administrator", admin) && OnlyOne(catalog.roles, "readonly", readonly)
    && OnlyOne(catalog.users, username, identity)
    && IsCaller(current, identity, username) && HasRole(identity, admin)
    && IsPinned(readonly, catalog.policies) && Recordable(catalog.rules, catalog.policies)
  }

  ghost predicate AcceptableCatalog(catalog: Catalog, current: Data, processed: Data, config: Data, username: string,
                                    admin: Item, readonly: Item, identity: Item, broker: Item)
  {
    && Sound(catalog, current, processed, config, username, admin, readonly, identity)
    && RoomForService(catalog.users, catalog.rules, broker)
  }

  // ----- The checks decide them -----

  lemma ContextDecides(processed: Data, config: Data)
    ensures ContextFailure(processed, config).None? <==> UnfilteredReader(processed, config)
  {
    var four, one := ["user:id:*", "role:id:*", "policy:id:*", "rule:id:*"], ["*:*:*"];
    GrantsDecide(processed, "security:read", four);
    GrantsDecide(processed, "security:read_config", one);
    assert four[0] == "user:id:*" && four[1] == "role:id:*" && four[2] == "policy:id:*" && four[3] == "rule:id:*" && one[0] == "*:*:*";
  }

  lemma GrantsDecide(processed: Data, action: string, resources: seq<string>)
    requires resources != []
    ensures GrantsAll(processed, action, resources) <==>
            OnlyAllows(processed, action) && forall i :: 0 <= i < |resources| ==> MayRead(processed, action, resources[i])
  {
  }

  lemma LinksDecide(catalog: Catalog)
    requires Ordered(catalog)
    ensures LinksOf(catalog).None? <==> AllLinked(catalog)
  {
    EdgesDecide(catalog.users, catalog.roles, "users");
    EdgesDecide(catalog.policies, catalog.roles, "policies");
    EdgesDecide(catalog.rules, catalog.roles, "rules");
  }

  lemma EdgesDecide(items: seq<Item>, roles: seq<Item>, kind: string)
    requires Ascending(items) && Ascending(roles)
    ensures EdgeFailure(items, roles, kind).None? <==> LinkedBothWays(items, roles, kind)
  {
    EdgesAgreeExactly(items, roles, kind);
  }

  /** The part of the check that is about the operator, and the part that is about what is to be created. */
  lemma CallerDecides(admin: Item, identity: Item, current: Data, username: string)
    ensures var me := Rows(Some(current));
            IsCaller(current, identity, username) && HasRole(identity, admin) <==>
            && me.Ok? && me.value.0 == 1 && |me.value.1| == 1 && me.value.1[0].id == identity.id && me.value.1[0].name == Some(username)
            && admin.id.Some? && Link(identity, "roles").Some? && admin.id.value in Link(identity, "roles").value
  {
  }

  lemma RoomDecides(users: seq<Item>, rules: seq<Item>)
    ensures (Matching(users, "assistant-svc") == [] && Matching(rules, "alertmind_socanalyst_server_ro") == []
             && Named(users, "wazuh-wui").Some? && Named(users, "wazuh-wui").value.runAs == Some(true)
             && (forall i :: 0 <= i < |users| ==> users[i].runAs.Some?))
       <==> exists broker :: RoomForService(users, rules, broker)
  {
    NoMatchExactly(users, "assistant-svc");
    NoMatchExactly(rules, "alertmind_socanalyst_server_ro");
    var found := Named(users, "wazuh-wui");
    if found.Some? {
      NamedExactly(users, "wazuh-wui", found.value);
      assert RoomForService(users, rules, found.value) || !RoomForService(users, rules, found.value);
    }
    if broker :| RoomForService(users, rules, broker) {
      NamedExactly(users, "wazuh-wui", broker);
    }
  }

  lemma IdentityDecides(catalog: Catalog, admin: Item, identity: Item, current: Data, username: string)
    requires Ordered(catalog)
    ensures IdentityFailure(catalog, admin, identity, current, username).None? <==>
            && IsCaller(current, identity, username) && HasRole(identity, admin)
            && exists broker :: RoomForService(catalog.users, catalog.rules, broker)
  {
    CallerDecides(admin, identity, current, username);
    RoomDecides(catalog.users, catalog.rules);
  }

  lemma ShapeDecides(policy: Option<PolicyDef>)
    ensures PolicyShape(policy).Ok? <==> Definable(policy)
    ensures PolicyShape(policy).Ok? ==>
              PolicyShape(policy).value == Shape((set x | x in policy.value.actions.value), (set x | x in policy.value.resources.value), policy.value.effect)
  {
  }

  lemma RowDecides(policy: Option<PolicyDef>, row: Row)
    ensures PolicyShape(policy) == Ok(Pinned(row)) <==> AllowsRow(policy, row)
  {
    ShapeDecides(policy);
    if AllowsRow(policy, row) {
      assert (set x | x in policy.value.actions.value) == (set x | x in row.actions);
      assert (set x | x in policy.value.resources.value) == (set x | x in row.resources);
    }
    if PolicyShape(policy) == Ok(Pinned(row)) {
      var shape := PolicyShape(policy).value;
      assert forall x :: x in policy.value.actions.value <==> x in shape.actions;
      assert forall x :: x in policy.value.resources.value <==> x in shape.resources;
      assert forall x :: x in row.actions <==> x in shape.actions;
      assert forall x :: x in row.resources <==> x in shape.resources;
    }
  }

  lemma TableDecides(policy: Item)
    ensures IsRow(READONLY, policy) <==> OfTable(policy)
  {
    TableNamesDiffer();
    RowAmong(READONLY, policy);
  }

  lemma RowAmong(table: seq<Row>, policy: Item)
    requires NoRepeats(RowNames(table))
    ensures IsRow(table, policy) <==>
            exists k :: 0 <= k < |table| && policy.name == Some(table[k].name) && AllowsRow(policy.policy, table[k])
  {
    if IsRow(table, policy) {
      var row := FindRow(table, policy.name.value).value;
      RowDecides(policy.policy, row);
      var k :| 0 <= k < |table| && table[k] == row;
    }
    if k :| 0 <= k < |table| && policy.name == Some(table[k].name) && AllowsRow(policy.policy, table[k]) {
      RowByName(table, k);
      RowDecides(policy.policy, table[k]);
    }
  }

  lemma {:induction false} RecordsDecide(rules: seq<Item>, policies: seq<Item>)
    ensures RecordFailure(rules, policies).None? <==> Recordable(rules, policies)
  {
    if policies != [] {
      ShapeDecides(policies[0].policy);
      RecordsDecide(rules, policies[1..]);
      assert forall i :: 0 < i < |policies| ==> policies[i] == policies[1..][i - 1];
      assert forall i :: 0 <= i < |policies[1..]| ==> policies[1..][i] == policies[i + 1];
    }
  }

  /** For distinct policies of the catalog, being as many as the rows and each a row decides the check. */
  lemma SelectionDecides(catalog: Catalog, readonly: Item)
    requires Ordered(catalog) && NamesOk(catalog.policies) && LinksOf(catalog).None?
    requires Named(catalog.roles, "readonly") == Some(readonly)
    ensures Selection(catalog, readonly).Ok? <==> IsPinned(readonly, catalog.policies) && Recordable(catalog.rules, catalog.policies)
    ensures Selection(catalog, readonly).Ok? ==> Selection(catalog, readonly).value.readonly == readonly
  {
    PoliciesKnown(catalog, readonly);
    RecordsDecide(catalog.rules, catalog.policies);
    PinnedDecides(catalog.policies, Link(readonly, "policies").value);
  }

  lemma PinnedDecides(policies: seq<Item>, ids: seq<int>)
    requires Ascending(policies) && NamesOk(policies) && NoRepeats(ids)
    requires forall i :: 0 <= i < |ids| ==> ids[i] in ById(policies)
    ensures PolicyFailure(READONLY, Pick(ById(policies), ids)).None? <==>
            |ids| == 13 && forall x :: x in ids ==> SomePinned(policies, x)
  {
    var selected := Pick(ById(policies), ids);
    PickedNamesDiffer(policies, ids);
    TableNamesDiffer();
    PolicyCheckExactly(READONLY, selected);
    forall i | 0 <= i < |ids| ensures IsRow(READONLY, selected[i]) <==> SomePinned(policies, ids[i]) {
      PickedIsPinned(policies, ids[i]);
    }
  }

  lemma PickedIsPinned(policies: seq<Item>, id: int)
    requires Ascending(policies) && id in ById(policies)
    ensures IsRow(READONLY, ById(policies)[id]) <==> SomePinned(policies, id)
  {
    var k := ByIdOnlyHolds(policies, id);
    TableDecides(ById(policies)[id]);
    if i :| 0 <= i < |policies| && policies[i].id == Some(id) && OfTable(policies[i]) {
      ByIdFinds(policies, i);
    }
  }

  // ----- The whole check -----

  /** The checks on their own. */
  lemma AcceptedParts(catalog: Catalog, current: Data, processed: Data, config: Data, username: string)
    requires Ordered(catalog)
    ensures Summarize(catalog, current, processed, config, username).Ok? <==>
            && ContextFailure(processed, config).None? && AllNamed(catalog) && LinksOf(catalog).None?
            && Named(catalog.roles, "administrator").Some? && Named(catalog.roles, "readonly").Some?
            && Named(catalog.users, username).Some?
            && IdentityFailure(catalog, Named(catalog.roles, "administrator").value, Named(catalog.users, username).value,
                               current, username).None?
            && Selection(catalog, Named(catalog.roles, "readonly").value).Ok?
  {
  }

  lemma SoundExactly(catalog: Catalog, current: Data, processed: Data, config: Data, username: string,
                     admin: Item, readonly: Item, identity: Item)
    requires Ordered(catalog)
    requires Named(catalog.roles, "administrator") == Some(admin) && Named(catalog.roles, "readonly") == Some(readonly)
    requires Named(catalog.users, username) == Some(identity)
    ensures Summarize(catalog, current, processed, config, username).Ok? <==>
            Sound(catalog, current, processed, config, username, admin, readonly, identity)
            && exists broker :: RoomForService(catalog.users, catalog.rules, broker)
  {
    AcceptedParts(catalog, current, processed, config, username);
    ContextDecides(processed, config);
    LinksDecide(catalog);
    IdentityDecides(catalog, admin, identity, current, username);
    if AllNamed(catalog) && AllLinked(catalog) {
      SelectionDecides(catalog, readonly);
    }
    NamedExactly(catalog.roles, "administrator", admin);
    NamedExactly(catalog.roles, "readonly", readonly);
    NamedExactly(catalog.users, username, identity);
  }

  /**
   A catalog in identifier order is accepted exactly when there are one administrator role,
   one readonly role, one operator and one broker that meet every requirement.
   */
  lemma SummarizeAcceptsExactly(catalog: Catalog, current: Data, processed: Data, config: Data, username: string)
    requires Ordered(catalog)
    ensures Summarize(catalog, current, processed, config, username).Ok? <==>
            exists admin, readonly, identity, broker ::
              AcceptableCatalog(catalog, current, processed, config, username, admin, readonly, identity, broker)
  {
    if Summarize(catalog, current, processed, config, username).Ok? {
      AcceptedParts(catalog, current, processed, config, username);
      var admin, readonly := Named(catalog.roles, "administrator").value, Named(catalog.roles, "readonly").value;
      var identity := Named(catalog.users, username).value;
      SoundExactly(catalog, current, processed, config, username, admin, readonly, identity);
      var broker :| RoomForService(catalog.users, catalog.rules, broker);
      assert AcceptableCatalog(catalog, current, processed, config, username, admin, readonly, identity, broker);
    }
    if admin, readonly, identity, broker :|
      AcceptableCatalog(catalog, current, processed, config, username, admin, readonly, identity, broker) {
      AcceptableIsAccepted(catalog, current, processed, config, username, admin, readonly, identity, broker);
    }
  }

  lemma AcceptableIsAccepted(catalog: Catalog, current: Data, processed: Data, config: Data, username: string,
                             admin: Item, readonly: Item, identity: Item, broker: Item)
    requires Ordered(catalog) && AcceptableCatalog(catalog, current, processed, config, username, admin, readonly, identity, broker)
    ensures Summarize(catalog, current, processed, config, username).Ok?
  {
    NamedExactly(catalog.roles, "administrator", admin);
    NamedExactly(catalog.roles, "readonly", readonly);
    NamedExactly(catalog.users, username, identity);
    SoundExactly(catalog, current, processed, config, username, admin, readonly, identity);
  }
}
