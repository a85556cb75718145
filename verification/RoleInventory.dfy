/**
 The other checks of summarize in siem/rbac/collect_server_inventory.py: names, the
 administrator's own identity, and the readonly role against the pinned policy table.
 */
module RoleInventory {
  import opened Common
  import opened ServerClient
  import opened ServerPaging
  import opened Relationships

  /** One row of the table: a policy name with the actions and resources that it allows. */
  datatype Row = Row(name: string, actions: seq<string>, resources: seq<string>)

  const READONLY: seq<Row> := [
    Row("agents_read_agents", ["agent:read"], ["agent:id:*", "agent:group:*"]),
    Row("agents_read_groups", ["group:read"], ["group:id:*"]),
    Row("ciscat_read_ciscat", ["ciscat:read"], ["agent:id:*"]),
    Row("cluster_read_resourceless", ["cluster:status", "manager:read", "manager:read_api_config"], ["*:*:*"]),
    Row("cluster_read_nodes", ["cluster:read_api_config", "cluster:read"], ["node:id:*"]),
    Row("decoders_read_decoders", ["decoders:read"], ["decoder:file:*"]),
    Row("lists_read_rules", ["lists:read"], ["list:file:*"]),
    Row("rootcheck_read_rootcheck", ["rootcheck:read"], ["agent:id:*"]),
    Row("rules_read_rules", ["rules:read"], ["rule:file:*"]),
    Row("mitre_read_mitre", ["mitre:read"], ["*:*:*"]),
    Row("sca_read_sca", ["sca:read"], ["agent:id:*"]),
    Row("syscheck_read_syscheck", ["syscheck:read"], ["agent:id:*"]),
    Row("syscollector_read_syscollector", ["syscollector:read"], ["agent:id:*"])]

  // ----- Names and policies -----

  predicate NamesOk(items: seq<Item>) {
    && (forall i :: 0 <= i < |items| ==> items[i].name.Some? && 0 < |items[i].name.value| <= 128)
    && (forall i, j :: 0 <= i < j < |items| ==> items[i].name != items[j].name)
  }

  function Matching(items: seq<Item>, name: string): seq<Item> {
    if items == [] then []
    else if items[0].name == Some(name) then [items[0]] + Matching(items[1..], name)
    else Matching(items[1..], name)
  }

  /** `named`: exactly one item has the name. */
  function Named(items: seq<Item>, name: string): Option<Item> {
    var matches := Matching(items, name);
    if |matches| == 1 then Some(matches[0]) else None
  }

  lemma {:induction false} MatchingHolds(items: seq<Item>, name: string, i: nat)
    requires i < |Matching(items, name)|
    ensures Matching(items, name)[i] in items && Matching(items, name)[i].name == Some(name)
  {
    if items[0].name == Some(name) {
      if i > 0 {
        MatchingHolds(items[1..], name, i - 1);
      }
    } else {
      MatchingHolds(items[1..], name, i);
    }
  }

  /** What a policy definition amounts to; repeated actions or resources count once. */
  datatype Shape = Shape(actions: set<string>, resources: set<string>, effect: string)

  function Strings(value: Option<seq<string>>): Result<set<string>, string> {
    if value.None? || value.value == [] || exists i :: 0 <= i < |value.value| && !(0 < |value.value[i]| <= 512)
    then Err("STRING_LIST")
    else Ok(set x | x in value.value)
  }

  function PolicyShape(policy: Option<PolicyDef>): Result<Shape, string> {
    if policy.None? || !policy.value.exactKeys then Err("POLICY_SHAPE")
    else if policy.value.effect !in ["allow", "deny"] then Err("POLICY_EFFECT")
    else
      var actions, resources := Strings(policy.value.actions), Strings(policy.value.resources);
      if actions.Err? then Err(actions.error)
      else if resources.Err? then Err(resources.error)
      else Ok(Shape(actions.value, resources.value, policy.value.effect))
  }

  function Pinned(row: Row): Shape {
    Shape(set x | x in row.actions, set x | x in row.resources, "allow")
  }

  /** The row with a name. */
  function FindRow(table: seq<Row>, name: string): (r: Option<Row>)
    ensures r.Some? ==> r.value in table && r.value.name == name
    ensures r.None? ==> forall i :: 0 <= i < |table| ==> table[i].name != name
  {
    if table == [] then None else if table[0].name == name then Some(table[0]) else FindRow(table[1..], name)
  }

  // ----- The readonly role -----

  function Names(items: seq<Item>): set<string> {
    set i | 0 <= i < |items| && items[i].name.Some? :: items[i].name.value
  }

  function RowNames(table: seq<Row>): (names: seq<string>)
    ensures |names| == |table| && forall i :: 0 <= i < |table| ==> names[i] == table[i].name
  {
    seq(|table|, i requires 0 <= i < |table| => table[i].name)
  }

  /** The first policy whose definition is not its row of the table. */
  function DriftFailure(table: seq<Row>, selected: seq<Item>): Option<string> {
    if selected == [] then None
    else
      var row := if selected[0].name.Some? then FindRow(table, selected[0].name.value) else None;
      var shape := PolicyShape(selected[0].policy);
      if shape.Err? then Some(shape.error)
      else if row.None? || shape.value != Pinned(row.value) then Some("READONLY_POLICY_DRIFT")
      else DriftFailure(table, selected[1..])
  }

  function Pick(table: map<int, Item>, ids: seq<int>): (r: seq<Item>)
    requires forall i :: 0 <= i < |ids| ==> ids[i] in table
    ensures |r| == |ids| && forall i :: 0 <= i < |ids| ==> r[i] == table[ids[i]]
  {
    seq(|ids|, i requires 0 <= i < |ids| => table[ids[i]])
  }

  /** The policies of the readonly role against a table: the same names, and each with its row's definition. */
  function PolicyFailure(table: seq<Row>, selected: seq<Item>): Option<string> {
    if Names(selected) != set name | name in RowNames(table) then Some("READONLY_POLICY_SET")
    else DriftFailure(table, selected)
  }

  ghost predicate IsRow(table: seq<Row>, policy: Item) {
    policy.name.Some? && FindRow(table, policy.name.value).Some?
    && PolicyShape(policy.policy) == Ok(Pinned(FindRow(table, policy.name.value).value))
  }

  lemma {:induction false} DriftFailureExactly(table: seq<Row>, selected: seq<Item>)
    ensures DriftFailure(table, selected).None? <==> forall i :: 0 <= i < |selected| ==> IsRow(table, selected[i])
  {
    if selected != [] {
      DriftFailureExactly(table, selected[1..]);
      assert forall i :: 1 <= i < |selected| ==> selected[i] == selected[1..][i - 1];
      if forall i :: 0 <= i < |selected| ==> IsRow(table, selected[i]) {
        forall i | 0 <= i < |selected[1..]| ensures IsRow(table, selected[1..][i]) {
          assert selected[1..][i] == selected[i + 1];
        }
      }
    }
  }

  /** As many values as positions when no value repeats. */
  lemma {:induction false} DistinctCount<T>(xs: seq<T>)
    requires NoRepeats(xs)
    ensures |set x | x in xs| == |xs|
  {
    if xs == [] {
      assert (set x | x in xs) == {};
    } else {
      DistinctCount(xs[1..]);
      assert (set x | x in xs) == {xs[0]} + (set x | x in xs[1..]);
    }
  }

  lemma TableNamesDiffer()
    ensures NoRepeats(RowNames(READONLY)) && |READONLY| == 13
  {
  }

  // ----- summarize -----

  datatype Summary = Summary(readonly: Item, selected: seq<Item>)

  /** Every grant that the session needs is there, and no grant for the action is anything but `allow`. */
  predicate GrantsAll(processed: Data, action: string, resources: seq<string>) {
    && action in processed.grants
    && (forall i :: 0 <= i < |resources| ==>
                      resources[i] in processed.grants[action] && processed.grants[action][resources[i]] == "allow")
    && (forall r :: r in processed.grants[action] ==> processed.grants[action][r] == "allow")
  }

  function ContextFailure(processed: Data, config: Data): Option<string> {
    if config.rbacMode != Some("white") || processed.rbacMode != Some("white") then Some("RBAC_MODE")
    else if !GrantsAll(processed, "security:read", ["user:id:*", "role:id:*", "policy:id:*", "rule:id:*"])
            || !GrantsAll(processed, "security:read_config", ["*:*:*"]) then Some("ADMIN_READ_SCOPE")
    else None
  }

  /** The links of users, of policies and of rules, in that order. */
  function LinksOf(catalog: Catalog): Option<string>
    requires Fetched(catalog)
  {
    var users := EdgeFailure(catalog.users, catalog.roles, "users");
    var policies := EdgeFailure(catalog.policies, catalog.roles, "policies");
    if users.Some? then users
    else if policies.Some? then policies
    else EdgeFailure(catalog.rules, catalog.roles, "rules")
  }

  /** The operator is a member of the administrator role, and nothing that is to be created exists. */
  function IdentityFailure(catalog: Catalog, admin: Item, identity: Item, current: Data, username: string): Option<string>
    requires Fetched(catalog)
  {
    var users, rules := catalog.users, catalog.rules;
    var me := Rows(Some(current));
    if me.Err? then Some(me.error)
    else if !(me.value.0 == 1 && |me.value.1| == 1 && me.value.1[0].id == identity.id && me.value.1[0].name == Some(username)
              && admin.id.Some? && Link(identity, "roles").Some? && admin.id.value in Link(identity, "roles").value)
    then Some("ADMIN_IDENTITY")
    else if Matching(users, "assistant-svc") != [] then Some("SERVICE_SERVER_IDENTITY")
      else if Matching(rules, "alertmind_socanalyst_server_ro") != [] then Some("MAPPING_COLLISION")
      else if Named(users, "wazuh-wui").None? then Some("NAMED_RESOURCE")
      else if exists i :: 0 <= i < |users| && users[i].runAs.None? then Some("RUN_AS_SHAPE")
      else if Named(users, "wazuh-wui").value.runAs != Some(true) then Some("BROKER_RUN_AS_DISABLED")
      else None
  }

  /** What the record of every rule and every policy needs. */
  function RecordFailure(rules: seq<Item>, policies: seq<Item>): Option<string> {
    if exists i :: 0 <= i < |rules| && !rules[i].isRule then Some("RULE_SHAPE")
    else if policies == [] then None
    else if PolicyShape(policies[0].policy).Err? then Some(PolicyShape(policies[0].policy).error)
    else RecordFailure(rules, policies[1..])
  }

  function Summarize(catalog: Catalog, current: Data, processed: Data, config: Data, username: string): Result<Summary, string>
    requires Fetched(catalog)
  {
    var roles := catalog.roles;
    var admin, readonly := Named(roles, "administrator"), Named(roles, "readonly");
    var identity := Named(catalog.users, username);
    if ContextFailure(processed, config).Some? then Err(ContextFailure(processed, config).value)
    else if !(NamesOk(catalog.users) && NamesOk(roles) && NamesOk(catalog.policies) && NamesOk(catalog.rules))
    then Err("NAMES")
    else if LinksOf(catalog).Some? then Err(LinksOf(catalog).value)
      else if admin.None? || readonly.None? || identity.None? then Err("NAMED_RESOURCE")
      else
        var stranger := IdentityFailure(catalog, admin.value, identity.value, current, username);
        if stranger.Some? then Err(stranger.value) else Selection(catalog, readonly.value)
  }

  /** The readonly role's policies, and the last checks. */
  function Selection(catalog: Catalog, readonly: Item): Result<Summary, string>
    requires Fetched(catalog) && LinksOf(catalog).None? && Named(catalog.roles, "readonly") == Some(readonly)
  {
    PoliciesKnown(catalog, readonly);
    var selected := Pick(ById(catalog.policies), Link(readonly, "policies").value);
    if PolicyFailure(READONLY, selected).Some? then Err(PolicyFailure(READONLY, selected).value)
    else
      var unrecorded := RecordFailure(catalog.rules, catalog.policies);
      if unrecorded.Some? then Err(unrecorded.value) else Ok(Summary(readonly, selected))
  }

  /** Every policy that a role lists is in the catalog, and listed once. */
  lemma PoliciesKnown(catalog: Catalog, role: Item)
    requires Fetched(catalog) && LinksOf(catalog).None? && Named(catalog.roles, "readonly") == Some(role)
    ensures Link(role, "policies").Some? && NoRepeats(Link(role, "policies").value)
    ensures var ids := Link(role, "policies").value; forall i :: 0 <= i < |ids| ==> ids[i] in ById(catalog.policies)
  {
    var roles := catalog.roles;
    MatchingHolds(roles, "readonly", 0);
    var table := ById(catalog.policies);
    LinksFailureExactly(roles, table, "policies", "roles");
    var k :| 0 <= k < |roles| && roles[k] == role;
    assert LinksBack(roles[k], table, "policies", "roles");
    var ids := Link(role, "policies").value;
    forall i | 0 <= i < |ids| ensures ids[i] in table {
      SortedHolds(ids, ids[i]);
      assert ListsBack(role.id.value, ids[i], table, "roles");
    }
  }

  // ----- What acceptance means -----

  /** Some selected policy allows the action on the resource. */
  ghost predicate Granted(selected: seq<Item>, action: string, resource: string) {
    exists i :: 0 <= i < |selected| && Allows(PolicyShape(selected[i].policy), action, resource)
  }

  ghost predicate Allows(shape: Result<Shape, string>, action: string, resource: string) {
    shape.Ok? && shape.value.effect == "allow" && action in shape.value.actions && resource in shape.value.resources
  }

  ghost predicate InTable(table: seq<Row>, action: string, resource: string) {
    exists k :: 0 <= k < |table| && action in table[k].actions && resource in table[k].resources
  }

  ghost predicate SameLinks(items: seq<Item>, roles: seq<Item>, kind: string) {
    forall a, b :: Edge(items, "roles", a, b) <==> Edge(roles, kind, b, a)
  }

  /** In an accepted catalog users, policies and rules record the same links as the roles do. */
  lemma AcceptedLinksAgree(catalog: Catalog, current: Data, processed: Data, config: Data, username: string)
    requires Ordered(catalog) && Summarize(catalog, current, processed, config, username).Ok?
    ensures SameLinks(catalog.users, catalog.roles, "users")
    ensures SameLinks(catalog.policies, catalog.roles, "policies")
    ensures SameLinks(catalog.rules, catalog.roles, "rules")
  {
    assert LinksOf(catalog).None?;
    EdgesAgreeExactly(catalog.users, catalog.roles, "users");
    EdgesAgreeExactly(catalog.policies, catalog.roles, "policies");
    EdgesAgreeExactly(catalog.rules, catalog.roles, "rules");
  }

  /** Distinct identifiers pick policies with distinct names. */
  lemma PickedNamesDiffer(policies: seq<Item>, ids: seq<int>)
    requires Ascending(policies) && NamesOk(policies) && NoRepeats(ids)
    requires forall i :: 0 <= i < |ids| ==> ids[i] in ById(policies)
    ensures forall i :: 0 <= i < |ids| ==> Pick(ById(policies), ids)[i].name.Some?
    ensures forall i, j :: 0 <= i < j < |ids| ==> Pick(ById(policies), ids)[i].name != Pick(ById(policies), ids)[j].name
  {
    var picked := Pick(ById(policies), ids);
    forall i | 0 <= i < |ids| ensures picked[i].name.Some? {
      var k := ByIdOnlyHolds(policies, ids[i]);
    }
    forall i, j | 0 <= i < j < |ids| ensures picked[i].name != picked[j].name {
      var k := ByIdOnlyHolds(policies, ids[i]);
      var m := ByIdOnlyHolds(policies, ids[j]);
    }
  }

  lemma GrantedIsInTable(table: seq<Row>, selected: seq<Item>, action: string, resource: string)
    requires PolicyFailure(table, selected).None? && Granted(selected, action, resource)
    ensures InTable(table, action, resource)
  {
    DriftFailureExactly(table, selected);
    var i :| 0 <= i < |selected| && Allows(PolicyShape(selected[i].policy), action, resource);
    assert IsRow(table, selected[i]);
    var row := FindRow(table, selected[i].name.value).value;
    var k :| 0 <= k < |table| && table[k] == row;
  }

  lemma TableIsGranted(table: seq<Row>, selected: seq<Item>, action: string, resource: string)
    requires NoRepeats(RowNames(table)) && PolicyFailure(table, selected).None? && InTable(table, action, resource)
    ensures Granted(selected, action, resource)
  {
    var k :| 0 <= k < |table| && action in table[k].actions && resource in table[k].resources;
    assert RowNames(table)[k] in RowNames(table);
    assert table[k].name in Names(selected);
    var i :| 0 <= i < |selected| && selected[i].name == Some(table[k].name);
    DriftFailureExactly(table, selected);
    assert IsRow(table, selected[i]);
    RowByName(table, k);
    assert Allows(PolicyShape(selected[i].policy), action, resource);
  }

  lemma {:induction false} RowByName(table: seq<Row>, k: nat)
    requires NoRepeats(RowNames(table)) && k < |table|
    ensures FindRow(table, table[k].name) == Some(table[k])
  {
    var names := RowNames(table);
    if k > 0 {
      assert names[0] != names[k];
      assert RowNames(table[1..]) == names[1..];
      RowByName(table[1..], k - 1);
    }
  }

  /** Policies with distinct names that pass the check are as many as the rows. */
  lemma PinnedCount(table: seq<Row>, selected: seq<Item>)
    requires forall i :: 0 <= i < |selected| ==> selected[i].name.Some?
    requires forall i, j :: 0 <= i < j < |selected| ==> selected[i].name != selected[j].name
    requires NoRepeats(RowNames(table)) && PolicyFailure(table, selected).None?
    ensures |selected| == |table|
  {
    NamesCount(selected);
    DistinctCount(RowNames(table));
  }

  lemma {:induction false} NamesOfRows(table: seq<Row>, selected: seq<Item>)
    requires forall i :: 0 <= i < |selected| ==> IsRow(table, selected[i])
    ensures Names(selected) <= set name | name in RowNames(table)
  {
    forall name | name in Names(selected) ensures name in RowNames(table) {
      var i :| 0 <= i < |selected| && selected[i].name == Some(name);
      var k :| 0 <= k < |table| && table[k] == FindRow(table, name).value;
      assert RowNames(table)[k] == name;
    }
  }

  /** Policies with distinct names pass exactly when they are as many as the rows and each is a row. */
  lemma PolicyCheckExactly(table: seq<Row>, selected: seq<Item>)
    requires forall i :: 0 <= i < |selected| ==> selected[i].name.Some?
    requires forall i, j :: 0 <= i < j < |selected| ==> selected[i].name != selected[j].name
    requires NoRepeats(RowNames(table))
    ensures PolicyFailure(table, selected).None? <==>
            |selected| == |table| && forall i :: 0 <= i < |selected| ==> IsRow(table, selected[i])
  {
    DriftFailureExactly(table, selected);
    if PolicyFailure(table, selected).None? {
      PinnedCount(table, selected);
    }
    if |selected| == |table| && forall i :: 0 <= i < |selected| ==> IsRow(table, selected[i]) {
      NamesOfRows(table, selected);
      NamesCount(selected);
      DistinctCount(RowNames(table));
      SameSize(Names(selected), set name | name in RowNames(table));
    }
  }

  lemma NamesCount(selected: seq<Item>)
    requires forall i :: 0 <= i < |selected| ==> selected[i].name.Some?
    requires forall i, j :: 0 <= i < j < |selected| ==> selected[i].name != selected[j].name
    ensures |Names(selected)| == |selected|
  {
    var names := seq(|selected|, i requires 0 <= i < |selected| => selected[i].name.value);
    DistinctCount(names);
    assert (set x | x in names) == Names(selected) by {
      assert forall i :: 0 <= i < |selected| ==> names[i] == selected[i].name.value;
    }
  }

  lemma SameSize<T>(a: set<T>, b: set<T>)
    requires a <= b && |a| == |b|
    ensures a == b
  {
    assert b == a + (b - a);
  }

  /** `selected` is the policies that `ids` names, one for each row of the table, and together they grant the table. */
  ghost predicate HoldsTheTable(table: seq<Row>, policies: seq<Item>, ids: seq<int>, selected: seq<Item>) {
    && |ids| == |selected| == |table|
    && (forall i :: 0 <= i < |ids| ==> selected[i] in policies && selected[i].id == Some(ids[i]) && IsRow(table, selected[i]))
    && (forall action, resource :: Granted(selected, action, resource) <==> InTable(table, action, resource))
  }

  lemma PickedPoliciesArePinned(table: seq<Row>, policies: seq<Item>, ids: seq<int>)
    requires NoRepeats(RowNames(table)) && Ascending(policies) && NamesOk(policies) && NoRepeats(ids)
    requires forall i :: 0 <= i < |ids| ==> ids[i] in ById(policies)
    requires PolicyFailure(table, Pick(ById(policies), ids)).None?
    ensures HoldsTheTable(table, policies, ids, Pick(ById(policies), ids))
  {
    var selected := Pick(ById(policies), ids);
    PickedNamesDiffer(policies, ids);
    PinnedCount(table, selected);
    DriftFailureExactly(table, selected);
    forall i | 0 <= i < |ids| ensures selected[i] in policies && selected[i].id == Some(ids[i]) && IsRow(table, selected[i]) {
      var k := ByIdOnlyHolds(policies, ids[i]);
    }
    forall action, resource ensures Granted(selected, action, resource) <==> InTable(table, action, resource) {
      if Granted(selected, action, resource) {
        GrantedIsInTable(table, selected, action, resource);
      }
      if InTable(table, action, resource) {
        TableIsGranted(table, selected, action, resource);
      }
    }
  }

  /** The last step of an accepted catalog. */
  lemma AcceptedSelects(catalog: Catalog, current: Data, processed: Data, config: Data, username: string) returns (readonly: Item)
    requires Ordered(catalog) && Summarize(catalog, current, processed, config, username).Ok?
    ensures NamesOk(catalog.policies) && LinksOf(catalog).None? && Named(catalog.roles, "readonly") == Some(readonly)
    ensures Summarize(catalog, current, processed, config, username) == Selection(catalog, readonly)
  {
    readonly := Named(catalog.roles, "readonly").value;
  }

  lemma SelectionIsPinned(catalog: Catalog, readonly: Item)
    requires Ordered(catalog) && NamesOk(catalog.policies) && LinksOf(catalog).None?
    requires Named(catalog.roles, "readonly") == Some(readonly) && Selection(catalog, readonly).Ok?
    ensures var summary := Selection(catalog, readonly).value;
            && summary.readonly == readonly && Link(readonly, "policies").Some? && |summary.selected| == 13
            && HoldsTheTable(READONLY, catalog.policies, Link(readonly, "policies").value, summary.selected)
  {
    PoliciesKnown(catalog, readonly);
    TableNamesDiffer();
    PickedPoliciesArePinned(READONLY, catalog.policies, Link(readonly, "policies").value);
  }

  /** In an accepted catalog the readonly role lists exactly the 13 pinned policies, with their grants. */
  lemma ReadonlyRoleIsPinned(catalog: Catalog, current: Data, processed: Data, config: Data, username: string)
    requires Ordered(catalog) && Summarize(catalog, current, processed, config, username).Ok?
    ensures var summary := Summarize(catalog, current, processed, config, username).value;
            && Named(catalog.roles, "readonly") == Some(summary.readonly)
            && Link(summary.readonly, "policies").Some? && |summary.selected| == 13
            && HoldsTheTable(READONLY, catalog.policies, Link(summary.readonly, "policies").value, summary.selected)
  {
    var readonly := AcceptedSelects(catalog, current, processed, config, username);
    SelectionIsPinned(catalog, readonly);
  }
}
