/**
 assistant/redact.py: one recursion that rebuilds the tree without credentials
 and, when given a trace, records what it removed.

 The credential patterns are arbitrary functions here: `redactText` applies them to a
 string, `matches` lists what they matched, `sensitive` recognises a key whose whole
 value is withheld.
 */
module Redact {
  import opened Common
  import opened Injection
  import opened Json
  import opened Occurrences

  datatype Policy = Policy(
    redactText: Text -> Text,
    matches: Text -> seq<(string, Text)>,
    sensitive: Text -> bool,
    canonical: Json -> Text,
    fingerprint: Text -> Option<Text>)

  datatype Row = Row(path: Text, rule: string, fromKey: bool, masked: Text, length: nat,
                     fingerprint: Option<Text>, kind: string, removed: bool)

  const SENSITIVE_FIELD := "sensitive_field"

  function Withheld(): Json {
    Str(T("[REDACTED:sensitive_field]"))
  }

  function Mask(value: Text): Text {
    seq(if |value| < 6 then |value| else 6, _ => 0x2022) + T(" (") + T(Decimal(|value|)) + T(" chars)")
  }

  function TypeName(j: Json): string {
    match j
    case Null => "NoneType"
    case Bool(_) => "bool"
    case Number(literal) => if forall i :: 0 <= i < |literal| ==> literal[i] == '-' as int || '0' as int <= literal[i] <= '9' as int then "int" else "float"
    case Str(_) => "str"
    case Arr(_) => "list"
    case Obj(_) => "dict"
  }

  /** `_canonical_sensitive` */
  function Canonical(value: Json, policy: Policy): Text {
    if value.Str? then value.s else policy.canonical(value)
  }

  function KeyRow(path: Text, value: Json, policy: Policy): Row {
    var raw := Canonical(value, policy);
    Row(path, SENSITIVE_FIELD, true, Mask(raw), |raw|, policy.fingerprint(raw), TypeName(value), true)
  }

  function MatchRows(path: Text, found: seq<(string, Text)>, redacted: Text, policy: Policy): seq<Row> {
    if found == [] then []
    else
      var raw := found[0].1;
      [Row(path, found[0].0, false, Mask(raw), |raw|, policy.fingerprint(raw), "str", raw != [] && Count(redacted, raw) == 0)]
      + MatchRows(path, found[1..], redacted, policy)
  }

  /** The redacted tree. */
  function Redacted(j: Json, policy: Policy): Json {
    match j
    case Obj(members) => Obj(RedactedMembers(members, policy))
    case Arr(items) => Arr(RedactedItems(items, policy))
    case Str(s) => Str(policy.redactText(s))
    case _ => j
  }

  function RedactedMember(member: (Text, Json), policy: Policy): (Text, Json) {
    (member.0, if policy.sensitive(member.0) then Withheld() else Redacted(member.1, policy))
  }

  function RedactedMembers(members: seq<(Text, Json)>, policy: Policy): seq<(Text, Json)> {
    if members == [] then [] else [RedactedMember(members[0], policy)] + RedactedMembers(members[1..], policy)
  }

  function RedactedItems(items: seq<Json>, policy: Policy): seq<Json> {
    if items == [] then [] else [Redacted(items[0], policy)] + RedactedItems(items[1..], policy)
  }

  /** The evidence rows of a tree in document order. */
  function Rows(j: Json, path: Text, policy: Policy): seq<Row> {
    match j
    case Obj(members) => MemberRows(members, path, policy)
    case Arr(items) => ItemRows(items, 0, path, policy)
    case Str(s) => MatchRows(path, policy.matches(s), policy.redactText(s), policy)
    case _ => []
  }

  function PairRows(member: (Text, Json), path: Text, policy: Policy): seq<Row> {
    var child := ChildPath(path, member.0);
    if policy.sensitive(member.0) then [KeyRow(child, member.1, policy)] else Rows(member.1, child, policy)
  }

  function MemberRows(members: seq<(Text, Json)>, path: Text, policy: Policy): seq<Row> {
    if members == [] then [] else PairRows(members[0], path, policy) + MemberRows(members[1..], path, policy)
  }

  function ItemRows(items: seq<Json>, i: nat, path: Text, policy: Policy): seq<Row> {
    if items == [] then []
    else Rows(items[0], IndexPath(path, i), policy) + ItemRows(items[1..], i + 1, path, policy)
  }

  class Trace {
    var rows: seq<Row>

    constructor ()
      ensures rows == []
    {
      rows := [];
    }
  }

  /** The shared recursion: the tree it returns is the same with and without a trace. */
  method RedactNode(obj: Json, path: Text, trace: Trace?, policy: Policy) returns (out: Json)
    modifies trace
    ensures out == Redacted(obj, policy)
    ensures trace != null ==> trace.rows == old(trace.rows) + Rows(obj, path, policy)
    decreases obj
  {
    match obj
    case Obj(members) =>
      var fields := RedactObject(members, path, trace, policy);
      out := Obj(fields);
    case Arr(items) =>
      var list := RedactArray(items, path, trace, policy);
      out := Arr(list);
    case Str(s) =>
      var redacted := policy.redactText(s);
      if trace != null {
        trace.rows := trace.rows + MatchRows(path, policy.matches(s), redacted, policy);
      }
      out := Str(redacted);
    case _ => out := obj;
  }

  method RedactObject(members: seq<(Text, Json)>, path: Text, trace: Trace?, policy: Policy)
    returns (out: seq<(Text, Json)>)
    modifies trace
    ensures out == RedactedMembers(members, policy)
    ensures trace != null ==> trace.rows == old(trace.rows) + MemberRows(members, path, policy)
    decreases members
  {
    out := [];
    for n := 0 to |members|
      invariant out + RedactedMembers(members[n..], policy) == RedactedMembers(members, policy)
      invariant trace != null ==>
          trace.rows + MemberRows(members[n..], path, policy) == old(trace.rows) + MemberRows(members, path, policy)
    {
      assert members[n..][1..] == members[n + 1..];
      ghost var before := if trace != null then trace.rows else [];
      var field := RedactMember(members[n], path, trace, policy);
      Shift(out, [field], RedactedMembers(members[n + 1..], policy));
      Shift(before, PairRows(members[n], path, policy), MemberRows(members[n + 1..], path, policy));
      out := out + [field];
    }
  }

  method RedactArray(items: seq<Json>, path: Text, trace: Trace?, policy: Policy) returns (out: seq<Json>)
    modifies trace
    ensures out == RedactedItems(items, policy)
    ensures trace != null ==> trace.rows == old(trace.rows) + ItemRows(items, 0, path, policy)
    decreases items
  {
    out := [];
    for n := 0 to |items|
      invariant out + RedactedItems(items[n..], policy) == RedactedItems(items, policy)
      invariant trace != null ==>
          trace.rows + ItemRows(items[n..], n, path, policy) == old(trace.rows) + ItemRows(items, 0, path, policy)
    {
      assert items[n..][1..] == items[n + 1..];
      ghost var before := if trace != null then trace.rows else [];
      var item := RedactNode(items[n], IndexPath(path, n), trace, policy);
      Shift(out, [item], RedactedItems(items[n + 1..], policy));
      Shift(before, Rows(items[n], IndexPath(path, n), policy), ItemRows(items[n + 1..], n + 1, path, policy));
      out := out + [item];
    }
  }

  lemma Shift<E>(a: seq<E>, b: seq<E>, c: seq<E>)
    ensures a + (b + c) == (a + b) + c
  {
  }

  method RedactMember(member: (Text, Json), path: Text, trace: Trace?, policy: Policy) returns (out: (Text, Json))
    modifies trace
    ensures out == RedactedMember(member, policy)
    ensures trace != null ==> trace.rows == old(trace.rows) + PairRows(member, path, policy)
    decreases member
  {
    var child := ChildPath(path, member.0);
    if policy.sensitive(member.0) {
      if trace != null {
        trace.rows := trace.rows + [KeyRow(child, member.1, policy)];
      }
      out := (member.0, Withheld());
    } else {
      var value := RedactNode(member.1, child, trace, policy);
      out := (member.0, value);
    }
  }

  // ----- Non-interference -----

  /** The trees differ at most in the values of sensitive keys. */
  predicate SameOutsideSecrets(a: Json, b: Json, policy: Policy) {
    match (a, b)
    case (Obj(ms), Obj(ns)) => |ms| == |ns| && forall i :: 0 <= i < |ms| ==> SameMember(ms[i], ns[i], policy)
    case (Arr(xs), Arr(ys)) => |xs| == |ys| && forall i :: 0 <= i < |xs| ==> SameOutsideSecrets(xs[i], ys[i], policy)
    case _ => a == b
  }

  predicate SameMember(m: (Text, Json), n: (Text, Json), policy: Policy) {
    m.0 == n.0 && (policy.sensitive(m.0) || SameOutsideSecrets(m.1, n.1, policy))
  }

  /** What is withheld cannot be told from the redacted tree. */
  lemma {:induction false} RedactionHidesSecrets(a: Json, b: Json, policy: Policy)
    requires SameOutsideSecrets(a, b, policy)
    ensures Redacted(a, policy) == Redacted(b, policy)
    decreases a
  {
    match (a, b)
    case (Obj(ms), Obj(ns)) => MembersHideSecrets(ms, ns, policy);
    case (Arr(xs), Arr(ys)) => ItemsHideSecrets(xs, ys, policy);
    case _ =>
  }

  lemma {:induction false} MembersHideSecrets(ms: seq<(Text, Json)>, ns: seq<(Text, Json)>, policy: Policy)
    requires |ms| == |ns| && forall i :: 0 <= i < |ms| ==> SameMember(ms[i], ns[i], policy)
    ensures RedactedMembers(ms, policy) == RedactedMembers(ns, policy)
    decreases ms
  {
    if ms != [] {
      MemberHidesSecrets(ms[0], ns[0], policy);
      MembersHideSecrets(ms[1..], ns[1..], policy);
    }
  }

  lemma {:induction false} MemberHidesSecrets(m: (Text, Json), n: (Text, Json), policy: Policy)
    requires SameMember(m, n, policy)
    ensures RedactedMember(m, policy) == RedactedMember(n, policy)
    decreases m
  {
    if !policy.sensitive(m.0) {
      RedactionHidesSecrets(m.1, n.1, policy);
    }
  }

  lemma {:induction false} ItemsHideSecrets(xs: seq<Json>, ys: seq<Json>, policy: Policy)
    requires |xs| == |ys| && forall i :: 0 <= i < |xs| ==> SameOutsideSecrets(xs[i], ys[i], policy)
    ensures RedactedItems(xs, policy) == RedactedItems(ys, policy)
    decreases xs
  {
    if xs != [] {
      RedactionHidesSecrets(xs[0], ys[0], policy);
      ItemsHideSecrets(xs[1..], ys[1..], policy);
    }
  }

  // ----- The trace names exactly the topmost sensitive keys -----

  /** A key of the tree: where it is, its value, and whether some key above it is sensitive. */
  datatype Site = Site(path: Text, key: Text, value: Json, covered: bool)

  /** Every key of the tree in document order, those below withheld values included. */
  function Sites(j: Json, path: Text, covered: bool, policy: Policy): seq<Site> {
    match j
    case Obj(members) => MemberSites(members, path, covered, policy)
    case Arr(items) => ItemSites(items, 0, path, covered, policy)
    case _ => []
  }

  function PairSites(member: (Text, Json), path: Text, covered: bool, policy: Policy): seq<Site> {
    var child := ChildPath(path, member.0);
    [Site(child, member.0, member.1, covered)] + Sites(member.1, child, covered || policy.sensitive(member.0), policy)
  }

  function MemberSites(members: seq<(Text, Json)>, path: Text, covered: bool, policy: Policy): seq<Site> {
    if members == [] then []
    else PairSites(members[0], path, covered, policy) + MemberSites(members[1..], path, covered, policy)
  }

  function ItemSites(items: seq<Json>, i: nat, path: Text, covered: bool, policy: Policy): seq<Site> {
    if items == [] then []
    else Sites(items[0], IndexPath(path, i), covered, policy) + ItemSites(items[1..], i + 1, path, covered, policy)
  }

  /** The trace rows that the topmost sensitive keys of a list of sites call for. */
  function TopmostRows(sites: seq<Site>, policy: Policy): seq<Row> {
    if sites == [] then []
    else
      var s := sites[0];
      (if policy.sensitive(s.key) && !s.covered then [KeyRow(s.path, s.value, policy)] else [])
      + TopmostRows(sites[1..], policy)
  }

  function KeyRows(rows: seq<Row>): seq<Row> {
    if rows == [] then [] else (if rows[0].fromKey then [rows[0]] else []) + KeyRows(rows[1..])
  }

  lemma {:induction false} TopmostConcat(a: seq<Site>, b: seq<Site>, policy: Policy)
    ensures TopmostRows(a + b, policy) == TopmostRows(a, policy) + TopmostRows(b, policy)
  {
    if a == [] {
      assert a + b == b;
    } else {
      var first := if policy.sensitive(a[0].key) && !a[0].covered then [KeyRow(a[0].path, a[0].value, policy)] else [];
      assert (a + b)[1..] == a[1..] + b;
      TopmostConcat(a[1..], b, policy);
      Shift(first, TopmostRows(a[1..], policy), TopmostRows(b, policy));
    }
  }

  lemma {:induction false} KeyRowsConcat(a: seq<Row>, b: seq<Row>)
    ensures KeyRows(a + b) == KeyRows(a) + KeyRows(b)
  {
    if a == [] {
      assert a + b == b;
    } else {
      var first := if a[0].fromKey then [a[0]] else [];
      assert (a + b)[1..] == a[1..] + b;
      KeyRowsConcat(a[1..], b);
      Shift(first, KeyRows(a[1..]), KeyRows(b));
    }
  }

  lemma {:induction false} CoveredSitesGiveNoRows(sites: seq<Site>, policy: Policy)
    requires forall i :: 0 <= i < |sites| ==> sites[i].covered
    ensures TopmostRows(sites, policy) == []
  {
    if sites != [] {
      CoveredSitesGiveNoRows(sites[1..], policy);
    }
  }

  lemma {:induction false} MatchRowsAreNotKeyRows(path: Text, found: seq<(string, Text)>, redacted: Text, policy: Policy)
    ensures KeyRows(MatchRows(path, found, redacted, policy)) == []
  {
    if found != [] {
      MatchRowsAreNotKeyRows(path, found[1..], redacted, policy);
      var rows := MatchRows(path, found, redacted, policy);
      assert rows[1..] == MatchRows(path, found[1..], redacted, policy);
    }
  }

  lemma {:induction false} EverySiteCovered(j: Json, path: Text, policy: Policy)
    ensures forall i :: 0 <= i < |Sites(j, path, true, policy)| ==> Sites(j, path, true, policy)[i].covered
    decreases j
  {
    match j
    case Obj(members) => EveryMemberSiteCovered(members, path, policy);
    case Arr(items) => EveryItemSiteCovered(items, 0, path, policy);
    case _ =>
  }

  lemma {:induction false} EveryMemberSiteCovered(members: seq<(Text, Json)>, path: Text, policy: Policy)
    ensures forall i :: 0 <= i < |MemberSites(members, path, true, policy)| ==> MemberSites(members, path, true, policy)[i].covered
    decreases members
  {
    if members != [] {
      EveryPairSiteCovered(members[0], path, policy);
      EveryMemberSiteCovered(members[1..], path, policy);
    }
  }

  lemma {:induction false} EveryPairSiteCovered(member: (Text, Json), path: Text, policy: Policy)
    ensures forall i :: 0 <= i < |PairSites(member, path, true, policy)| ==> PairSites(member, path, true, policy)[i].covered
    decreases member
  {
    EverySiteCovered(member.1, ChildPath(path, member.0), policy);
  }

  lemma {:induction false} EveryItemSiteCovered(items: seq<Json>, i: nat, path: Text, policy: Policy)
    ensures forall k :: 0 <= k < |ItemSites(items, i, path, true, policy)| ==> ItemSites(items, i, path, true, policy)[k].covered
    decreases items
  {
    if items != [] {
      EverySiteCovered(items[0], IndexPath(path, i), policy);
      EveryItemSiteCovered(items[1..], i + 1, path, policy);
    }
  }

  /** The key rows of the trace are those of the topmost sensitive keys, in document order. */
  lemma {:induction false} TraceIsTopmost(j: Json, path: Text, policy: Policy)
    ensures KeyRows(Rows(j, path, policy)) == TopmostRows(Sites(j, path, false, policy), policy)
    decreases j
  {
    match j
    case Obj(members) => MembersTraceTopmost(members, path, policy);
    case Arr(items) => ItemsTraceTopmost(items, 0, path, policy);
    case Str(s) => MatchRowsAreNotKeyRows(path, policy.matches(s), policy.redactText(s), policy);
    case _ =>
  }

  lemma {:induction false} MembersTraceTopmost(members: seq<(Text, Json)>, path: Text, policy: Policy)
    ensures KeyRows(MemberRows(members, path, policy)) == TopmostRows(MemberSites(members, path, false, policy), policy)
    decreases members
  {
    if members != [] {
      PairTracesTopmost(members[0], path, policy);
      MembersTraceTopmost(members[1..], path, policy);
      KeyRowsConcat(PairRows(members[0], path, policy), MemberRows(members[1..], path, policy));
      TopmostConcat(PairSites(members[0], path, false, policy), MemberSites(members[1..], path, false, policy), policy);
    }
  }

  lemma {:induction false} PairTracesTopmost(member: (Text, Json), path: Text, policy: Policy)
    ensures KeyRows(PairRows(member, path, policy)) == TopmostRows(PairSites(member, path, false, policy), policy)
    decreases member
  {
    var child, sites := ChildPath(path, member.0), PairSites(member, path, false, policy);
    assert sites[1..] == Sites(member.1, child, policy.sensitive(member.0), policy);
    if policy.sensitive(member.0) {
      EverySiteCovered(member.1, child, policy);
      CoveredSitesGiveNoRows(sites[1..], policy);
      assert PairRows(member, path, policy)[1..] == [];
    } else {
      TraceIsTopmost(member.1, child, policy);
    }
  }

  lemma {:induction false} ItemsTraceTopmost(items: seq<Json>, i: nat, path: Text, policy: Policy)
    ensures KeyRows(ItemRows(items, i, path, policy)) == TopmostRows(ItemSites(items, i, path, false, policy), policy)
    decreases items
  {
    if items != [] {
      TraceIsTopmost(items[0], IndexPath(path, i), policy);
      ItemsTraceTopmost(items[1..], i + 1, path, policy);
      KeyRowsConcat(Rows(items[0], IndexPath(path, i), policy), ItemRows(items[1..], i + 1, path, policy));
      TopmostConcat(Sites(items[0], IndexPath(path, i), false, policy), ItemSites(items[1..], i + 1, path, false, policy), policy);
    }
  }

  // ----- What the trace tells of a withheld value -----

  /** The trees differ at most in withheld values, and there not in type and length. */
  predicate AlikeOutsideSecrets(a: Json, b: Json, policy: Policy) {
    match (a, b)
    case (Obj(ms), Obj(ns)) => |ms| == |ns| && forall i :: 0 <= i < |ms| ==> AlikeMember(ms[i], ns[i], policy)
    case (Arr(xs), Arr(ys)) => |xs| == |ys| && forall i :: 0 <= i < |xs| ==> AlikeOutsideSecrets(xs[i], ys[i], policy)
    case _ => a == b
  }

  predicate AlikeMember(m: (Text, Json), n: (Text, Json), policy: Policy) {
    m.0 == n.0
    && if policy.sensitive(m.0) then
      TypeName(m.1) == TypeName(n.1) && |Canonical(m.1, policy)| == |Canonical(n.1, policy)|
    else AlikeOutsideSecrets(m.1, n.1, policy)
  }

  /** No fingerprints are made: the HMAC key is not set. */
  ghost predicate Unkeyed(policy: Policy) {
    forall raw :: policy.fingerprint(raw) == None
  }

  /** Without a key the trace tells of a withheld value its type and its length, and nothing else. */
  lemma {:induction false} TraceHidesValues(a: Json, b: Json, path: Text, policy: Policy)
    requires Unkeyed(policy) && AlikeOutsideSecrets(a, b, policy)
    ensures Rows(a, path, policy) == Rows(b, path, policy)
    decreases a
  {
    match (a, b)
    case (Obj(ms), Obj(ns)) => MembersTraceHides(ms, ns, path, policy);
    case (Arr(xs), Arr(ys)) => ItemsTraceHides(xs, ys, 0, path, policy);
    case _ =>
  }

  lemma {:induction false} MembersTraceHides(ms: seq<(Text, Json)>, ns: seq<(Text, Json)>, path: Text, policy: Policy)
    requires Unkeyed(policy) && |ms| == |ns| && forall i :: 0 <= i < |ms| ==> AlikeMember(ms[i], ns[i], policy)
    ensures MemberRows(ms, path, policy) == MemberRows(ns, path, policy)
    decreases ms
  {
    if ms != [] {
      PairTraceHides(ms[0], ns[0], path, policy);
      MembersTraceHides(ms[1..], ns[1..], path, policy);
    }
  }

  lemma {:induction false} PairTraceHides(m: (Text, Json), n: (Text, Json), path: Text, policy: Policy)
    requires Unkeyed(policy) && AlikeMember(m, n, policy)
    ensures PairRows(m, path, policy) == PairRows(n, path, policy)
    decreases m
  {
    if !policy.sensitive(m.0) {
      TraceHidesValues(m.1, n.1, ChildPath(path, m.0), policy);
    }
  }

  lemma {:induction false} ItemsTraceHides(xs: seq<Json>, ys: seq<Json>, i: nat, path: Text, policy: Policy)
    requires Unkeyed(policy) && |xs| == |ys| && forall k :: 0 <= k < |xs| ==> AlikeOutsideSecrets(xs[k], ys[k], policy)
    ensures ItemRows(xs, i, path, policy) == ItemRows(ys, i, path, policy)
    decreases xs
  {
    if xs != [] {
      TraceHidesValues(xs[0], ys[0], IndexPath(path, i), policy);
      ItemsTraceHides(xs[1..], ys[1..], i + 1, path, policy);
    }
  }
}
