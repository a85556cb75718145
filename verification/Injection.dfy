/**
 assistant/injection.py: the marker scan that walks a tree, and the gate that
 searches its serialisation. The two are written independently in the program;
 here they are shown to agree on every tree.
 */
module Injection {
  import opened Common
  import opened Json
  import opened Occurrences

  const SNIPPET_MAX := 120

  function Open(): Text { T("<ALERT_DATA>") }

  function Close(): Text { T("</ALERT_DATA>") }

  lemma DelimitersAreTags()
    ensures TagLike(Open()) && TagLike(Close())
  {
  }

  /** A marker rule: its name and the start of the first match of its pattern. */
  datatype Rule = Rule(name: string, search: Text -> Option<nat>)

  datatype Hit = Hit(path: Text, rule: string, snippet: Text)

  predicate HasDelimiter(s: Text)
    ensures HasDelimiter(s) <==> Contains(s, Open()) || Contains(s, Close())
  {
    CountPositive(s, Open());
    CountPositive(s, Close());
    Count(s, Open()) > 0 || Count(s, Close()) > 0
  }

  predicate DelimiterAt(s: Text, i: int) {
    OccursAt(s, Open(), i) || OccursAt(s, Close(), i)
  }

  /** The leftmost match of the pattern `</?ALERT_DATA>` at or after `from`. */
  function FindDelimiter(s: Text, from: nat): (r: Option<nat>)
    requires from <= |s|
    ensures r.Some? ==> DelimiterAt(s, r.value) && forall i :: from <= i < r.value ==> !DelimiterAt(s, i)
    ensures r.None? ==> forall i :: from <= i ==> !DelimiterAt(s, i)
    decreases |s| - from
  {
    if DelimiterAt(s, from) then Some(from)
    else if from == |s| then None
    else FindDelimiter(s, from + 1)
  }

  lemma FindDecides(s: Text)
    ensures FindDelimiter(s, 0).Some? <==> HasDelimiter(s)
  {
    if i :| OccursAt(s, Open(), i) {
      assert DelimiterAt(s, i);
    }
    if i :| OccursAt(s, Close(), i) {
      assert DelimiterAt(s, i);
    }
  }

  const DELIMITER_RULE := "delimiter_break"

  /** The rules in order: any instruction-shaped patterns, then the delimiter. */
  function Rules(others: seq<Rule>): seq<Rule> {
    others + [Rule(DELIMITER_RULE, (s: Text) => FindDelimiter(s, 0))]
  }

  function Snippet(value: Text, start: nat): (s: Text)
    ensures |s| <= SNIPPET_MAX
  {
    var low := if start < 10 then 0 else start - 10;
    var high := if start + SNIPPET_MAX < |value| then start + SNIPPET_MAX else |value|;
    var s := if low <= high then value[low..high] else [];
    if |s| <= SNIPPET_MAX then s else s[..SNIPPET_MAX]
  }

  function RuleHits(value: Text, path: Text, rules: seq<Rule>): seq<Hit> {
    if rules == [] then []
    else
      var m := rules[0].search(value);
      (if m.Some? then [Hit(path, rules[0].name, Snippet(value, m.value))] else [])
      + RuleHits(value, path, rules[1..])
  }

  function ChildPath(path: Text, key: Text): Text {
    if path != [] then path + T(".") + key else key
  }

  function IndexPath(path: Text, i: nat): Text {
    path + T("[") + T(Decimal(i)) + T("]")
  }

  /** Markers of a tree in document order. */
  function Scan(j: Json, path: Text, rules: seq<Rule>): seq<Hit> {
    match j
    case Obj(members) => ScanMembers(members, path, rules)
    case Arr(items) => ScanItems(items, 0, path, rules)
    case Str(s) => RuleHits(s, path, rules)
    case _ => []
  }

  function ScanMember(member: (Text, Json), path: Text, rules: seq<Rule>): seq<Hit> {
    var child := ChildPath(path, member.0);
    RuleHits(member.0, child + T("<key>"), rules) + Scan(member.1, child, rules)
  }

  function ScanMembers(members: seq<(Text, Json)>, path: Text, rules: seq<Rule>): seq<Hit> {
    if members == [] then [] else ScanMember(members[0], path, rules) + ScanMembers(members[1..], path, rules)
  }

  function ScanItems(items: seq<Json>, i: nat, path: Text, rules: seq<Rule>): seq<Hit> {
    if items == [] then []
    else Scan(items[0], IndexPath(path, i), rules) + ScanItems(items[1..], i + 1, path, rules)
  }

  function ScanAlert(j: Json, others: seq<Rule>): seq<Hit> {
    Scan(j, [], Rules(others))
  }

  predicate HasBoundaryBreak(hits: seq<Hit>) {
    exists i :: 0 <= i < |hits| && hits[i].rule == DELIMITER_RULE
  }

  /** The list that the walk shares between its recursive calls. */
  class HitList {
    var rows: seq<Hit>

    constructor ()
      ensures rows == []
    {
      rows := [];
    }

    method ScanText(value: Text, path: Text, rules: seq<Rule>)
      modifies this
      ensures rows == old(rows) + RuleHits(value, path, rules)
    {
      for n := 0 to |rules|
        invariant rows + RuleHits(value, path, rules[n..]) == old(rows) + RuleHits(value, path, rules)
      {
        assert rules[n..][1..] == rules[n + 1..];
        var m := rules[n].search(value);
        if m.Some? {
          var hit := Hit(path, rules[n].name, Snippet(value, m.value));
          assert rows + ([hit] + RuleHits(value, path, rules[n + 1..]))
              == (rows + [hit]) + RuleHits(value, path, rules[n + 1..]);
          rows := rows + [hit];
        } else {
          assert [] + RuleHits(value, path, rules[n + 1..]) == RuleHits(value, path, rules[n + 1..]);
        }
      }
    }

    method Walk(obj: Json, path: Text, rules: seq<Rule>)
      modifies this
      ensures rows == old(rows) + Scan(obj, path, rules)
      decreases obj, 1
    {
      match obj
      case Obj(members) => WalkMembers(members, path, rules);
      case Arr(items) => WalkItems(items, path, rules);
      case Str(s) => ScanText(s, path, rules);
      case _ =>
    }

    method WalkMembers(members: seq<(Text, Json)>, path: Text, rules: seq<Rule>)
      modifies this
      ensures rows == old(rows) + ScanMembers(members, path, rules)
      decreases members, 0
    {
      for n := 0 to |members|
        invariant rows + ScanMembers(members[n..], path, rules) == old(rows) + ScanMembers(members, path, rules)
      {
        assert members[n..][1..] == members[n + 1..];
        ghost var before, rest := rows, ScanMembers(members[n + 1..], path, rules);
        WalkMember(members[n], path, rules);
        assert before + (ScanMember(members[n], path, rules) + rest) == rows + rest;
      }
    }

    method WalkItems(items: seq<Json>, path: Text, rules: seq<Rule>)
      modifies this
      ensures rows == old(rows) + ScanItems(items, 0, path, rules)
      decreases items, 0
    {
      for n := 0 to |items|
        invariant rows + ScanItems(items[n..], n, path, rules) == old(rows) + ScanItems(items, 0, path, rules)
      {
        assert items[n..][1..] == items[n + 1..];
        ghost var before, rest := rows, ScanItems(items[n + 1..], n + 1, path, rules);
        Walk(items[n], IndexPath(path, n), rules);
        assert before + (Scan(items[n], IndexPath(path, n), rules) + rest) == rows + rest;
      }
    }

    method WalkMember(member: (Text, Json), path: Text, rules: seq<Rule>)
      modifies this
      ensures rows == old(rows) + ScanMember(member, path, rules)
      decreases member, 0
    {
      var child := ChildPath(path, member.0);
      ScanText(member.0, child + T("<key>"), rules);
      Walk(member.1, child, rules);
    }
  }

  /** The blocking check on the compact serialisation. */
  predicate ContainsBoundary(j: Json) {
    HasDelimiter(Dump(j, Compact, 0))
  }

  // ----- Agreement -----

  /** Some key or string of the tree holds a delimiter by itself. */
  ghost predicate AnyDelimiter(texts: seq<Text>) {
    exists i :: 0 <= i < |texts| && HasDelimiter(texts[i])
  }

  lemma AnyDelimiterConcat(a: seq<Text>, b: seq<Text>)
    ensures AnyDelimiter(a + b) <==> AnyDelimiter(a) || AnyDelimiter(b)
  {
    if i :| 0 <= i < |a + b| && HasDelimiter((a + b)[i]) {
      assert if i < |a| then HasDelimiter(a[i]) else HasDelimiter(b[i - |a|]);
    }
    if i :| 0 <= i < |a| && HasDelimiter(a[i]) {
      assert HasDelimiter((a + b)[i]);
    }
    if i :| 0 <= i < |b| && HasDelimiter(b[i]) {
      assert HasDelimiter((a + b)[|a| + i]);
    }
  }

  lemma BoundaryBreakConcat(a: seq<Hit>, b: seq<Hit>)
    ensures HasBoundaryBreak(a + b) <==> HasBoundaryBreak(a) || HasBoundaryBreak(b)
  {
    if i :| 0 <= i < |a + b| && (a + b)[i].rule == DELIMITER_RULE {
      assert if i < |a| then a[i].rule == DELIMITER_RULE else b[i - |a|].rule == DELIMITER_RULE;
    }
    if i :| 0 <= i < |a| && a[i].rule == DELIMITER_RULE {
      assert (a + b)[i].rule == DELIMITER_RULE;
    }
    if i :| 0 <= i < |b| && b[i].rule == DELIMITER_RULE {
      assert (a + b)[|a| + i].rule == DELIMITER_RULE;
    }
  }

  /** No other rule reports under the delimiter rule's name. */
  ghost predicate OtherRules(rules: seq<Rule>) {
    forall i :: 0 <= i < |rules| ==> rules[i].name != DELIMITER_RULE
  }

  lemma {:induction false} TextMarked(value: Text, path: Text, others: seq<Rule>)
    requires OtherRules(others)
    ensures HasBoundaryBreak(RuleHits(value, path, Rules(others))) <==> HasDelimiter(value)
    decreases others
  {
    var rules := Rules(others);
    if others == [] {
      assert rules[1..] == [];
      var m := FindDelimiter(value, 0);
      assert rules[0].search(value) == m;
      if m.Some? {
        assert RuleHits(value, path, rules)[0].rule == DELIMITER_RULE;
      }
      FindDecides(value);
    } else {
      assert rules[0] == others[0] && rules[1..] == Rules(others[1..]);
      TextMarked(value, path, others[1..]);
      var m := others[0].search(value);
      var first := if m.Some? then [Hit(path, others[0].name, Snippet(value, m.value))] else [];
      BoundaryBreakConcat(first, RuleHits(value, path, rules[1..]));
    }
  }

  /** The tree walk reports a broken boundary exactly when one string of the tree holds a delimiter. */
  lemma {:induction false} ScanMarked(j: Json, path: Text, others: seq<Rule>)
    requires OtherRules(others)
    ensures HasBoundaryBreak(Scan(j, path, Rules(others))) <==> AnyDelimiter(Strings(j))
    decreases j
  {
    match j
    case Obj(members) => ScanMembersMarked(members, path, others);
    case Arr(items) => ScanItemsMarked(items, 0, path, others);
    case Str(s) =>
      TextMarked(s, path, others);
      assert [s][0] == s;
    case _ =>
  }

  lemma {:induction false} ScanItemsMarked(items: seq<Json>, i: nat, path: Text, others: seq<Rule>)
    requires OtherRules(others)
    ensures HasBoundaryBreak(ScanItems(items, i, path, Rules(others))) <==> AnyDelimiter(ItemStrings(items))
    decreases items
  {
    if items != [] {
      ScanMarked(items[0], IndexPath(path, i), others);
      ScanItemsMarked(items[1..], i + 1, path, others);
      AnyDelimiterConcat(Strings(items[0]), ItemStrings(items[1..]));
      BoundaryBreakConcat(Scan(items[0], IndexPath(path, i), Rules(others)),
                          ScanItems(items[1..], i + 1, path, Rules(others)));
    }
  }

  lemma {:induction false} ScanMembersMarked(members: seq<(Text, Json)>, path: Text, others: seq<Rule>)
    requires OtherRules(others)
    ensures HasBoundaryBreak(ScanMembers(members, path, Rules(others))) <==> AnyDelimiter(MemberStrings(members))
    decreases members
  {
    if members != [] {
      ScanMemberMarked(members[0], path, others);
      ScanMembersMarked(members[1..], path, others);
      AnyDelimiterConcat(PairStrings(members[0]), MemberStrings(members[1..]));
      BoundaryBreakConcat(ScanMember(members[0], path, Rules(others)), ScanMembers(members[1..], path, Rules(others)));
    }
  }

  lemma {:induction false} ScanMemberMarked(member: (Text, Json), path: Text, others: seq<Rule>)
    requires OtherRules(others)
    ensures HasBoundaryBreak(ScanMember(member, path, Rules(others))) <==> AnyDelimiter(PairStrings(member))
    decreases member
  {
    var child := ChildPath(path, member.0);
    TextMarked(member.0, child + T("<key>"), others);
    ScanMarked(member.1, child, others);
    assert [member.0][0] == member.0;
    AnyDelimiterConcat([member.0], Strings(member.1));
    BoundaryBreakConcat(RuleHits(member.0, child + T("<key>"), Rules(others)), Scan(member.1, child, Rules(others)));
  }

  lemma TotalsMarkDelimiters(texts: seq<Text>)
    ensures AnyDelimiter(texts) <==> Total(texts, Open()) > 0 || Total(texts, Close()) > 0
  {
    TotalPositive(texts, Open());
    TotalPositive(texts, Close());
    if i :| 0 <= i < |texts| && Contains(texts[i], Open()) {
      assert HasDelimiter(texts[i]);
    }
    if i :| 0 <= i < |texts| && Contains(texts[i], Close()) {
      assert HasDelimiter(texts[i]);
    }
  }

  /** Gate, tree and scanner agree on every tree. */
  lemma GateAgreement(j: Json, others: seq<Rule>)
    requires WellFormed(j) && OtherRules(others)
    ensures ContainsBoundary(j) <==> AnyDelimiter(Strings(j))
    ensures ContainsBoundary(j) <==> HasBoundaryBreak(ScanAlert(j, others))
  {
    DelimitersAreTags();
    var printed := Dump(j, Compact, 0);
    CountPositive(printed, Open());
    CountPositive(printed, Close());
    CountDump(j, Compact, 0, Open());
    CountDump(j, Compact, 0, Close());
    TotalsMarkDelimiters(Strings(j));
    ScanMarked(j, [], others);
  }
}
