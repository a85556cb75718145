/**
 scan_alert of assistant/injection.py as a statement about the parts of an alert: which
 markers each key and each text gives.
 */
module ScanParts {
  import opened Common
  import opened Injection
  import opened Json
  import opened JsonParts
  import opened Occurrences

  function StepText(above: Text, step: Step): Text {
    match step
    case Key(name) => ChildPath(above, name)
    case Index(i) => IndexPath(above, i)
  }

  /** A way through the tree as the trace writes it. */
  function PathText(root: Text, path: seq<Step>): Text {
    if path == [] then root else StepText(PathText(root, path[..|path| - 1]), path[|path| - 1])
  }

  lemma PathTextMore(root: Text, path: seq<Step>, step: Step)
    ensures PathText(root, path + [step]) == StepText(PathText(root, path), step)
  {
    assert (path + [step])[..|path|] == path;
  }

  /** The markers of the key that leads to a part, and of the part itself when it is a text. */
  function HitsOf(part: Part, root: Text, rules: seq<Rule>): seq<Hit> {
    KeyHits(part.path, root, rules)
    + if part.value.Str? then RuleHits(part.value.s, PathText(root, part.path), rules) else []
  }

  function KeyHits(path: seq<Step>, root: Text, rules: seq<Rule>): seq<Hit> {
    if path != [] && path[|path| - 1].Key? then RuleHits(path[|path| - 1].name, PathText(root, path) + T("<key>"), rules) else []
  }

  function AllHits(parts: seq<Part>, root: Text, rules: seq<Rule>): seq<Hit> {
    if parts == [] then [] else HitsOf(parts[0], root, rules) + AllHits(parts[1..], root, rules)
  }

  lemma {:induction false} AllHitsConcat(a: seq<Part>, b: seq<Part>, root: Text, rules: seq<Rule>)
    ensures AllHits(a + b, root, rules) == AllHits(a, root, rules) + AllHits(b, root, rules)
  {
    if a == [] {
      assert a + b == b;
    } else {
      assert (a + b)[1..] == a[1..] + b;
      AllHitsConcat(a[1..], b, root, rules);
      Regroup(HitsOf(a[0], root, rules), AllHits(a[1..], root, rules), AllHits(b, root, rules));
    }
  }

  lemma Regroup(a: seq<Hit>, b: seq<Hit>, c: seq<Hit>)
    ensures a + (b + c) == (a + b) + c
  {
  }

  lemma AllHitsFirst(part: Part, rest: seq<Part>, root: Text, rules: seq<Rule>)
    ensures AllHits([part] + rest, root, rules) == HitsOf(part, root, rules) + AllHits(rest, root, rules)
  {
    assert ([part] + rest)[1..] == rest;
  }

  lemma ShellTells(path: seq<Step>, j: Json, root: Text, rules: seq<Rule>)
    ensures !j.Str? ==> HitsOf(Part(path, Shell(j)), root, rules) == KeyHits(path, root, rules)
  {
  }

  /** The markers below a way into the tree, after those of the key that it ends with. */
  lemma {:induction false} ScanTellsBelow(j: Json, path: seq<Step>, root: Text, rules: seq<Rule>)
    ensures KeyHits(path, root, rules) + Scan(j, PathText(root, path), rules) == AllHits(Parts(j, path), root, rules)
    decreases j
  {
    match j
    case Obj(members) =>
      MembersTell(members, path, root, rules);
      AllHitsFirst(Part(path, Obj([])), MemberParts(members, path), root, rules);
      ShellTells(path, j, root, rules);
    case Arr(items) =>
      ItemsTell(items, 0, path, root, rules);
      AllHitsFirst(Part(path, Arr([])), ItemParts(items, 0, path), root, rules);
      ShellTells(path, j, root, rules);
    case _ => AllHitsFirst(Part(path, j), [], root, rules);
  }

  lemma {:induction false} MembersTell(members: seq<(Text, Json)>, path: seq<Step>, root: Text, rules: seq<Rule>)
    ensures ScanMembers(members, PathText(root, path), rules) == AllHits(MemberParts(members, path), root, rules)
    decreases members
  {
    if members != [] {
      PairTells(members[0], path, root, rules);
      MembersTell(members[1..], path, root, rules);
      AllHitsConcat(PairParts(members[0], path), MemberParts(members[1..], path), root, rules);
    }
  }

  lemma {:induction false} PairTells(member: (Text, Json), path: seq<Step>, root: Text, rules: seq<Rule>)
    ensures ScanMember(member, PathText(root, path), rules) == AllHits(PairParts(member, path), root, rules)
    decreases member
  {
    PathTextMore(root, path, Key(member.0));
    ScanTellsBelow(member.1, path + [Key(member.0)], root, rules);
  }

  lemma {:induction false} ItemsTell(items: seq<Json>, i: nat, path: seq<Step>, root: Text, rules: seq<Rule>)
    ensures ScanItems(items, i, PathText(root, path), rules) == AllHits(ItemParts(items, i, path), root, rules)
    decreases items
  {
    if items != [] {
      PathTextMore(root, path, Index(i));
      ScanTellsBelow(items[0], path + [Index(i)], root, rules);
      ItemsTell(items[1..], i + 1, path, root, rules);
      AllHitsConcat(Parts(items[0], path + [Index(i)]), ItemParts(items[1..], i + 1, path), root, rules);
    }
  }

  /** The scan reports, in document order, the markers of every key and every text of the tree, and no others. */
  lemma ScanTellsOfEach(j: Json, others: seq<Rule>)
    ensures ScanAlert(j, others) == AllHits(Parts(j, []), [], Rules(others))
  {
    ScanTellsBelow(j, [], [], Rules(others));
  }

  /** A text gives one marker for each rule that finds something in it. */
  lemma {:induction false} RulesTellExactly(value: Text, path: Text, rules: seq<Rule>, hit: Hit)
    ensures hit in RuleHits(value, path, rules) <==> exists k :: 0 <= k < |rules| && Tells(rules[k], value, path, hit)
  {
    if rules != [] {
      RulesTellExactly(value, path, rules[1..], hit);
      if k :| 0 <= k < |rules| && Tells(rules[k], value, path, hit) {
        assert k > 0 ==> Tells(rules[1..][k - 1], value, path, hit);
      }
      if k :| 0 <= k < |rules[1..]| && Tells(rules[1..][k], value, path, hit) {
        assert Tells(rules[k + 1], value, path, hit);
      }
      if Tells(rules[0], value, path, hit) {
        assert RuleHits(value, path, rules)[0] == hit;
      }
    }
  }

  predicate Tells(rule: Rule, value: Text, path: Text, hit: Hit) {
    var m := rule.search(value);
    m.Some? && hit == Hit(path, rule.name, Snippet(value, m.value))
  }

  /** A marker shows the text from up to ten characters before the match on, as far as its bound allows. */
  lemma SnippetShows(value: Text, start: nat)
    requires start <= |value|
    ensures var low := if start < 10 then 0 else start - 10;
            OccursAt(value, Snippet(value, start), low) && (|Snippet(value, start)| == SNIPPET_MAX || low + |Snippet(value, start)| == |value|)
  {
  }
}
