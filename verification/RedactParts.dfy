/**
 redact_alert of assistant/redact.py as a statement about the parts of an alert: what is
 withheld, what is rewritten, what is left, and what the trace tells of each.
 */
module RedactParts {
  import opened Common
  import opened Injection
  import opened Json
  import opened JsonParts
  import opened Occurrences
  import opened Redact
  import opened ScanParts

  /** Outside sensitive keys, the whole value of a topmost one, or below that. */
  datatype Cover = Open | Top | Below

  /** A value of the alert and where it is. */
  datatype Spot = Spot(path: seq<Step>, value: Json, cover: Cover)

  /** Every value of the alert in document order. */
  function Spots(j: Json, path: seq<Step>, cover: Cover, policy: Policy): seq<Spot> {
    var inner := if cover == Open then Open else Below;
    [Spot(path, j, cover)]
    + match j
      case Obj(members) => MemberSpots(members, path, inner, policy)
      case Arr(items) => ItemSpots(items, 0, path, inner, policy)
      case _ => []
  }

  function PairSpots(member: (Text, Json), path: seq<Step>, cover: Cover, policy: Policy): seq<Spot> {
    Spots(member.1, path + [Key(member.0)], if cover == Open && policy.sensitive(member.0) then Top else cover, policy)
  }

  function MemberSpots(members: seq<(Text, Json)>, path: seq<Step>, cover: Cover, policy: Policy): seq<Spot> {
    if members == [] then [] else PairSpots(members[0], path, cover, policy) + MemberSpots(members[1..], path, cover, policy)
  }

  function ItemSpots(items: seq<Json>, i: nat, path: seq<Step>, cover: Cover, policy: Policy): seq<Spot> {
    if items == [] then []
    else Spots(items[0], path + [Index(i)], cover, policy) + ItemSpots(items[1..], i + 1, path, cover, policy)
  }

  // ----- What is left of each -----

  /** A container without its content, a text rewritten, any other value as it is. */
  function Rewritten(j: Json, policy: Policy): Json {
    if j.Str? then Str(policy.redactText(j.s)) else Shell(j)
  }

  function LeftOf(s: Spot, policy: Policy): seq<Part> {
    match s.cover
    case Open => [Part(s.path, Rewritten(s.value, policy))]
    case Top => [Part(s.path, Withheld())]
    case Below => []
  }

  function Left(spots: seq<Spot>, policy: Policy): seq<Part> {
    if spots == [] then [] else LeftOf(spots[0], policy) + Left(spots[1..], policy)
  }

  lemma {:induction false} LeftConcat(a: seq<Spot>, b: seq<Spot>, policy: Policy)
    ensures Left(a + b, policy) == Left(a, policy) + Left(b, policy)
  {
    if a == [] {
      assert a + b == b;
    } else {
      assert (a + b)[1..] == a[1..] + b;
      LeftConcat(a[1..], b, policy);
      Shift(LeftOf(a[0], policy), Left(a[1..], policy), Left(b, policy));
    }
  }

  lemma LeftFirst(spot: Spot, rest: seq<Spot>, policy: Policy)
    ensures Left([spot] + rest, policy) == LeftOf(spot, policy) + Left(rest, policy)
  {
    assert ([spot] + rest)[1..] == rest;
  }

  lemma {:induction false} NothingBelow(j: Json, path: seq<Step>, cover: Cover, policy: Policy)
    requires cover != Open
    ensures Left(Spots(j, path, cover, policy), policy) == LeftOf(Spot(path, j, cover), policy)
    decreases j
  {
    match j
    case Obj(members) =>
      NoMembersBelow(members, path, policy);
      LeftFirst(Spot(path, j, cover), MemberSpots(members, path, Below, policy), policy);
    case Arr(items) =>
      NoItemsBelow(items, 0, path, policy);
      LeftFirst(Spot(path, j, cover), ItemSpots(items, 0, path, Below, policy), policy);
    case _ => LeftFirst(Spot(path, j, cover), [], policy);
  }

  lemma {:induction false} NoMembersBelow(members: seq<(Text, Json)>, path: seq<Step>, policy: Policy)
    ensures Left(MemberSpots(members, path, Below, policy), policy) == []
    decreases members
  {
    if members != [] {
      NoPairBelow(members[0], path, policy);
      NoMembersBelow(members[1..], path, policy);
      LeftConcat(PairSpots(members[0], path, Below, policy), MemberSpots(members[1..], path, Below, policy), policy);
    }
  }

  lemma {:induction false} NoPairBelow(member: (Text, Json), path: seq<Step>, policy: Policy)
    ensures Left(PairSpots(member, path, Below, policy), policy) == []
    decreases member
  {
    NothingBelow(member.1, path + [Key(member.0)], Below, policy);
  }

  lemma {:induction false} NoItemsBelow(items: seq<Json>, i: nat, path: seq<Step>, policy: Policy)
    ensures Left(ItemSpots(items, i, path, Below, policy), policy) == []
    decreases items
  {
    if items != [] {
      NothingBelow(items[0], path + [Index(i)], Below, policy);
      NoItemsBelow(items[1..], i + 1, path, policy);
      LeftConcat(Spots(items[0], path + [Index(i)], Below, policy), ItemSpots(items[1..], i + 1, path, Below, policy), policy);
    }
  }

  /**
   The parts of the redacted alert are exactly those of the alert outside sensitive keys, in
   order and where they were, every text rewritten and everything else as it was, and one
   marker in place of the value of each topmost sensitive key.
   */
  lemma {:induction false} RedactionKeepsParts(j: Json, path: seq<Step>, policy: Policy)
    ensures Parts(Redacted(j, policy), path) == Left(Spots(j, path, Open, policy), policy)
    decreases j
  {
    match j
    case Obj(members) =>
      MembersKeepParts(members, path, policy);
      LeftFirst(Spot(path, j, Open), MemberSpots(members, path, Open, policy), policy);
    case Arr(items) =>
      ItemsKeepParts(items, 0, path, policy);
      LeftFirst(Spot(path, j, Open), ItemSpots(items, 0, path, Open, policy), policy);
    case _ => LeftFirst(Spot(path, j, Open), [], policy);
  }

  lemma {:induction false} MembersKeepParts(members: seq<(Text, Json)>, path: seq<Step>, policy: Policy)
    ensures MemberParts(RedactedMembers(members, policy), path) == Left(MemberSpots(members, path, Open, policy), policy)
    decreases members
  {
    if members != [] {
      PairKeepsParts(members[0], path, policy);
      MembersKeepParts(members[1..], path, policy);
      LeftConcat(PairSpots(members[0], path, Open, policy), MemberSpots(members[1..], path, Open, policy), policy);
    }
  }

  lemma {:induction false} PairKeepsParts(member: (Text, Json), path: seq<Step>, policy: Policy)
    ensures PairParts(RedactedMember(member, policy), path) == Left(PairSpots(member, path, Open, policy), policy)
    decreases member
  {
    if policy.sensitive(member.0) {
      NothingBelow(member.1, path + [Key(member.0)], Top, policy);
    } else {
      RedactionKeepsParts(member.1, path + [Key(member.0)], policy);
    }
  }

  lemma {:induction false} ItemsKeepParts(items: seq<Json>, i: nat, path: seq<Step>, policy: Policy)
    ensures ItemParts(RedactedItems(items, policy), i, path) == Left(ItemSpots(items, i, path, Open, policy), policy)
    decreases items
  {
    if items != [] {
      RedactionKeepsParts(items[0], path + [Index(i)], policy);
      ItemsKeepParts(items[1..], i + 1, path, policy);
      LeftConcat(Spots(items[0], path + [Index(i)], Open, policy), ItemSpots(items[1..], i + 1, path, Open, policy), policy);
    }
  }

  // ----- What the trace tells of each -----

  /** The rows for one value: one for each match in a text, one for a withheld value. */
  function RowsOf(s: Spot, root: Text, policy: Policy): seq<Row> {
    match s.cover
    case Open => if s.value.Str? then MatchRows(PathText(root, s.path), policy.matches(s.value.s), policy.redactText(s.value.s), policy) else []
    case Top => [KeyRow(PathText(root, s.path), s.value, policy)]
    case Below => []
  }

  function AllRows(spots: seq<Spot>, root: Text, policy: Policy): seq<Row> {
    if spots == [] then [] else RowsOf(spots[0], root, policy) + AllRows(spots[1..], root, policy)
  }

  lemma {:induction false} AllRowsConcat(a: seq<Spot>, b: seq<Spot>, root: Text, policy: Policy)
    ensures AllRows(a + b, root, policy) == AllRows(a, root, policy) + AllRows(b, root, policy)
  {
    if a == [] {
      assert a + b == b;
    } else {
      assert (a + b)[1..] == a[1..] + b;
      AllRowsConcat(a[1..], b, root, policy);
      Shift(RowsOf(a[0], root, policy), AllRows(a[1..], root, policy), AllRows(b, root, policy));
    }
  }

  lemma AllRowsFirst(spot: Spot, rest: seq<Spot>, root: Text, policy: Policy)
    ensures AllRows([spot] + rest, root, policy) == RowsOf(spot, root, policy) + AllRows(rest, root, policy)
  {
    assert ([spot] + rest)[1..] == rest;
  }

  lemma {:induction false} NoRowsBelow(j: Json, path: seq<Step>, cover: Cover, root: Text, policy: Policy)
    requires cover != Open
    ensures AllRows(Spots(j, path, cover, policy), root, policy) == RowsOf(Spot(path, j, cover), root, policy)
    decreases j
  {
    match j
    case Obj(members) =>
      NoMemberRowsBelow(members, path, root, policy);
      AllRowsFirst(Spot(path, j, cover), MemberSpots(members, path, Below, policy), root, policy);
    case Arr(items) =>
      NoItemRowsBelow(items, 0, path, root, policy);
      AllRowsFirst(Spot(path, j, cover), ItemSpots(items, 0, path, Below, policy), root, policy);
    case _ => AllRowsFirst(Spot(path, j, cover), [], root, policy);
  }

  lemma {:induction false} NoMemberRowsBelow(members: seq<(Text, Json)>, path: seq<Step>, root: Text, policy: Policy)
    ensures AllRows(MemberSpots(members, path, Below, policy), root, policy) == []
    decreases members
  {
    if members != [] {
      NoPairRowsBelow(members[0], path, root, policy);
      NoMemberRowsBelow(members[1..], path, root, policy);
      AllRowsConcat(PairSpots(members[0], path, Below, policy), MemberSpots(members[1..], path, Below, policy), root, policy);
    }
  }

  lemma {:induction false} NoPairRowsBelow(member: (Text, Json), path: seq<Step>, root: Text, policy: Policy)
    ensures AllRows(PairSpots(member, path, Below, policy), root, policy) == []
    decreases member
  {
    NoRowsBelow(member.1, path + [Key(member.0)], Below, root, policy);
  }

  lemma {:induction false} NoItemRowsBelow(items: seq<Json>, i: nat, path: seq<Step>, root: Text, policy: Policy)
    ensures AllRows(ItemSpots(items, i, path, Below, policy), root, policy) == []
    decreases items
  {
    if items != [] {
      NoRowsBelow(items[0], path + [Index(i)], Below, root, policy);
      NoItemRowsBelow(items[1..], i + 1, path, root, policy);
      AllRowsConcat(Spots(items[0], path + [Index(i)], Below, policy), ItemSpots(items[1..], i + 1, path, Below, policy), root, policy);
    }
  }

  /** The trace has the rows of every value in document order: those of texts that are rewritten, and one for each marker. */
  lemma {:induction false} TraceTellsOfEach(j: Json, path: seq<Step>, root: Text, policy: Policy)
    ensures Rows(j, PathText(root, path), policy) == AllRows(Spots(j, path, Open, policy), root, policy)
    decreases j
  {
    match j
    case Obj(members) =>
      MembersTell(members, path, root, policy);
      AllRowsFirst(Spot(path, j, Open), MemberSpots(members, path, Open, policy), root, policy);
    case Arr(items) =>
      ItemsTell(items, 0, path, root, policy);
      AllRowsFirst(Spot(path, j, Open), ItemSpots(items, 0, path, Open, policy), root, policy);
    case _ => AllRowsFirst(Spot(path, j, Open), [], root, policy);
  }

  lemma {:induction false} MembersTell(members: seq<(Text, Json)>, path: seq<Step>, root: Text, policy: Policy)
    ensures MemberRows(members, PathText(root, path), policy) == AllRows(MemberSpots(members, path, Open, policy), root, policy)
    decreases members
  {
    if members != [] {
      PairTells(members[0], path, root, policy);
      MembersTell(members[1..], path, root, policy);
      AllRowsConcat(PairSpots(members[0], path, Open, policy), MemberSpots(members[1..], path, Open, policy), root, policy);
    }
  }

  lemma {:induction false} PairTells(member: (Text, Json), path: seq<Step>, root: Text, policy: Policy)
    ensures PairRows(member, PathText(root, path), policy) == AllRows(PairSpots(member, path, Open, policy), root, policy)
    decreases member
  {
    PathTextMore(root, path, Key(member.0));
    if policy.sensitive(member.0) {
      NoRowsBelow(member.1, path + [Key(member.0)], Top, root, policy);
    } else {
      TraceTellsOfEach(member.1, path + [Key(member.0)], root, policy);
    }
  }

  lemma {:induction false} ItemsTell(items: seq<Json>, i: nat, path: seq<Step>, root: Text, policy: Policy)
    ensures ItemRows(items, i, PathText(root, path), policy) == AllRows(ItemSpots(items, i, path, Open, policy), root, policy)
    decreases items
  {
    if items != [] {
      PathTextMore(root, path, Index(i));
      TraceTellsOfEach(items[0], path + [Index(i)], root, policy);
      ItemsTell(items[1..], i + 1, path, root, policy);
      AllRowsConcat(Spots(items[0], path + [Index(i)], Open, policy), ItemSpots(items[1..], i + 1, path, Open, policy), root, policy);
    }
  }

  /** Every match has its own row, which calls it removed exactly when it is nowhere in the rewritten text. */
  lemma {:induction false} EveryMatchHasItsRow(path: Text, found: seq<(string, Text)>, redacted: Text, policy: Policy, i: nat)
    requires i < |found|
    ensures |MatchRows(path, found, redacted, policy)| == |found|
    ensures var row, raw := MatchRows(path, found, redacted, policy)[i], found[i].1;
            && row.path == path && row.rule == found[i].0 && !row.fromKey && row.kind == "str"
            && row.length == |raw| && row.masked == Mask(raw) && row.fingerprint == policy.fingerprint(raw)
            && (row.removed <==> raw != [] && forall k :: !OccursAt(redacted, raw, k))
    decreases |found|
  {
    RowsCount(path, found, redacted, policy);
    if i > 0 {
      EveryMatchHasItsRow(path, found[1..], redacted, policy, i - 1);
    } else if found[0].1 != [] {
      CountsOccurrences(redacted, found[0].1);
    }
  }

  lemma {:induction false} RowsCount(path: Text, found: seq<(string, Text)>, redacted: Text, policy: Policy)
    ensures |MatchRows(path, found, redacted, policy)| == |found|
  {
    if found != [] {
      RowsCount(path, found[1..], redacted, policy);
    }
  }

  lemma CountsOccurrences(s: Text, p: Text)
    requires p != []
    ensures Count(s, p) == 0 <==> forall k :: !OccursAt(s, p, k)
  {
    CountPositive(s, p);
  }

  /** A withheld value has one row, which shows its type and length and no character of it. */
  lemma WithheldHasItsRow(path: seq<Step>, value: Json, root: Text, policy: Policy)
    ensures var rows := RowsOf(Spot(path, value, Top), root, policy);
            && |rows| == 1 && rows[0].fromKey && rows[0].removed && rows[0].rule == "sensitive_field"
            && rows[0].path == PathText(root, path) && rows[0].kind == TypeName(value)
            && rows[0].length == |Canonical(value, policy)| && rows[0].fingerprint == policy.fingerprint(Canonical(value, policy))
            && forall other :: |other| == rows[0].length ==> rows[0].masked == Mask(other)
  {
  }
}
