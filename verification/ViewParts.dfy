/**
 The evaluation view of assistant/views.py as a statement about the parts of an alert:
 which of them are left, where, and in what form.
 */
module ViewParts {
  import opened Json
  import opened JsonParts
  import opened Views

  /** A part of the alert, and whether a label field encloses it. */
  datatype Site = Site(part: Part, removed: bool)

  /** Every part of the alert in document order. */
  function Sites(j: Json, path: seq<Step>, removed: bool, u: Unicode): seq<Site> {
    match j
    case Obj(members) => [Site(Part(path, Obj([])), removed)] + MemberSites(members, path, removed, u)
    case Arr(items) => [Site(Part(path, Arr([])), removed)] + ItemSites(items, 0, path, removed, u)
    case _ => [Site(Part(path, j), removed)]
  }

  function PairSites(member: (Text, Json), path: seq<Step>, removed: bool, u: Unicode): seq<Site> {
    Sites(member.1, path + [Key(member.0)], removed || Dropped(u, member.0, member.1), u)
  }

  function MemberSites(members: seq<(Text, Json)>, path: seq<Step>, removed: bool, u: Unicode): seq<Site> {
    if members == [] then [] else PairSites(members[0], path, removed, u) + MemberSites(members[1..], path, removed, u)
  }

  function ItemSites(items: seq<Json>, i: nat, path: seq<Step>, removed: bool, u: Unicode): seq<Site> {
    if items == [] then []
    else Sites(items[0], path + [Index(i)], removed, u) + ItemSites(items[1..], i + 1, path, removed, u)
  }

  /** The parts of an alert, with the label fields of its top level marked as well. */
  function AlertSites(members: seq<(Text, Json)>, u: Unicode): seq<Site> {
    [Site(Part([], Obj([])), false)] + FieldSites(members, u)
  }

  function FieldSites(members: seq<(Text, Json)>, u: Unicode): seq<Site> {
    if members == [] then []
    else PairSites(members[0], [], LabelKey(members[0].0), u) + FieldSites(members[1..], u)
  }

  function StripPart(part: Part, u: Unicode): Part {
    if part.value.Str? then Part(part.path, Str(StripText(u, part.value.s))) else part
  }

  /** What should be left: the parts outside label fields, in order, texts without their codes. */
  function Kept(sites: seq<Site>, u: Unicode): seq<Part> {
    if sites == [] then []
    else (if sites[0].removed then [] else [StripPart(sites[0].part, u)]) + Kept(sites[1..], u)
  }

  lemma {:induction false} KeptConcat(a: seq<Site>, b: seq<Site>, u: Unicode)
    ensures Kept(a + b, u) == Kept(a, u) + Kept(b, u)
  {
    if a == [] {
      assert a + b == b;
    } else {
      var first := if a[0].removed then [] else [StripPart(a[0].part, u)];
      assert (a + b)[1..] == a[1..] + b;
      KeptConcat(a[1..], b, u);
      assert first + (Kept(a[1..], u) + Kept(b, u)) == (first + Kept(a[1..], u)) + Kept(b, u);
    }
  }

  // ----- Below a label field nothing is left -----

  lemma OneRemoved(part: Part, u: Unicode)
    ensures Kept([Site(part, true)], u) == []
  {
  }

  lemma OneKept(part: Part, u: Unicode)
    ensures Kept([Site(part, false)], u) == [StripPart(part, u)]
  {
    var sites := [Site(part, false)];
    assert sites[1..] == [];
  }

  lemma {:induction false} AllRemoved(j: Json, path: seq<Step>, u: Unicode)
    ensures Kept(Sites(j, path, true, u), u) == []
    decreases j
  {
    match j
    case Obj(members) =>
      AllMembersRemoved(members, path, u);
      KeptConcat([Site(Part(path, Obj([])), true)], MemberSites(members, path, true, u), u);
      OneRemoved(Part(path, Obj([])), u);
    case Arr(items) =>
      AllItemsRemoved(items, 0, path, u);
      KeptConcat([Site(Part(path, Arr([])), true)], ItemSites(items, 0, path, true, u), u);
      OneRemoved(Part(path, Arr([])), u);
    case _ =>
      var sites := Sites(j, path, true, u);
      assert sites[1..] == [];
  }

  lemma {:induction false} PairRemoved(member: (Text, Json), path: seq<Step>, u: Unicode)
    ensures Kept(PairSites(member, path, true, u), u) == []
    decreases member
  {
    AllRemoved(member.1, path + [Key(member.0)], u);
  }

  lemma {:induction false} AllMembersRemoved(members: seq<(Text, Json)>, path: seq<Step>, u: Unicode)
    ensures Kept(MemberSites(members, path, true, u), u) == []
    decreases members
  {
    if members != [] {
      PairRemoved(members[0], path, u);
      AllMembersRemoved(members[1..], path, u);
      KeptConcat(PairSites(members[0], path, true, u), MemberSites(members[1..], path, true, u), u);
    }
  }

  lemma {:induction false} AllItemsRemoved(items: seq<Json>, i: nat, path: seq<Step>, u: Unicode)
    ensures Kept(ItemSites(items, i, path, true, u), u) == []
    decreases items
  {
    if items != [] {
      AllRemoved(items[0], path + [Index(i)], u);
      AllItemsRemoved(items[1..], i + 1, path, u);
      KeptConcat(Sites(items[0], path + [Index(i)], true, u), ItemSites(items[1..], i + 1, path, true, u), u);
    }
  }

  // ----- Everything else is left -----

  function Viewed(j: Json, u: Unicode): Json {
    Stripped(WithoutLabels(j, u), u)
  }

  function ViewedMembers(members: seq<(Text, Json)>, u: Unicode): seq<(Text, Json)> {
    StrippedMembers(WithoutLabelMembers(members, u), u)
  }

  lemma {:induction false} StrippedConcat(a: seq<(Text, Json)>, b: seq<(Text, Json)>, u: Unicode)
    ensures StrippedMembers(a + b, u) == StrippedMembers(a, u) + StrippedMembers(b, u)
    decreases |a|
  {
    if a == [] {
      assert a + b == b;
    } else {
      assert (a + b)[1..] == a[1..] + b;
      StrippedConcat(a[1..], b, u);
    }
  }

  lemma {:induction false} TreeParts(j: Json, path: seq<Step>, u: Unicode)
    ensures Parts(Viewed(j, u), path) == Kept(Sites(j, path, false, u), u)
    decreases j
  {
    match j
    case Obj(members) =>
      MembersParts(members, path, u);
      KeptConcat([Site(Part(path, Obj([])), false)], MemberSites(members, path, false, u), u);
      OneKept(Part(path, Obj([])), u);
    case Arr(items) =>
      ItemsParts(items, 0, path, u);
      KeptConcat([Site(Part(path, Arr([])), false)], ItemSites(items, 0, path, false, u), u);
      OneKept(Part(path, Arr([])), u);
    case _ =>
      var sites := Sites(j, path, false, u);
      assert sites[1..] == [] && Kept(sites, u) == [StripPart(Part(path, j), u)];
  }

  lemma {:induction false} PairLeft(member: (Text, Json), path: seq<Step>, u: Unicode)
    ensures MemberParts(StrippedMembers(WithoutLabelMember(member, u), u), path) == Kept(PairSites(member, path, false, u), u)
    decreases member
  {
    var (key, value) := member;
    if Dropped(u, key, value) {
      AllRemoved(value, path + [Key(key)], u);
    } else {
      TreeParts(value, path + [Key(key)], u);
      var one := [(key, WithoutLabels(value, u))];
      assert one[1..] == [] && StrippedMembers(one, u) == [(key, Viewed(value, u))];
      var left := [(key, Viewed(value, u))];
      assert left[1..] == [] && MemberParts(left, path) == PairParts(left[0], path) + MemberParts(left[1..], path);
    }
  }

  lemma {:induction false} MembersParts(members: seq<(Text, Json)>, path: seq<Step>, u: Unicode)
    ensures MemberParts(ViewedMembers(members, u), path) == Kept(MemberSites(members, path, false, u), u)
    decreases members
  {
    if members != [] {
      var head, rest := WithoutLabelMember(members[0], u), WithoutLabelMembers(members[1..], u);
      PairLeft(members[0], path, u);
      MembersParts(members[1..], path, u);
      StrippedConcat(head, rest, u);
      MemberPartsConcat(StrippedMembers(head, u), StrippedMembers(rest, u), path);
      KeptConcat(PairSites(members[0], path, false, u), MemberSites(members[1..], path, false, u), u);
    }
  }

  lemma {:induction false} ItemsParts(items: seq<Json>, i: nat, path: seq<Step>, u: Unicode)
    ensures ItemParts(StrippedItems(WithoutLabelItems(items, u), u), i, path) == Kept(ItemSites(items, i, path, false, u), u)
    decreases items
  {
    if items != [] {
      TreeParts(items[0], path + [Index(i)], u);
      ItemsParts(items[1..], i + 1, path, u);
      KeptConcat(Sites(items[0], path + [Index(i)], false, u), ItemSites(items[1..], i + 1, path, false, u), u);
      var kept := WithoutLabelItems(items, u);
      assert kept[1..] == WithoutLabelItems(items[1..], u) && StrippedItems(kept, u)[1..] == StrippedItems(kept[1..], u);
    }
  }

  /** The parts of the view are exactly the alert's parts outside label fields, where they were, texts stripped. */
  lemma ViewKeepsEvidence(alert: Json, u: Unicode)
    requires alert.Obj?
    ensures Parts(EvaluationView(alert, u), []) == Kept(AlertSites(alert.members, u), u)
  {
    PoppedParts(alert.members, u);
    KeptConcat([Site(Part([], Obj([])), false)], FieldSites(alert.members, u), u);
    OneKept(Part([], Obj([])), u);
  }

  lemma {:induction false} PoppedParts(members: seq<(Text, Json)>, u: Unicode)
    ensures MemberParts(ViewedMembers(PopLabels(members), u), []) == Kept(FieldSites(members, u), u)
    decreases |members|
  {
    if members != [] {
      PoppedParts(members[1..], u);
      KeptConcat(PairSites(members[0], [], LabelKey(members[0].0), u), FieldSites(members[1..], u), u);
      if LabelKey(members[0].0) {
        PairRemoved(members[0], [], u);
        assert PopLabels(members) == PopLabels(members[1..]);
      } else {
        var popped := PopLabels(members);
        var head, rest := WithoutLabelMember(members[0], u), WithoutLabelMembers(PopLabels(members[1..]), u);
        assert popped[1..] == PopLabels(members[1..]);
        PairLeft(members[0], [], u);
        StrippedConcat(head, rest, u);
        MemberPartsConcat(StrippedMembers(head, u), StrippedMembers(rest, u), []);
      }
    }
  }
}
