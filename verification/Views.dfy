/**
 assistant/views.py: the evaluation view removes detection labels and technique
 codes from an alert before a model is asked to classify it.
 */
module Views {
  import opened Common
  import opened Json
  import opened Regex

  /** Python's character tables: `\s`, `\d`, `\w` and `str.lower`. */
  datatype Unicode = Unicode(space: CodePoint -> bool, digit: CodePoint -> bool, word: CodePoint -> bool, lower: Text -> Text)

  predicate IsT(c: CodePoint) { c == 't' as int || c == 'T' as int }

  const BLANK: CodePoint := ' ' as int

  /** What the proofs use of those tables. */
  ghost predicate Sane(u: Unicode) {
    && (forall c :: '0' as int <= c <= '9' as int ==> u.digit(c))
    && (forall c: CodePoint :: c < 128 && u.digit(c) ==> '0' as int <= c <= '9' as int)
    && (forall c :: u.digit(c) ==> u.word(c) && !u.space(c) && c != BLANK && !IsT(c))
    && (forall c :: IsT(c) ==> u.word(c) && !u.space(c))
  }

  // ----- The two patterns -----

  function Digits(u: Unicode, n: nat, rest: Re): Re {
    if n == 0 then rest else Then(Class(u.digit), Digits(u, n - 1, rest))
  }

  function Nothing(): Re { Opt(Class((c: CodePoint) => false)) }

  function DotOrUnderscore(): Re { Class((c: CodePoint) => c == '.' as int || c == '_' as int) }

  /** `[tT]\d{4}(?:[._]\d{3})?` */
  function CodePattern(u: Unicode): Re {
    Then(Class(IsT), Digits(u, 4, Opt(Then(DotOrUnderscore(), Digits(u, 3, Nothing())))))
  }

  function Char(c: char): Re { Class((x: CodePoint) => x == c as int) }

  /** `\(?\b CODE (?:\s*[/,]\s* CODE)*\b\)?` */
  function ProsePattern(u: Unicode): Re {
    var slash := Class((c: CodePoint) => c == '/' as int || c == ',' as int);
    var more := Star(Then(Star(Class(u.space)), Then(slash, Then(Star(Class(u.space)), CodePattern(u)))));
    Then(Opt(Char('(')), Then(Boundary(u.word), Then(CodePattern(u), Then(more, Then(Boundary(u.word), Opt(Char(')')))))))
  }

  /** A technique code starts at `i`: a letter T and four digits. */
  predicate CodeAt(u: Unicode, s: Text, i: int) {
    0 <= i && i + 5 <= |s| && IsT(s[i]) && u.digit(s[i + 1]) && u.digit(s[i + 2]) && u.digit(s[i + 3]) && u.digit(s[i + 4])
  }

  ghost predicate HasCode(u: Unicode, s: Text) {
    exists i :: CodeAt(u, s, i)
  }

  lemma ClassMatches(member: CodePoint -> bool, rest: Re, s: Text, i: nat)
    requires i <= |s|
    ensures Matches(Then(Class(member), rest), s, i) <==> i < |s| && member(s[i]) && Matches(rest, s, i + 1)
  {
    ThenMatches(Class(member), rest, s, i);
    if i < |s| && member(s[i]) {
      assert Ends(Class(member), s, i)[0] == i + 1;
    }
  }

  lemma {:induction false} DigitsMatch(u: Unicode, n: nat, rest: Re, s: Text, i: nat)
    requires i <= |s| && forall k :: i <= k <= |s| ==> Matches(rest, s, k)
    ensures Matches(Digits(u, n, rest), s, i) <==> i + n <= |s| && forall k :: i <= k < i + n ==> u.digit(s[k])
    decreases n
  {
    if n > 0 {
      ClassMatches(u.digit, Digits(u, n - 1, rest), s, i);
      if i < |s| {
        DigitsMatch(u, n - 1, rest, s, i + 1);
      }
    }
  }

  /** The loose pattern matches exactly where a code starts. */
  lemma CodePatternMatches(u: Unicode, s: Text, i: nat)
    requires i <= |s|
    ensures Matches(CodePattern(u), s, i) <==> CodeAt(u, s, i)
  {
    var suffix := Opt(Then(DotOrUnderscore(), Digits(u, 3, Nothing())));
    assert forall k :: 0 <= k <= |s| ==> Matches(suffix, s, k);
    ClassMatches(IsT, Digits(u, 4, suffix), s, i);
    if i < |s| {
      DigitsMatch(u, 4, suffix, s, i + 1);
    }
  }

  /** The anchored pattern matches only at a code, or at a bracket before one, on a word boundary. */
  lemma ProsePatternMatches(u: Unicode, s: Text, i: nat)
    requires i <= |s| && Matches(ProsePattern(u), s, i)
    ensures exists k :: i <= k <= i + 1 && CodeAt(u, s, k) && AtBoundary(u.word, s, k)
  {
    var slash := Class((c: CodePoint) => c == '/' as int || c == ',' as int);
    var more := Star(Then(Star(Class(u.space)), Then(slash, Then(Star(Class(u.space)), CodePattern(u)))));
    var tail := Then(more, Then(Boundary(u.word), Opt(Char(')'))));
    var anchored := Then(Boundary(u.word), Then(CodePattern(u), tail));
    ThenMatches(Opt(Char('(')), anchored, s, i);
    var mid := Ends(Opt(Char('(')), s, i);
    var n :| 0 <= n < |mid| && Matches(anchored, s, mid[n]);
    var m := mid[n];
    ThenMatches(Boundary(u.word), Then(CodePattern(u), tail), s, m);
    ThenMatches(CodePattern(u), tail, s, m);
    CodePatternMatches(u, s, m);
    assert CodeAt(u, s, m) && AtBoundary(u.word, s, m);
  }

  // ----- Stripping one string -----

  /** `s.replace("  ", " ")` */
  function Collapse(s: Text): Text {
    if |s| < 2 then s
    else if s[0] == BLANK && s[1] == BLANK then [BLANK] + Collapse(s[2..])
    else [s[0]] + Collapse(s[1..])
  }

  function TrimLeft(u: Unicode, s: Text): Text {
    if s != [] && u.space(s[0]) then TrimLeft(u, s[1..]) else s
  }

  function TrimRight(u: Unicode, s: Text): Text {
    if s != [] && u.space(s[|s| - 1]) then TrimRight(u, s[..|s| - 1]) else s
  }

  function Tidy(u: Unicode, s: Text): Text {
    TrimRight(u, TrimLeft(u, Collapse(s)))
  }

  function FirstPass(u: Unicode, s: Text): Text {
    Removed(ProsePattern(u), s)
  }

  /** The string leaf of the evaluation view. */
  function StripText(u: Unicode, s: Text): Text {
    Tidy(u, Removed(CodePattern(u), FirstPass(u, s)))
  }

  lemma {:induction false} PiecesHoldNoCode(u: Unicode, s: Text, start: nat, i: nat)
    requires start <= i <= |s| && forall k :: start <= k < i ==> !CodeAt(u, s, k)
    ensures forall n :: 0 <= n < |Pieces(CodePattern(u), s, start, i)| ==>
                          !HasCode(u, Pieces(CodePattern(u), s, start, i)[n])
    decreases |s| - i
  {
    if i == |s| {
      NoCodeInSlice(u, s, start, i);
      assert s[start..] == s[start..i];
    } else {
      CodePatternMatches(u, s, i);
      var ends := Ends(CodePattern(u), s, i);
      if ends != [] && ends[0] > i {
        NoCodeInSlice(u, s, start, i);
        PiecesHoldNoCode(u, s, ends[0], ends[0]);
      } else {
        CodeEndsLater(u, s, i);
        PiecesHoldNoCode(u, s, start, i + 1);
      }
    }
  }

  lemma NoCodeInSlice(u: Unicode, s: Text, start: nat, i: nat)
    requires start <= i <= |s| && forall k :: start <= k < i ==> !CodeAt(u, s, k)
    ensures !HasCode(u, s[start..i])
  {
    forall k ensures !CodeAt(u, s[start..i], k) {
      if CodeAt(u, s[start..i], k) {
        assert CodeAt(u, s, start + k);
      }
    }
  }

  /** A match of the loose pattern consumes its first character. */
  lemma CodeEndsLater(u: Unicode, s: Text, i: nat)
    requires i < |s|
    ensures forall k :: 0 <= k < |Ends(CodePattern(u), s, i)| ==> Ends(CodePattern(u), s, i)[k] > i
  {
    var rest := Digits(u, 4, Opt(Then(DotOrUnderscore(), Digits(u, 3, Nothing()))));
    if IsT(s[i]) {
      var starts: seq<nat> := [i + 1];
      assert Ends(Class(IsT), s, i) == starts && starts[1..] == [];
      assert Ends(CodePattern(u), s, i) == Ends(rest, s, i + 1) + EndsFromAll(rest, s, i, starts[1..]);
    }
  }

  lemma JoinedOne(s: Text)
    ensures Joined([s]) == s
  {
    var pieces := [s];
    assert pieces[1..] == [];
  }

  /** Where the first `n` pieces of a joined text end. */
  function Seam(pieces: seq<Text>, n: nat): nat
    requires n <= |pieces|
  {
    |Joined(pieces[..n])|
  }

  /** Some removal took place strictly inside the five characters at `k`. */
  ghost predicate Straddles(pieces: seq<Text>, k: int) {
    exists n :: 0 < n < |pieces| && k < Seam(pieces, n) < k + 5
  }

  /** In a text joined from code-free pieces, every code straddles a seam. */
  lemma {:induction false} CodesStraddle(u: Unicode, pieces: seq<Text>, k: int)
    requires forall n :: 0 <= n < |pieces| ==> !HasCode(u, pieces[n])
    requires CodeAt(u, Joined(pieces), k)
    ensures Straddles(pieces, k)
    decreases |pieces|
  {
    var head, tail := pieces[0], pieces[1..];
    var whole := Joined(pieces);
    assert whole == head + Joined(tail);
    if k >= |head| {
      assert whole[|head|..] == Joined(tail);
      assert CodeAt(u, Joined(tail), k - |head|);
      CodesStraddle(u, tail, k - |head|);
      var n :| 0 < n < |tail| && k - |head| < Seam(tail, n) < k - |head| + 5;
      assert pieces[..n + 1][1..] == tail[..n];
      assert Seam(pieces, n + 1) == |head| + Seam(tail, n);
    } else {
      assert k + 5 <= |head| ==> CodeAt(u, head, k);
      assert pieces[..1] == [head];
      JoinedOne(head);
      assert Seam(pieces, 1) == |head|;
      assert |pieces| == 1 ==> tail == [];
      assert |whole| > |head| ==> |pieces| > 1;
    }
  }

  // ----- Collapsing spaces neither makes nor breaks a code -----

  lemma {:induction false} CollapsePrefix(s: Text, n: nat)
    requires n <= |Collapse(s)| && forall k :: 0 <= k < n ==> Collapse(s)[k] != BLANK
    ensures n <= |s| && Collapse(s)[..n] == s[..n]
    decreases |s|
  {
    if n > 0 && |s| >= 2 {
      assert Collapse(s)[0] == s[0] != BLANK;
      var c := Collapse(s[1..]);
      assert Collapse(s)[1..] == c;
      assert forall k :: 0 <= k < n - 1 ==> c[k] == Collapse(s)[k + 1];
      CollapsePrefix(s[1..], n - 1);
      assert s[..n] == [s[0]] + s[1..][..n - 1];
      assert Collapse(s)[..n] == [s[0]] + c[..n - 1];
    }
  }

  /** A code in the collapsed text stood in the original, at a position no smaller. */
  lemma {:induction false} CollapseMakesNoCode(u: Unicode, s: Text, k: nat) returns (j: nat)
    requires Sane(u) && CodeAt(u, Collapse(s), k)
    ensures CodeAt(u, s, j) && Collapse(s)[k..k + 5] == s[j..j + 5]
    decreases |s|
  {
    var c := Collapse(s);
    if k == 0 {
      CollapsePrefix(s, 5);
      j := 0;
    } else {
      var skip := if s[0] == BLANK && s[1] == BLANK then 2 else 1;
      var rest := Collapse(s[skip..]);
      assert c[1..] == rest;
      assert CodeAt(u, rest, k - 1) && rest[k - 1..k + 4] == c[k..k + 5];
      j := CollapseMakesNoCode(u, s[skip..], k - 1);
      assert s[skip..][j..j + 5] == s[j + skip..j + skip + 5];
      j := j + skip;
    }
  }

  lemma {:induction false} CollapseKeepsPrefix(s: Text, n: nat)
    requires n <= |s| && forall k :: 0 <= k < n ==> s[k] != BLANK
    ensures n <= |Collapse(s)| && Collapse(s)[..n] == s[..n]
    decreases |s|
  {
    if n > 0 && |s| >= 2 {
      CollapseKeepsPrefix(s[1..], n - 1);
      assert Collapse(s)[1..] == Collapse(s[1..]);
      assert s[..n] == [s[0]] + s[1..][..n - 1];
      assert Collapse(s)[..n] == [s[0]] + Collapse(s[1..])[..n - 1];
    }
  }

  lemma {:induction false} CollapseKeepsCodes(u: Unicode, s: Text, j: nat)
    requires Sane(u) && CodeAt(u, s, j)
    ensures HasCode(u, Collapse(s))
    decreases |s|
  {
    if j == 0 {
      CollapseKeepsPrefix(s, 5);
      assert forall k :: 0 <= k < 5 ==> Collapse(s)[k] == Collapse(s)[..5][k] == s[..5][k];
      assert CodeAt(u, Collapse(s), 0);
    } else {
      var skip := if s[0] == BLANK && s[1] == BLANK then 2 else 1;
      assert skip <= j;
      assert forall k :: 0 <= k < |s| - skip ==> s[skip..][k] == s[skip + k];
      CollapseKeepsCodes(u, s[skip..], j - skip);
      var k :| CodeAt(u, Collapse(s[skip..]), k);
      assert Collapse(s)[1..] == Collapse(s[skip..]);
      assert CodeAt(u, Collapse(s), k + 1);
    }
  }

  lemma {:induction false} TrimLeftIsSuffix(u: Unicode, s: Text) returns (n: nat)
    ensures n <= |s| && TrimLeft(u, s) == s[n..] && forall k :: 0 <= k < n ==> u.space(s[k])
  {
    if s != [] && u.space(s[0]) {
      var m := TrimLeftIsSuffix(u, s[1..]);
      n := m + 1;
      assert s[1..][m..] == s[n..];
      assert forall k :: 0 < k < n ==> s[k] == s[1..][k - 1];
    } else {
      n := 0;
    }
  }

  lemma {:induction false} TrimRightIsPrefix(u: Unicode, s: Text) returns (n: nat)
    ensures n <= |s| && TrimRight(u, s) == s[..n] && forall k :: n <= k < |s| ==> u.space(s[k])
  {
    if s != [] && u.space(s[|s| - 1]) {
      n := TrimRightIsPrefix(u, s[..|s| - 1]);
      assert s[..|s| - 1][..n] == s[..n];
    } else {
      n := |s|;
    }
  }

  /** The tidied text is a slice of the collapsed one, and what was cut off is white space. */
  lemma TrimIsSlice(u: Unicode, s: Text) returns (low: nat, high: nat)
    ensures low <= high <= |Collapse(s)| && Tidy(u, s) == Collapse(s)[low..high]
    ensures forall k :: 0 <= k < low || high <= k < |Collapse(s)| ==> u.space(Collapse(s)[k])
  {
    var c := Collapse(s);
    low := TrimLeftIsSuffix(u, c);
    var n := TrimRightIsPrefix(u, c[low..]);
    high := low + n;
    assert c[low..][..n] == c[low..high];
    assert forall k :: high <= k < |c| ==> c[k] == c[low..][k - low];
  }

  lemma TidyMakesNoCode(u: Unicode, s: Text, k: nat) returns (j: nat)
    requires Sane(u) && CodeAt(u, Tidy(u, s), k)
    ensures CodeAt(u, s, j) && Tidy(u, s)[k..k + 5] == s[j..j + 5]
  {
    var low, high := TrimIsSlice(u, s);
    var c := Collapse(s);
    assert CodeAt(u, c, low + k) && c[low + k..low + k + 5] == Tidy(u, s)[k..k + 5];
    j := CollapseMakesNoCode(u, s, low + k);
  }

  lemma TidyKeepsCodes(u: Unicode, s: Text, j: nat)
    requires Sane(u) && CodeAt(u, s, j)
    ensures HasCode(u, Tidy(u, s))
  {
    CollapseKeepsCodes(u, s, j);
    var c := Collapse(s);
    var k :| CodeAt(u, c, k);
    var low, high := TrimIsSlice(u, s);
    assert !u.space(c[k]) && !u.space(c[k + 4]) && !u.space(c[k + 1]) && !u.space(c[k + 2]) && !u.space(c[k + 3]);
    assert low <= k && k + 5 <= high;
    assert CodeAt(u, c[low..high], k - low);
  }

  function SecondPass(u: Unicode, s: Text): seq<Text> {
    Pieces(CodePattern(u), FirstPass(u, s), 0, 0)
  }

  /** Every code left in a leaf straddles a place where the second pass removed one. */
  lemma SurvivorsStraddle(u: Unicode, s: Text, k: nat)
    requires Sane(u) && CodeAt(u, StripText(u, s), k)
    ensures exists j :: CodeAt(u, Joined(SecondPass(u, s)), j) && Straddles(SecondPass(u, s), j)
                        && Joined(SecondPass(u, s))[j..j + 5] == StripText(u, s)[k..k + 5]
  {
    var pieces := SecondPass(u, s);
    PiecesHoldNoCode(u, FirstPass(u, s), 0, 0);
    var j := TidyMakesNoCode(u, Joined(pieces), k);
    CodesStraddle(u, pieces, j);
    assert CodeAt(u, Joined(pieces), j) && Straddles(pieces, j)
           && Joined(pieces)[j..j + 5] == StripText(u, s)[k..k + 5];
  }

  /** A leaf without a code changes only in its spaces. */
  lemma CodeFreeLeafKept(u: Unicode, s: Text)
    requires !HasCode(u, s)
    ensures StripText(u, s) == Tidy(u, s)
  {
    forall k | 0 <= k < |s| ensures !Matches(ProsePattern(u), s, k) && !Matches(CodePattern(u), s, k) {
      if Matches(ProsePattern(u), s, k) {
        ProsePatternMatches(u, s, k);
      }
      CodePatternMatches(u, s, k);
    }
    NoMatchNoChange(ProsePattern(u), s, 0, 0);
    NoMatchNoChange(CodePattern(u), s, 0, 0);
    assert s[0..] == s;
    JoinedOne(s);
  }

  // ----- The tree -----

  const LABEL_KEYS := ["mitre", "rule_id", "rule_description", "evidence_file"]

  predicate LabelKey(key: Text) {
    exists i :: 0 <= i < |LABEL_KEYS| && key == T(LABEL_KEYS[i])
  }

  /** A key of the explicit denylist, whatever its case. */
  predicate Denied(u: Unicode, key: Text) {
    u.lower(key) == T("audit.key")
  }

  predicate EndsWith(s: Text, tail: Text) {
    |tail| <= |s| && s[|s| - |tail|..] == tail
  }

  predicate KeyShaped(u: Unicode, key: Text) {
    var kl := u.lower(key);
    kl == T("key") || EndsWith(kl, T(".key")) || EndsWith(kl, T("_key"))
  }

  predicate LooksLikeLabel(u: Unicode, value: Json) {
    value.Str? && exists i :: 0 <= i < |value.s| && CodeAt(u, value.s, i)
  }

  predicate Dropped(u: Unicode, key: Text, value: Json) {
    Denied(u, key) || (KeyShaped(u, key) && LooksLikeLabel(u, value))
  }

  function WithoutLabels(j: Json, u: Unicode): Json {
    match j
    case Obj(members) => Obj(WithoutLabelMembers(members, u))
    case Arr(items) => Arr(WithoutLabelItems(items, u))
    case _ => j
  }

  function WithoutLabelMember(member: (Text, Json), u: Unicode): seq<(Text, Json)> {
    if Dropped(u, member.0, member.1) then [] else [(member.0, WithoutLabels(member.1, u))]
  }

  function WithoutLabelMembers(members: seq<(Text, Json)>, u: Unicode): seq<(Text, Json)> {
    if members == [] then [] else WithoutLabelMember(members[0], u) + WithoutLabelMembers(members[1..], u)
  }

  function WithoutLabelItems(items: seq<Json>, u: Unicode): seq<Json> {
    if items == [] then [] else [WithoutLabels(items[0], u)] + WithoutLabelItems(items[1..], u)
  }

  function Stripped(j: Json, u: Unicode): Json {
    match j
    case Obj(members) => Obj(StrippedMembers(members, u))
    case Arr(items) => Arr(StrippedItems(items, u))
    case Str(s) => Str(StripText(u, s))
    case _ => j
  }

  function StrippedMember(member: (Text, Json), u: Unicode): (Text, Json) {
    (member.0, Stripped(member.1, u))
  }

  function StrippedMembers(members: seq<(Text, Json)>, u: Unicode): seq<(Text, Json)> {
    if members == [] then [] else [StrippedMember(members[0], u)] + StrippedMembers(members[1..], u)
  }

  function StrippedItems(items: seq<Json>, u: Unicode): seq<Json> {
    if items == [] then [] else [Stripped(items[0], u)] + StrippedItems(items[1..], u)
  }

  function PopLabels(members: seq<(Text, Json)>): (out: seq<(Text, Json)>)
    ensures forall i :: 0 <= i < |out| ==> !LabelKey(out[i].0) && out[i] in members
  {
    if members == [] then []
    else (if LabelKey(members[0].0) then [] else [members[0]]) + PopLabels(members[1..])
  }

  function EvaluationView(alert: Json, u: Unicode): Json
    requires alert.Obj?
  {
    Stripped(WithoutLabels(Obj(PopLabels(alert.members)), u), u)
  }

  /** No key of the tree is on the denylist, at any depth. */
  predicate NoDeniedKey(j: Json, u: Unicode) {
    match j
    case Obj(members) => forall i :: 0 <= i < |members| ==> !Denied(u, members[i].0) && NoDeniedKey(members[i].1, u)
    case Arr(items) => forall i :: 0 <= i < |items| ==> NoDeniedKey(items[i], u)
    case _ => true
  }

  lemma {:induction false} LabelsGone(j: Json, u: Unicode)
    ensures NoDeniedKey(WithoutLabels(j, u), u)
    decreases j
  {
    match j
    case Obj(members) => MemberLabelsGone(members, u);
    case Arr(items) => ItemLabelsGone(items, u);
    case _ =>
  }

  lemma {:induction false} MemberLabelsGone(members: seq<(Text, Json)>, u: Unicode)
    ensures NoDeniedKey(Obj(WithoutLabelMembers(members, u)), u)
    decreases members
  {
    if members != [] {
      OneMemberLabelsGone(members[0], u);
      MemberLabelsGone(members[1..], u);
    }
  }

  lemma {:induction false} OneMemberLabelsGone(member: (Text, Json), u: Unicode)
    ensures NoDeniedKey(Obj(WithoutLabelMember(member, u)), u)
    decreases member
  {
    LabelsGone(member.1, u);
  }

  lemma {:induction false} ItemLabelsGone(items: seq<Json>, u: Unicode)
    ensures NoDeniedKey(Arr(WithoutLabelItems(items, u)), u)
    decreases items
  {
    if items != [] {
      LabelsGone(items[0], u);
      ItemLabelsGone(items[1..], u);
    }
  }

  lemma {:induction false} StrippingKeepsKeys(j: Json, u: Unicode)
    requires NoDeniedKey(j, u)
    ensures NoDeniedKey(Stripped(j, u), u)
    decreases j
  {
    match j
    case Obj(members) => StrippingKeepsMemberKeys(members, u);
    case Arr(items) => StrippingKeepsItemKeys(items, u);
    case _ =>
  }

  lemma {:induction false} StrippingKeepsMemberKeys(members: seq<(Text, Json)>, u: Unicode)
    requires NoDeniedKey(Obj(members), u)
    ensures NoDeniedKey(Obj(StrippedMembers(members, u)), u)
    decreases members
  {
    if members != [] {
      StrippingKeepsMemberKey(members[0], u);
      StrippingKeepsMemberKeys(members[1..], u);
    }
  }

  lemma {:induction false} StrippingKeepsMemberKey(member: (Text, Json), u: Unicode)
    requires !Denied(u, member.0) && NoDeniedKey(member.1, u)
    ensures !Denied(u, StrippedMember(member, u).0) && NoDeniedKey(StrippedMember(member, u).1, u)
    decreases member
  {
    StrippingKeepsKeys(member.1, u);
  }

  lemma {:induction false} StrippingKeepsItemKeys(items: seq<Json>, u: Unicode)
    requires NoDeniedKey(Arr(items), u)
    ensures NoDeniedKey(Arr(StrippedItems(items, u)), u)
    decreases items
  {
    if items != [] {
      StrippingKeepsKeys(items[0], u);
      StrippingKeepsItemKeys(items[1..], u);
    }
  }

  /** No denylisted key survives in the view, at any depth. */
  lemma ViewHasNoDeniedKey(alert: Json, u: Unicode)
    requires alert.Obj?
    ensures NoDeniedKey(EvaluationView(alert, u), u)
  {
    LabelsGone(Obj(PopLabels(alert.members)), u);
    StrippingKeepsKeys(WithoutLabels(Obj(PopLabels(alert.members)), u), u);
  }

  /** The loop of `_drop_label_subkeys` builds the tree without label fields. */
  method DropLabelSubkeys(obj: Json, u: Unicode) returns (out: Json)
    ensures out == WithoutLabels(obj, u)
    decreases obj
  {
    match obj
    case Obj(members) =>
      var kept := [];
      for n := 0 to |members|
        invariant kept + WithoutLabelMembers(members[n..], u) == WithoutLabelMembers(members, u)
      {
        assert members[n..][1..] == members[n + 1..];
        var more := DropLabelMember(members[n], u);
        assert kept + (more + WithoutLabelMembers(members[n + 1..], u))
            == (kept + more) + WithoutLabelMembers(members[n + 1..], u);
        kept := kept + more;
      }
      out := Obj(kept);
    case Arr(items) =>
      var list := [];
      for n := 0 to |items|
        invariant list + WithoutLabelItems(items[n..], u) == WithoutLabelItems(items, u)
      {
        assert items[n..][1..] == items[n + 1..];
        var item := DropLabelSubkeys(items[n], u);
        assert list + ([item] + WithoutLabelItems(items[n + 1..], u))
            == (list + [item]) + WithoutLabelItems(items[n + 1..], u);
        list := list + [item];
      }
      out := Arr(list);
    case _ => out := obj;
  }

  method DropLabelMember(member: (Text, Json), u: Unicode) returns (out: seq<(Text, Json)>)
    ensures out == WithoutLabelMember(member, u)
    decreases member
  {
    if Dropped(u, member.0, member.1) {
      return [];
    }
    var value := DropLabelSubkeys(member.1, u);
    return [(member.0, value)];
  }
}
