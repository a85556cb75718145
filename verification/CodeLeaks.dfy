/**
 When the evaluation view of assistant/views.py leaves a technique code behind: a
 condition on the text before the second pass that a scan of that text decides.
 */
module CodeLeaks {
  import opened Json
  import opened Regex
  import opened JsonParts
  import opened ViewParts
  import opened Views

  // ----- Where a match of the loose pattern ends -----

  predicate SuffixAt(u: Unicode, f: Text, p: nat) {
    p + 4 <= |f| && (f[p] == '.' as int || f[p] == '_' as int) && u.digit(f[p + 1]) && u.digit(f[p + 2]) && u.digit(f[p + 3])
  }

  /** Behind the code and, if there is one, its sub-technique suffix. */
  function MatchEnd(u: Unicode, f: Text, i: nat): (end: nat)
    requires CodeAt(u, f, i)
    ensures i + 5 <= end <= |f|
  {
    if SuffixAt(u, f, i + 5) then i + 9 else i + 5
  }

  lemma ClassEnds(member: CodePoint -> bool, rest: Re, s: Text, i: nat)
    requires i < |s| && member(s[i])
    ensures Ends(Then(Class(member), rest), s, i) == Ends(rest, s, i + 1)
  {
    var starts: seq<nat> := [i + 1];
    assert Ends(Class(member), s, i) == starts && starts[1..] == [];
    assert Ends(Then(Class(member), rest), s, i) == Ends(rest, s, i + 1) + EndsFromAll(rest, s, i, starts[1..]);
  }

  lemma {:induction false} DigitsEnd(u: Unicode, n: nat, rest: Re, s: Text, i: nat)
    requires i + n <= |s| && forall k :: i <= k < i + n ==> u.digit(s[k])
    ensures Ends(Digits(u, n, rest), s, i) == Ends(rest, s, i + n)
    decreases n
  {
    if n > 0 {
      ClassEnds(u.digit, Digits(u, n - 1, rest), s, i);
      DigitsEnd(u, n - 1, rest, s, i + 1);
    }
  }

  lemma SuffixEnds(u: Unicode, f: Text, p: nat)
    requires p <= |f|
    ensures var ends := Ends(Then(DotOrUnderscore(), Digits(u, 3, Nothing())), f, p);
            if SuffixAt(u, f, p) then ends != [] && ends[0] == p + 4 else ends == []
  {
    var tail := Digits(u, 3, Nothing());
    ClassMatches((c: CodePoint) => c == '.' as int || c == '_' as int, tail, f, p);
    assert DotOrUnderscore() == Class((c: CodePoint) => c == '.' as int || c == '_' as int);
    if p < |f| {
      DigitsMatch(u, 3, Nothing(), f, p + 1);
    }
    if SuffixAt(u, f, p) {
      ClassEnds((c: CodePoint) => c == '.' as int || c == '_' as int, tail, f, p);
      DigitsEnd(u, 3, Nothing(), f, p + 1);
    }
  }

  /** What `re` reports for the loose pattern at a code. */
  lemma MatchEnds(u: Unicode, f: Text, i: nat)
    requires CodeAt(u, f, i)
    ensures Ends(CodePattern(u), f, i) != [] && Ends(CodePattern(u), f, i)[0] == MatchEnd(u, f, i)
  {
    var body := Then(DotOrUnderscore(), Digits(u, 3, Nothing()));
    ClassEnds(IsT, Digits(u, 4, Opt(body)), f, i);
    DigitsEnd(u, 4, Opt(body), f, i + 1);
    SuffixEnds(u, f, i + 5);
    assert Ends(CodePattern(u), f, i) == Ends(body, f, i + 5) + [i + 5];
  }

  // ----- What the second pass leaves -----

  /** What is left of the text from `i` on, where no match is in progress. */
  function Left(u: Unicode, f: Text, i: nat): Text
    requires i <= |f|
    decreases |f| - i
  {
    if i == |f| then []
    else if CodeAt(u, f, i) then Left(u, f, MatchEnd(u, f, i))
    else [f[i]] + Left(u, f, i + 1)
  }

  lemma {:induction false} PiecesLeave(u: Unicode, f: Text, start: nat, i: nat)
    requires start <= i <= |f|
    ensures Joined(Pieces(CodePattern(u), f, start, i)) == f[start..i] + Left(u, f, i)
    decreases |f| - i
  {
    var re := CodePattern(u);
    if i == |f| {
      var last := [f[start..]];
      assert last[1..] == [] && f[start..] == f[start..i];
    } else {
      CodePatternMatches(u, f, i);
      if CodeAt(u, f, i) {
        var end := MatchEnd(u, f, i);
        MatchEnds(u, f, i);
        PiecesLeave(u, f, end, end);
        var pieces := Pieces(re, f, start, i);
        assert pieces[1..] == Pieces(re, f, end, end) && f[end..end] == [];
      } else {
        PiecesLeave(u, f, start, i + 1);
        assert f[start..i + 1] + Left(u, f, i + 1) == f[start..i] + ([f[i]] + Left(u, f, i + 1));
      }
    }
  }

  lemma SecondPassLeaves(u: Unicode, f: Text)
    ensures Removed(CodePattern(u), f) == Left(u, f, 0)
  {
    PiecesLeave(u, f, 0, 0);
    assert f[0..0] == [];
  }

  // ----- The condition -----

  /** From `p` on, `n` digits come next when codes in between are skipped. */
  predicate Follow(u: Unicode, f: Text, p: nat, n: nat)
    requires p <= |f|
    decreases |f| - p
  {
    if n == 0 then true
    else if p == |f| then false
    else if CodeAt(u, f, p) then Follow(u, f, MatchEnd(u, f, p), n)
    else u.digit(f[p]) && Follow(u, f, p + 1, n - 1)
  }

  /** A letter T that starts no code, but is followed by four digits once the codes behind it are gone. */
  predicate JoinsAt(u: Unicode, f: Text, i: int) {
    0 <= i < |f| && IsT(f[i]) && !CodeAt(u, f, i) && Follow(u, f, i + 1, 4)
  }

  ghost predicate Joins(u: Unicode, f: Text) {
    exists i :: JoinsAt(u, f, i)
  }

  lemma {:induction false} FollowIsLeft(u: Unicode, f: Text, p: nat, n: nat)
    requires p <= |f|
    ensures Follow(u, f, p, n) <==> n <= |Left(u, f, p)| && forall k :: 0 <= k < n ==> u.digit(Left(u, f, p)[k])
    decreases |f| - p
  {
    if n > 0 && p < |f| {
      if CodeAt(u, f, p) {
        FollowIsLeft(u, f, MatchEnd(u, f, p), n);
      } else {
        var left, rest := Left(u, f, p), Left(u, f, p + 1);
        FollowIsLeft(u, f, p + 1, n - 1);
        assert left == [f[p]] + rest && left[0] == f[p];
        assert forall k :: 0 < k < n && k < |left| ==> left[k] == rest[k - 1];
        assert forall k :: 0 <= k < n - 1 && k < |rest| ==> rest[k] == left[k + 1];
      }
    }
  }

  /** A match holds no letter T but its first. */
  lemma OneTPerMatch(u: Unicode, f: Text, i: nat, k: nat)
    requires Sane(u) && CodeAt(u, f, i) && i < k < MatchEnd(u, f, i)
    ensures !IsT(f[k])
  {
    assert k - i in {1, 2, 3, 4, 5, 6, 7, 8};
  }

  ghost predicate JoinsFrom(u: Unicode, f: Text, i: nat) {
    exists k :: i <= k && JoinsAt(u, f, k)
  }

  /** Where no match starts, the character that is left begins a code or is in front of what has one. */
  lemma FirstLeft(u: Unicode, f: Text, i: nat)
    requires i < |f| && !CodeAt(u, f, i)
    ensures HasCode(u, Left(u, f, i)) <==> JoinsAt(u, f, i) || HasCode(u, Left(u, f, i + 1))
  {
    var left, rest := Left(u, f, i), Left(u, f, i + 1);
    FollowIsLeft(u, f, i + 1, 4);
    assert left == [f[i]] + rest;
    assert CodeAt(u, left, 0) <==> JoinsAt(u, f, i);
    if k :| CodeAt(u, left, k) && k > 0 {
      assert CodeAt(u, rest, k - 1);
    }
    if k :| CodeAt(u, rest, k) {
      assert CodeAt(u, left, k + 1);
    }
  }

  lemma {:induction false} LeftHasCode(u: Unicode, f: Text, i: nat)
    requires Sane(u) && i <= |f|
    ensures HasCode(u, Left(u, f, i)) <==> JoinsFrom(u, f, i)
    decreases |f| - i
  {
    if i < |f| {
      if CodeAt(u, f, i) {
        LeftHasCode(u, f, MatchEnd(u, f, i));
        forall k | i < k < MatchEnd(u, f, i) ensures !JoinsAt(u, f, k) {
          OneTPerMatch(u, f, i, k);
        }
      } else {
        FirstLeft(u, f, i);
        LeftHasCode(u, f, i + 1);
        assert JoinsFrom(u, f, i) <==> JoinsAt(u, f, i) || JoinsFrom(u, f, i + 1);
      }
    }
  }

  /**
   A string leaf keeps a code exactly when, before the second pass, some letter T starts
   no code and is followed by four digits once the codes in between are skipped.
   */
  lemma LeafLeaksExactly(u: Unicode, s: Text)
    requires Sane(u)
    ensures HasCode(u, StripText(u, s)) <==> Joins(u, FirstPass(u, s))
  {
    var f := FirstPass(u, s);
    SecondPassLeaves(u, f);
    LeftHasCode(u, f, 0);
    if k :| CodeAt(u, StripText(u, s), k) {
      var j := TidyMakesNoCode(u, Left(u, f, 0), k);
    }
    if j :| CodeAt(u, Left(u, f, 0), j) {
      TidyKeepsCodes(u, Left(u, f, 0), j);
    }
    if i :| JoinsAt(u, f, i) {
      assert 0 <= i;
    }
  }

  // ----- A string that leaks -----

  function Nested(): Text { T("T1T1234234") }

  lemma NestedHasOneCode(u: Unicode)
    requires Sane(u)
    ensures forall k :: CodeAt(u, Nested(), k) <==> k == 2
    ensures !AtBoundary(u.word, Nested(), 2)
  {
    var s := Nested();
    assert IsT(s[0]) && u.digit(s[1]) && IsT(s[2]);
    assert forall k :: 3 <= k < |s| ==> u.digit(s[k]);
  }

  /** A text whose codes are all inside words passes the first pass unchanged. */
  lemma FirstPassKeeps(u: Unicode, s: Text)
    requires forall k: nat :: CodeAt(u, s, k) ==> !AtBoundary(u.word, s, k)
    ensures FirstPass(u, s) == s
  {
    forall k | 0 <= k < |s| ensures !Matches(ProsePattern(u), s, k) {
      if Matches(ProsePattern(u), s, k) {
        ProsePatternMatches(u, s, k);
      }
    }
    NoMatchNoChange(ProsePattern(u), s, 0, 0);
    JoinedOne(s);
    assert s[0..] == s;
  }

  /** `T1T1234234`: removing the inner code joins another one, which the view then shows. */
  lemma RemovalCanJoinACode(u: Unicode)
    requires Sane(u)
    ensures HasCode(u, StripText(u, Nested()))
  {
    var s := Nested();
    NestedHasOneCode(u);
    FirstPassKeeps(u, s);
    assert |s| == 10 && s[7] == '2' as int && MatchEnd(u, s, 2) == 7;
    assert Follow(u, s, 10, 0) && Follow(u, s, 9, 1) && Follow(u, s, 8, 2) && Follow(u, s, 7, 3);
    assert JoinsAt(u, s, 0);
    LeafLeaksExactly(u, s);
  }

  // ----- The view of a whole alert -----

  ghost predicate PartShowsCode(part: Part, u: Unicode) {
    part.value.Str? && HasCode(u, part.value.s)
  }

  /** Some string leaf holds a code. */
  ghost predicate ShowsCode(parts: seq<Part>, u: Unicode) {
    exists i :: 0 <= i < |parts| && PartShowsCode(parts[i], u)
  }

  /** A string outside the label fields that keeps a code. */
  ghost predicate SiteLeaks(site: Site, u: Unicode) {
    !site.removed && site.part.value.Str? && Joins(u, FirstPass(u, site.part.value.s))
  }

  ghost predicate SomeLeak(sites: seq<Site>, u: Unicode) {
    exists i :: 0 <= i < |sites| && SiteLeaks(sites[i], u)
  }

  lemma ShowsInFirst(part: Part, rest: seq<Part>, u: Unicode)
    ensures ShowsCode([part] + rest, u) <==> PartShowsCode(part, u) || ShowsCode(rest, u)
  {
    var all := [part] + rest;
    if i :| 0 <= i < |rest| && PartShowsCode(rest[i], u) {
      assert PartShowsCode(all[i + 1], u);
    }
    if i :| 0 <= i < |all| && PartShowsCode(all[i], u) {
      assert i > 0 ==> PartShowsCode(rest[i - 1], u);
    }
    assert all[0] == part;
  }

  lemma LeaksInFirst(sites: seq<Site>, u: Unicode)
    requires sites != []
    ensures SomeLeak(sites, u) <==> SiteLeaks(sites[0], u) || SomeLeak(sites[1..], u)
  {
    if i :| 0 <= i < |sites[1..]| && SiteLeaks(sites[1..][i], u) {
      assert SiteLeaks(sites[i + 1], u);
    }
    if i :| 0 <= i < |sites| && SiteLeaks(sites[i], u) {
      assert i > 0 ==> SiteLeaks(sites[1..][i - 1], u);
    }
  }

  lemma StrippedShows(part: Part, u: Unicode)
    requires Sane(u)
    ensures PartShowsCode(StripPart(part, u), u) <==> SiteLeaks(Site(part, false), u)
  {
    if part.value.Str? {
      LeafLeaksExactly(u, part.value.s);
    }
  }

  lemma {:induction false} KeptShows(sites: seq<Site>, u: Unicode)
    requires Sane(u)
    ensures ShowsCode(Kept(sites, u), u) <==> SomeLeak(sites, u)
  {
    if sites != [] {
      KeptShows(sites[1..], u);
      LeaksInFirst(sites, u);
      if sites[0].removed {
        assert Kept(sites, u) == Kept(sites[1..], u);
      } else {
        StrippedShows(sites[0].part, u);
        ShowsInFirst(StripPart(sites[0].part, u), Kept(sites[1..], u), u);
      }
    }
  }

  /** The view shows a code exactly when some string of the alert outside its label fields meets the condition. */
  lemma ViewLeaksExactly(alert: Json, u: Unicode)
    requires Sane(u) && alert.Obj?
    ensures ShowsCode(Parts(EvaluationView(alert, u), []), u) <==> SomeLeak(AlertSites(alert.members, u), u)
  {
    ViewKeepsEvidence(alert, u);
    KeptShows(AlertSites(alert.members, u), u);
  }

  /** Any alert with the string above outside its label fields has a view that shows a code. */
  lemma ViewCanShowACode(alert: Json, u: Unicode, i: nat)
    requires Sane(u) && alert.Obj? && i < |AlertSites(alert.members, u)|
    requires !AlertSites(alert.members, u)[i].removed && AlertSites(alert.members, u)[i].part.value == Str(Nested())
    ensures ShowsCode(Parts(EvaluationView(alert, u), []), u)
  {
    RemovalCanJoinACode(u);
    LeafLeaksExactly(u, Nested());
    assert SiteLeaks(AlertSites(alert.members, u)[i], u);
    ViewLeaksExactly(alert, u);
  }
}
