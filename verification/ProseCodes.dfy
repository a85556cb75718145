/**
 The first pass of _strip_tcodes in assistant/views.py: where the pattern for codes in
 prose matches, and what that means for a text.
 */
module ProseCodes {
  import opened Json
  import opened Regex
  import opened Views

  /** What the proofs use of the character tables here: blanks and separators are no word characters. */
  ghost predicate Separated(u: Unicode) {
    (forall c :: u.space(c) ==> !u.word(c)) && !u.word('/' as int) && !u.word(',' as int)
  }

  /** A dot or an underscore and three digits. */
  predicate SuffixAt(u: Unicode, s: Text, i: nat) {
    && i + 4 <= |s| && (s[i] == '.' as int || s[i] == '_' as int)
    && u.digit(s[i + 1]) && u.digit(s[i + 2]) && u.digit(s[i + 3])
  }

  /** A code, with or without its suffix, that is a word by itself. */
  predicate CodeWordAt(u: Unicode, s: Text, i: nat) {
    && CodeAt(u, s, i) && AtBoundary(u.word, s, i)
    && (AtBoundary(u.word, s, i + 5) || (SuffixAt(u, s, i + 5) && AtBoundary(u.word, s, i + 9)))
  }

  /** Such a code, or a bracket in front of one. */
  predicate ProseAt(u: Unicode, s: Text, i: nat) {
    CodeWordAt(u, s, i) || (i < |s| && s[i] == '(' as int && CodeWordAt(u, s, i + 1))
  }

  // ----- Where a match can end -----

  lemma ClassEnd(member: CodePoint -> bool, rest: Re, s: Text, i: nat, q: nat)
    requires i <= |s|
    ensures q in Ends(Then(Class(member), rest), s, i) <==> i < |s| && member(s[i]) && q in Ends(rest, s, i + 1)
  {
    if i < |s| && member(s[i]) {
      var starts: seq<nat> := [i + 1];
      assert Ends(Class(member), s, i) == starts && starts[1..] == [];
      assert Ends(Then(Class(member), rest), s, i) == Ends(rest, s, i + 1) + EndsFromAll(rest, s, i, starts[1..]);
    }
  }

  lemma {:induction false} DigitsEnd(u: Unicode, n: nat, rest: Re, s: Text, i: nat, q: nat)
    requires i <= |s|
    ensures q in Ends(Digits(u, n, rest), s, i) <==>
            i + n <= |s| && (forall k :: i <= k < i + n ==> u.digit(s[k])) && q in Ends(rest, s, i + n)
    decreases n
  {
    if n > 0 {
      ClassEnd(u.digit, Digits(u, n - 1, rest), s, i, q);
      if i < |s| {
        DigitsEnd(u, n - 1, rest, s, i + 1, q);
      }
    }
  }

  lemma SuffixEnd(u: Unicode, s: Text, i: nat, q: nat)
    requires i <= |s|
    ensures q in Ends(Opt(Then(DotOrUnderscore(), Digits(u, 3, Nothing()))), s, i) <==> q == i || (SuffixAt(u, s, i) && q == i + 4)
  {
    var body := Then(DotOrUnderscore(), Digits(u, 3, Nothing()));
    assert Ends(Opt(body), s, i) == Ends(body, s, i) + [i];
    ClassEnd((c: CodePoint) => c == '.' as int || c == '_' as int, Digits(u, 3, Nothing()), s, i, q);
    if i < |s| {
      DigitsEnd(u, 3, Nothing(), s, i + 1, q);
      if i + 4 <= |s| {
        assert Ends(Nothing(), s, i + 4) == [] + [i + 4];
      }
    }
  }

  /** A code ends after its four digits, or after its suffix. */
  lemma CodeEnd(u: Unicode, s: Text, i: nat, q: nat)
    requires i <= |s|
    ensures q in Ends(CodePattern(u), s, i) <==> CodeAt(u, s, i) && (q == i + 5 || (SuffixAt(u, s, i + 5) && q == i + 9))
  {
    var suffix := Opt(Then(DotOrUnderscore(), Digits(u, 3, Nothing())));
    ClassEnd(IsT, Digits(u, 4, suffix), s, i, q);
    if i < |s| {
      DigitsEnd(u, 4, suffix, s, i + 1, q);
      if i + 5 <= |s| {
        SuffixEnd(u, s, i + 5, q);
      }
    }
  }

  // ----- What may follow a code -----

  function Slash(): Re { Class((c: CodePoint) => c == '/' as int || c == ',' as int) }

  /** One more code of a list. */
  function Another(u: Unicode): Re { Then(Star(Class(u.space)), Then(Slash(), Then(Star(Class(u.space)), CodePattern(u)))) }

  function Tail(u: Unicode): Re { Then(Star(Another(u)), Then(Boundary(u.word), Opt(Char(')')))) }

  lemma BlanksEnd(u: Unicode, s: Text, i: nat, q: nat)
    requires i <= |s| && q in Ends(Star(Class(u.space)), s, i)
    ensures q == i || (i < |s| && u.space(s[i]))
  {
    var body := Class(u.space);
    assert Ends(Star(body), s, i) == RepeatFromAll(Star(body), s, i, Ends(body, s, i)) + [i];
  }

  /** Another code of a list starts with a blank or a separator. */
  lemma AnotherStarts(u: Unicode, s: Text, i: nat)
    requires i <= |s| && Matches(Another(u), s, i)
    ensures i < |s| && (u.space(s[i]) || s[i] == '/' as int || s[i] == ',' as int)
  {
    var rest := Then(Slash(), Then(Star(Class(u.space)), CodePattern(u)));
    ThenMatches(Star(Class(u.space)), rest, s, i);
    var starts := Ends(Star(Class(u.space)), s, i);
    var k :| 0 <= k < |starts| && Matches(rest, s, starts[k]);
    BlanksEnd(u, s, i, starts[k]);
    if starts[k] == i {
      ClassMatches((c: CodePoint) => c == '/' as int || c == ',' as int, Then(Star(Class(u.space)), CodePattern(u)), s, i);
    }
  }

  lemma BoundaryThen(u: Unicode, rest: Re, s: Text, i: nat)
    requires i <= |s|
    ensures Matches(Then(Boundary(u.word), rest), s, i) <==> AtBoundary(u.word, s, i) && Matches(rest, s, i)
  {
    ThenMatches(Boundary(u.word), rest, s, i);
    var starts := Ends(Boundary(u.word), s, i);
    if AtBoundary(u.word, s, i) {
      assert starts == [i] && starts[0] == i;
    }
  }

  lemma BoundaryMatches(u: Unicode, s: Text, i: nat)
    requires i <= |s|
    ensures Matches(Then(Boundary(u.word), Opt(Char(')'))), s, i) <==> AtBoundary(u.word, s, i)
  {
    BoundaryThen(u, Opt(Char(')')), s, i);
    assert Ends(Opt(Char(')')), s, i) == Ends(Char(')'), s, i) + [i];
  }

  /** After a word character the rest of the pattern matches exactly at a boundary: a list only goes on from one. */
  lemma TailMatches(u: Unicode, s: Text, i: nat)
    requires Separated(u) && 0 < i <= |s| && u.word(s[i - 1])
    ensures Matches(Tail(u), s, i) <==> AtBoundary(u.word, s, i)
  {
    var end := Then(Boundary(u.word), Opt(Char(')')));
    var starts := Ends(Star(Another(u)), s, i);
    ThenMatches(Star(Another(u)), end, s, i);
    BoundaryMatches(u, s, i);
    assert starts == RepeatFromAll(Star(Another(u)), s, i, Ends(Another(u), s, i)) + [i];
    assert starts[|starts| - 1] == i;
    if Matches(Another(u), s, i) {
      AnotherStarts(u, s, i);
      assert AtBoundary(u.word, s, i);
    } else {
      assert starts == [i];
    }
  }

  // ----- The pattern -----

  lemma CodeWordMatches(u: Unicode, s: Text, i: nat)
    requires Sane(u) && Separated(u) && i <= |s|
    ensures Matches(Then(Boundary(u.word), Then(CodePattern(u), Tail(u))), s, i) <==> CodeWordAt(u, s, i)
  {
    BoundaryThen(u, Then(CodePattern(u), Tail(u)), s, i);
    CodeThenTail(u, s, i);
  }

  lemma CodeThenTail(u: Unicode, s: Text, i: nat)
    requires Sane(u) && Separated(u) && i <= |s|
    ensures Matches(Then(CodePattern(u), Tail(u)), s, i) <==>
            CodeAt(u, s, i) && (AtBoundary(u.word, s, i + 5) || (SuffixAt(u, s, i + 5) && AtBoundary(u.word, s, i + 9)))
  {
    ThenMatches(CodePattern(u), Tail(u), s, i);
    var ends := Ends(CodePattern(u), s, i);
    forall k | 0 <= k < |ends| ensures Matches(Tail(u), s, ends[k]) <==> AtBoundary(u.word, s, ends[k]) {
      CodeEnd(u, s, i, ends[k]);
      TailMatches(u, s, ends[k]);
    }
    CodeEnd(u, s, i, i + 5);
    CodeEnd(u, s, i, i + 9);
    if k :| 0 <= k < |ends| && Matches(Tail(u), s, ends[k]) {
      CodeEnd(u, s, i, ends[k]);
    }
  }

  /** The pattern for prose matches exactly where a code stands as a word by itself, or at a bracket before one. */
  lemma ProsePatternExactly(u: Unicode, s: Text, i: nat)
    requires Sane(u) && Separated(u) && i <= |s|
    ensures Matches(ProsePattern(u), s, i) <==> ProseAt(u, s, i)
  {
    var anchored := Then(Boundary(u.word), Then(CodePattern(u), Tail(u)));
    assert ProsePattern(u) == Then(Opt(Char('(')), anchored);
    ThenMatches(Opt(Char('(')), anchored, s, i);
    CodeWordMatches(u, s, i);
    if i < |s| {
      CodeWordMatches(u, s, i + 1);
    }
    var starts := Ends(Opt(Char('(')), s, i);
    assert starts == Ends(Char('('), s, i) + [i];
    assert starts[|starts| - 1] == i;
    if i < |s| && s[i] == '(' as int {
      assert starts[0] == i + 1;
    }
  }

  // ----- What the first pass removes -----

  /** A match takes at least the five characters of its first code. */
  lemma ProseEndsLater(u: Unicode, s: Text, i: nat, q: nat)
    requires i <= |s| && q in Ends(ProsePattern(u), s, i)
    ensures q >= i + 5
  {
    var anchored := Then(Boundary(u.word), Then(CodePattern(u), Tail(u)));
    assert ProsePattern(u) == Then(Opt(Char('(')), anchored);
    var start := EndFromSome(anchored, s, i, Ends(Opt(Char('(')), s, i), q);
    var first := EndFromSome(Then(CodePattern(u), Tail(u)), s, start, Ends(Boundary(u.word), s, start), q);
    var end := EndFromSome(Tail(u), s, first, Ends(CodePattern(u), s, first), q);
    CodeEnd(u, s, first, end);
  }

  /** An end of a sequence is an end of its second part from some end of its first. */
  lemma {:induction false} EndFromSome(re: Re, s: Text, i: nat, starts: seq<nat>, q: nat) returns (start: nat)
    requires i <= |s| && Within(starts, s, i) && q in EndsFromAll(re, s, i, starts)
    ensures start in starts && i <= start <= q && start <= |s| && q in Ends(re, s, start)
  {
    if q in Ends(re, s, starts[0]) {
      start := starts[0];
    } else {
      start := EndFromSome(re, s, i, starts[1..], q);
    }
  }

  lemma {:induction false} PiecesFit(re: Re, s: Text, start: nat, i: nat)
    requires start <= i <= |s|
    ensures |Joined(Pieces(re, s, start, i))| <= |s| - start
    decreases |s| - i
  {
    if i == |s| {
      JoinedOne(s[start..]);
    } else {
      var ends := Ends(re, s, i);
      if ends != [] && ends[0] > i {
        PiecesFit(re, s, ends[0], ends[0]);
        JoinedFirst(s[start..i], Pieces(re, s, ends[0], ends[0]));
      } else {
        PiecesFit(re, s, start, i + 1);
      }
    }
  }

  lemma JoinedFirst(piece: Text, rest: seq<Text>)
    ensures Joined([piece] + rest) == piece + Joined(rest)
  {
    assert ([piece] + rest)[1..] == rest;
  }

  /** Where something matches, at least `n` characters go. */
  lemma {:induction false} PiecesLose(re: Re, s: Text, start: nat, i: nat, n: nat, k: nat)
    requires start <= i <= k < |s| && n > 0 && Matches(re, s, k)
    requires forall j :: i <= j <= k && Matches(re, s, j) ==> Ends(re, s, j)[0] >= j + n
    ensures |Joined(Pieces(re, s, start, i))| + n <= |s| - start
    decreases |s| - i
  {
    var ends := Ends(re, s, i);
    if Matches(re, s, i) {
      PiecesFit(re, s, ends[0], ends[0]);
      JoinedFirst(s[start..i], Pieces(re, s, ends[0], ends[0]));
    } else {
      PiecesLose(re, s, start, i + 1, n, k);
    }
  }

  /** The first pass leaves a text as it is exactly when no code stands in it as a word; otherwise it takes at least one whole code. */
  lemma FirstPassChangesExactly(u: Unicode, s: Text)
    requires Sane(u) && Separated(u)
    ensures FirstPass(u, s) == s <==> forall i: nat :: !ProseAt(u, s, i)
    ensures FirstPass(u, s) == s || |FirstPass(u, s)| + 5 <= |s|
  {
    forall i: nat | i <= |s| ensures Matches(ProsePattern(u), s, i) <==> ProseAt(u, s, i) {
      ProsePatternExactly(u, s, i);
    }
    if k: nat :| ProseAt(u, s, k) {
      forall j | 0 <= j <= k && Matches(ProsePattern(u), s, j) ensures Ends(ProsePattern(u), s, j)[0] >= j + 5 {
        ProseEndsLater(u, s, j, Ends(ProsePattern(u), s, j)[0]);
      }
      PiecesLose(ProsePattern(u), s, 0, 0, 5, k);
    } else {
      NoMatchNoChange(ProsePattern(u), s, 0, 0);
      JoinedOne(s);
      assert s[0..] == s;
    }
  }
}
