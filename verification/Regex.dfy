/**
 A backtracking matcher for the fragment of Python's `re` that the technique-code
 patterns use. `Ends` lists where a match can end in the order backtracking tries
 them, so its first entry is the match `re` reports.
 */
module Regex {
  import opened Json

  datatype Re =
    | Class(member: CodePoint -> bool)
    | Then(first: Re, second: Re)
    | Opt(body: Re)
    | Star(body: Re)
    | Boundary(word: CodePoint -> bool)

  predicate AtBoundary(word: CodePoint -> bool, s: Text, i: nat)
    requires i <= |s|
  {
    (i > 0 && word(s[i - 1])) != (i < |s| && word(s[i]))
  }

  /** Positions of `s` at or after `i`. */
  predicate Within(positions: seq<nat>, s: Text, i: nat) {
    forall k :: 0 <= k < |positions| ==> i <= positions[k] <= |s|
  }

  function Ends(re: Re, s: Text, i: nat): (ends: seq<nat>)
    requires i <= |s|
    ensures Within(ends, s, i)
    decreases re, |s| - i, 1, 0
  {
    match re
    case Class(member) => if i < |s| && member(s[i]) then [i + 1] else []
    case Then(first, second) => EndsFromAll(second, s, i, Ends(first, s, i))
    case Opt(body) => Ends(body, s, i) + [i]
    case Star(body) => RepeatFromAll(re, s, i, Ends(body, s, i)) + [i]
    case Boundary(word) => if AtBoundary(word, s, i) then [i] else []
  }

  function EndsFromAll(re: Re, s: Text, i: nat, starts: seq<nat>): (ends: seq<nat>)
    requires i <= |s| && Within(starts, s, i)
    ensures Within(ends, s, i)
    decreases re, |s| + 1, 0, |starts|
  {
    if starts == [] then [] else Ends(re, s, starts[0]) + EndsFromAll(re, s, i, starts[1..])
  }

  /** Further rounds of a repetition, from the rounds that made progress. */
  function RepeatFromAll(re: Re, s: Text, i: nat, starts: seq<nat>): (ends: seq<nat>)
    requires i <= |s| && Within(starts, s, i)
    ensures Within(ends, s, i)
    decreases re, |s| - i, 0, |starts|
  {
    if starts == [] then []
    else (if starts[0] > i then Ends(re, s, starts[0]) else []) + RepeatFromAll(re, s, i, starts[1..])
  }

  predicate Matches(re: Re, s: Text, i: nat)
    requires i <= |s|
  {
    Ends(re, s, i) != []
  }

  /** The expression matches from one of the starts. */
  ghost predicate MatchesFromSome(re: Re, s: Text, i: nat, starts: seq<nat>)
    requires i <= |s| && Within(starts, s, i)
  {
    exists k :: 0 <= k < |starts| && Matches(re, s, starts[k])
  }

  lemma {:induction false} SomeStart(re: Re, s: Text, i: nat, starts: seq<nat>)
    requires i <= |s| && Within(starts, s, i)
    ensures EndsFromAll(re, s, i, starts) != [] <==> MatchesFromSome(re, s, i, starts)
  {
    if starts != [] {
      SomeStart(re, s, i, starts[1..]);
      if k :| 0 <= k < |starts| && Matches(re, s, starts[k]) && k > 0 {
        assert starts[1..][k - 1] == starts[k];
      }
      if k :| 0 <= k < |starts[1..]| && Matches(re, s, starts[1..][k]) {
        assert starts[k + 1] == starts[1..][k];
      }
    }
  }

  /** A sequence matches when its first part can end where its second part starts. */
  lemma ThenMatches(first: Re, second: Re, s: Text, i: nat)
    requires i <= |s|
    ensures Matches(Then(first, second), s, i) <==> MatchesFromSome(second, s, i, Ends(first, s, i))
  {
    SomeStart(second, s, i, Ends(first, s, i));
    assert Ends(Then(first, second), s, i) == EndsFromAll(second, s, i, Ends(first, s, i));
  }

  /**
   What is left between the matches that `sub` removes, leftmost first and without
   overlap; `start` is where the current piece begins.
   */
  function Pieces(re: Re, s: Text, start: nat, i: nat): (pieces: seq<Text>)
    requires start <= i <= |s|
    ensures pieces != []
    decreases |s| - i
  {
    if i == |s| then [s[start..]]
    else
      var ends := Ends(re, s, i);
      if ends != [] && ends[0] > i then [s[start..i]] + Pieces(re, s, ends[0], ends[0])
      else Pieces(re, s, start, i + 1)
  }

  function Joined(pieces: seq<Text>): Text {
    if pieces == [] then [] else pieces[0] + Joined(pieces[1..])
  }

  /** `re.sub("", s)`. */
  function Removed(re: Re, s: Text): Text {
    Joined(Pieces(re, s, 0, 0))
  }

  lemma {:induction false} NoMatchNoChange(re: Re, s: Text, start: nat, i: nat)
    requires start <= i <= |s|
    requires forall k :: i <= k < |s| ==> !Matches(re, s, k)
    ensures Pieces(re, s, start, i) == [s[start..]]
    decreases |s| - i
  {
    if i < |s| {
      assert !Matches(re, s, i);
      NoMatchNoChange(re, s, start, i + 1);
    }
  }
}
