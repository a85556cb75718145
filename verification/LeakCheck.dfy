/**
 evaluation_view_leaks in assistant/views.py: a search of the serialised view for
 technique codes, and how far what it reports is what the view holds.
 */
module LeakCheck {
  import opened Common
  import opened CodeLeaks
  import opened Json
  import opened Regex
  import opened Views

  // ----- The check -----

  /** The texts of all matches, as `finditer` gives them. */
  function Found(re: Re, s: Text, i: nat): seq<Text>
    requires i <= |s|
    decreases |s| - i
  {
    if i == |s| then []
    else
      var ends := Ends(re, s, i);
      if ends != [] && ends[0] > i then [s[i..ends[0]]] + Found(re, s, ends[0]) else Found(re, s, i + 1)
  }

  /** The distinct tokens; the program also sorts them. */
  function EvaluationViewLeaks(view: Json, u: Unicode): set<Text> {
    set token | token in Found(CodePattern(u), Dump(view, Ascii, 0), 0)
  }

  predicate CodeFrom(u: Unicode, s: Text, i: nat) {
    exists k :: i <= k < |s| && CodeAt(u, s, k)
  }

  lemma {:induction false} FoundExactly(u: Unicode, s: Text, i: nat)
    requires i <= |s|
    ensures Found(CodePattern(u), s, i) != [] <==> CodeFrom(u, s, i)
    decreases |s| - i
  {
    if i < |s| {
      CodePatternMatches(u, s, i);
      if CodeAt(u, s, i) {
        MatchEnds(u, s, i);
      } else {
        FoundExactly(u, s, i + 1);
      }
    }
  }

  /** Something is reported exactly when the serialisation holds a code. */
  lemma ReportsPrintedCodes(view: Json, u: Unicode)
    ensures EvaluationViewLeaks(view, u) != {} <==> HasCode(u, Dump(view, Ascii, 0))
  {
    var printed := Dump(view, Ascii, 0);
    var found := Found(CodePattern(u), printed, 0);
    FoundExactly(u, printed, 0);
    if found != [] {
      assert found[0] in EvaluationViewLeaks(view, u);
    }
  }

  // ----- Where the serialisation holds a code -----

  const TAB: CodePoint := 9

  predicate AsciiDigit(c: CodePoint) { '0' as int <= c <= '9' as int }

  /** A letter T or a tab, and four ASCII digits. */
  predicate ReportedAt(s: Text, i: int) {
    0 <= i && i + 5 <= |s| && (IsT(s[i]) || s[i] == TAB)
    && AsciiDigit(s[i + 1]) && AsciiDigit(s[i + 2]) && AsciiDigit(s[i + 3]) && AsciiDigit(s[i + 4])
  }

  ghost predicate Reported(s: Text) {
    exists i :: ReportedAt(s, i)
  }

  ghost predicate AnyReported(texts: seq<Text>) {
    exists i :: 0 <= i < |texts| && Reported(texts[i])
  }

  lemma AnyReportedConcat(a: seq<Text>, b: seq<Text>)
    ensures AnyReported(a + b) <==> AnyReported(a) || AnyReported(b)
  {
    var all := a + b;
    if i :| 0 <= i < |all| && Reported(all[i]) {
      assert if i < |a| then Reported(a[i]) else Reported(b[i - |a|]);
    }
    if i :| 0 <= i < |a| && Reported(a[i]) {
      assert Reported(all[i]);
    }
    if i :| 0 <= i < |b| && Reported(b[i]) {
      assert Reported(all[|a| + i]);
    }
  }

  predicate CodeChar(u: Unicode, c: CodePoint) { IsT(c) || u.digit(c) }

  /** Characters that no code contains. */
  predicate Inert(u: Unicode, g: Text) {
    forall i :: 0 <= i < |g| ==> !CodeChar(u, g[i])
  }

  lemma CodeHolds(u: Unicode, s: Text, k: nat, m: nat)
    requires CodeAt(u, s, k) && k <= m < k + 5
    ensures CodeChar(u, s[m])
  {
  }

  /** Texts with an inert separator between them hold the codes that they hold one by one. */
  lemma InertSplits(u: Unicode, a: Text, g: Text, b: Text)
    requires g != [] && Inert(u, g)
    ensures HasCode(u, a + g + b) <==> HasCode(u, a) || HasCode(u, b)
  {
    var all := a + g + b;
    assert forall k :: |a| <= k < |a| + |g| ==> all[k] == g[k - |a|];
    if k :| CodeAt(u, all, k) {
      if |a| < k + 5 && k < |a| + |g| {
        CodeHolds(u, all, k, if k <= |a| then |a| else k);
      }
      assert if k + 5 <= |a| then CodeAt(u, a, k) else CodeAt(u, b, k - |a| - |g|);
    }
    if k :| CodeAt(u, a, k) {
      assert CodeAt(u, all, k);
    }
    if k :| CodeAt(u, b, k) {
      assert CodeAt(u, all, |a| + |g| + k);
    }
  }

  lemma InertEnclosed(u: Unicode, open: Text, body: Text, close: Text)
    requires open != [] && close != [] && Inert(u, open) && Inert(u, close)
    ensures HasCode(u, open + body + close) <==> HasCode(u, body)
  {
    InertSplits(u, [], open, body + close);
    InertSplits(u, body, close, []);
    assert [] + open + (body + close) == open + body + close && body + close + [] == body + close;
  }

  /** The printer's own characters in the ASCII range are inert. */
  lemma GlueIsInert(u: Unicode)
    requires Sane(u)
    ensures Inert(u, T("\"")) && Inert(u, T(", ")) && Inert(u, T(": "))
    ensures Inert(u, T("[")) && Inert(u, T("]")) && Inert(u, T("{")) && Inert(u, T("}"))
    ensures T("\"") != [] && T(", ") != [] && T(": ") != [] && T("[") != [] && T("]") != [] && T("{") != [] && T("}") != []
  {
    assert forall c: CodePoint :: c < 128 && !AsciiDigit(c) ==> !u.digit(c);
  }

  // ----- One string -----

  /** The text starts with `n` digits. */
  predicate StartsDigits(digit: CodePoint -> bool, s: Text, n: nat) {
    n <= |s| && forall k :: 0 <= k < n ==> digit(s[k])
  }

  /** Every escape starts with a backslash and holds no letter T, except that a tab is written with one. */
  lemma EscapeShape(u: Unicode, c: CodePoint)
    requires Sane(u)
    ensures var e := EscapeChar(c, Ascii);
            if e == [c] then c < 128
            else
              && |e| >= 2 && e[0] == '\\' as int && !AsciiDigit(c) && !IsT(c) && !u.digit(e[0])
              && (forall k :: 0 <= k < |e| ==> (IsT(e[k]) <==> c == TAB && k == 1))
              && (c == TAB ==> |e| == 2)
  {
    forall n: nat ensures |Escape16(n)| == 6 && Escape16(n)[0] == '\\' as int && forall k :: 0 <= k < 6 ==> !IsT(Escape16(n)[k]) {
      HexEscapeHoldsNoT(n);
    }
  }

  lemma HexEscapeHoldsNoT(n: nat)
    ensures |Escape16(n)| == 6 && Escape16(n)[0] == '\\' as int && forall k :: 0 <= k < 6 ==> !IsT(Escape16(n)[k])
  {
    assert forall d: nat :: d < 16 ==> !IsT(HexDigit(d));
  }

  lemma {:induction false} DigitsThroughEscape(u: Unicode, s: Text, n: nat)
    requires Sane(u)
    ensures StartsDigits(u.digit, EscapeText(s, Ascii), n) <==> StartsDigits(AsciiDigit, s, n)
  {
    if n > 0 && s != [] {
      var e, rest := EscapeChar(s[0], Ascii), EscapeText(s[1..], Ascii);
      EscapeShape(u, s[0]);
      DigitsThroughEscape(u, s[1..], n - 1);
      DigitsAfter(AsciiDigit, s[0], s[1..], n);
      assert [s[0]] + s[1..] == s;
      if e == [s[0]] {
        DigitsAfter(u.digit, s[0], rest, n);
      } else {
        NoDigitsAfter(u, e, rest, n);
      }
    }
  }

  lemma DigitsAfter(digit: CodePoint -> bool, c: CodePoint, rest: Text, n: nat)
    requires n > 0
    ensures StartsDigits(digit, [c] + rest, n) <==> digit(c) && StartsDigits(digit, rest, n - 1)
  {
    var s := [c] + rest;
    assert s[0] == c;
    if StartsDigits(digit, s, n) {
      assert forall k :: 0 <= k < n - 1 ==> rest[k] == s[k + 1];
    }
    if digit(c) && StartsDigits(digit, rest, n - 1) {
      assert forall k :: 0 < k < n ==> s[k] == rest[k - 1];
    }
  }

  lemma NoDigitsAfter(u: Unicode, e: Text, rest: Text, n: nat)
    requires n > 0 && e != [] && !u.digit(e[0])
    ensures !StartsDigits(u.digit, e + rest, n)
  {
    assert (e + rest)[0] == e[0];
  }

  /** Codes of a text with something in front: those of the text, and those that start in front of it. */
  lemma CodesAfter(u: Unicode, e: Text, rest: Text)
    ensures HasCode(u, e + rest) <==> HasCode(u, rest) || exists k :: 0 <= k < |e| && CodeAt(u, e + rest, k)
  {
    var all := e + rest;
    if k :| CodeAt(u, all, k) {
      assert k >= |e| ==> CodeAt(u, rest, k - |e|);
    }
    if k :| CodeAt(u, rest, k) {
      assert CodeAt(u, all, |e| + k);
    }
  }

  /** A code starts at the last character of what is in front exactly when four digits follow. */
  lemma CodeAtSeam(u: Unicode, e: Text, rest: Text)
    requires e != [] && IsT(e[|e| - 1])
    ensures CodeAt(u, e + rest, |e| - 1) <==> StartsDigits(u.digit, rest, 4)
  {
    var all := e + rest;
    assert all[|e| - 1] == e[|e| - 1];
    assert forall k :: 0 <= k < |rest| ==> all[|e| + k] == rest[k];
  }

  lemma ReportedFirst(s: Text)
    requires s != []
    ensures Reported(s) <==> ReportedAt(s, 0) || Reported(s[1..])
    ensures ReportedAt(s, 0) <==> (IsT(s[0]) || s[0] == TAB) && StartsDigits(AsciiDigit, s[1..], 4)
  {
    if i :| ReportedAt(s, i) {
      assert i > 0 ==> ReportedAt(s[1..], i - 1);
    }
    if i :| ReportedAt(s[1..], i) {
      assert ReportedAt(s, i + 1);
    }
  }

  /** The escape of one character starts a code exactly for a letter T or a tab with four digits behind. */
  lemma EscapeStartsCode(u: Unicode, c: CodePoint, rest: Text)
    requires Sane(u)
    ensures var e := EscapeChar(c, Ascii);
            (exists k :: 0 <= k < |e| && CodeAt(u, e + rest, k)) <==> (IsT(c) || c == TAB) && StartsDigits(u.digit, rest, 4)
  {
    var e := EscapeChar(c, Ascii);
    EscapeShape(u, c);
    assert forall k :: 0 <= k < |e| ==> (e + rest)[k] == e[k];
    if IsT(c) || c == TAB {
      assert IsT(e[|e| - 1]);
      CodeAtSeam(u, e, rest);
    }
  }

  lemma {:induction false} EscapedCodes(u: Unicode, s: Text)
    requires Sane(u)
    ensures HasCode(u, EscapeText(s, Ascii)) <==> Reported(s)
  {
    if s != [] {
      var e, rest := EscapeChar(s[0], Ascii), EscapeText(s[1..], Ascii);
      EscapedCodes(u, s[1..]);
      CodesAfter(u, e, rest);
      EscapeStartsCode(u, s[0], rest);
      DigitsThroughEscape(u, s[1..], 4);
      ReportedFirst(s);
    }
  }

  lemma QuotedCodes(u: Unicode, s: Text)
    requires Sane(u)
    ensures HasCode(u, Quote(s, Ascii)) <==> Reported(s)
  {
    GlueIsInert(u);
    InertEnclosed(u, T("\""), EscapeText(s, Ascii), T("\""));
    EscapedCodes(u, s);
  }

  // ----- The tree -----

  lemma NumbersHoldNoCode(u: Unicode, literal: Text)
    requires Sane(u) && NumberText(literal)
    ensures !HasCode(u, literal)
  {
    assert !u.digit('i' as int) && !u.digit('y' as int);
    if literal == T("Infinity") || literal == T("-Infinity") {
      assert forall k :: 0 <= k < |literal| ==> !u.digit(literal[k]);
    }
  }

  lemma ScalarCodes(u: Unicode, j: Json, depth: nat)
    requires Sane(u) && WellFormed(j) && !j.Arr? && !j.Obj?
    ensures HasCode(u, Dump(j, Ascii, depth)) <==> AnyReported(Strings(j))
  {
    match j
    case Null =>
      assert forall k :: 0 <= k < 4 ==> !u.digit(T("null")[k]);
    case Bool(b) =>
      assert forall k :: 0 <= k < 4 ==> !u.digit(T("true")[k]);
      assert forall k :: 0 <= k < 5 ==> !u.digit(T("false")[k]);
    case Number(literal) => NumbersHoldNoCode(u, literal);
    case Str(s) =>
      QuotedCodes(u, s);
      assert [s][0] == s;
  }

  /** The serialised view holds a code exactly when one of its keys or strings is reportable. */
  lemma {:induction false} PrintedCodes(u: Unicode, j: Json, depth: nat)
    requires Sane(u) && WellFormed(j)
    ensures HasCode(u, Dump(j, Ascii, depth)) <==> AnyReported(Strings(j))
    decreases j
  {
    match j
    case Arr(items) => PrintedArray(u, items, depth);
    case Obj(members) => PrintedObject(u, members, depth);
    case _ => ScalarCodes(u, j, depth);
  }

  lemma BlockCodes(u: Unicode, open: Text, body: Text, close: Text, depth: nat)
    requires open != [] && close != [] && Inert(u, open) && Inert(u, close)
    ensures HasCode(u, Block(open, body, close, Ascii, depth)) <==> HasCode(u, body)
  {
    assert Block(open, body, close, Ascii, depth) == open + body + close;
    InertEnclosed(u, open, body, close);
  }

  lemma {:induction false} PrintedArray(u: Unicode, items: seq<Json>, depth: nat)
    requires Sane(u) && WellFormed(Arr(items))
    ensures HasCode(u, Dump(Arr(items), Ascii, depth)) <==> AnyReported(Strings(Arr(items)))
    decreases items, 1
  {
    GlueIsInert(u);
    if items == [] {
      assert T("[]") == T("[") + [] + T("]");
      InertEnclosed(u, T("["), [], T("]"));
    } else {
      PrintedItems(u, items, depth + 1);
      BlockCodes(u, T("["), DumpItems(items, Ascii, depth + 1), T("]"), depth);
    }
  }

  lemma {:induction false} PrintedObject(u: Unicode, members: seq<(Text, Json)>, depth: nat)
    requires Sane(u) && WellFormed(Obj(members))
    ensures HasCode(u, Dump(Obj(members), Ascii, depth)) <==> AnyReported(Strings(Obj(members)))
    decreases members, 1
  {
    GlueIsInert(u);
    if members == [] {
      assert T("{}") == T("{") + [] + T("}");
      InertEnclosed(u, T("{"), [], T("}"));
    } else {
      PrintedMembers(u, members, depth + 1);
      BlockCodes(u, T("{"), DumpMembers(members, Ascii, depth + 1), T("}"), depth);
    }
  }

  lemma SeparatedCodes(u: Unicode, head: Text, tail: Text, depth: nat)
    requires Sane(u)
    ensures HasCode(u, head + (Separator(Ascii, depth) + tail)) <==> HasCode(u, head) || HasCode(u, tail)
    ensures head + [] == head
  {
    GlueIsInert(u);
    InertSplits(u, head, T(", "), tail);
    assert head + (Separator(Ascii, depth) + tail) == head + T(", ") + tail;
  }

  lemma {:induction false} PrintedItems(u: Unicode, items: seq<Json>, depth: nat)
    requires Sane(u) && forall i :: 0 <= i < |items| ==> WellFormed(items[i])
    ensures HasCode(u, DumpItems(items, Ascii, depth)) <==> AnyReported(ItemStrings(items))
    decreases items, 0
  {
    if items != [] {
      PrintedCodes(u, items[0], depth);
      PrintedItems(u, items[1..], depth);
      AnyReportedConcat(Strings(items[0]), ItemStrings(items[1..]));
      SeparatedCodes(u, Dump(items[0], Ascii, depth), DumpItems(items[1..], Ascii, depth), depth);
    }
  }

  lemma {:induction false} PrintedMembers(u: Unicode, members: seq<(Text, Json)>, depth: nat)
    requires Sane(u) && forall i :: 0 <= i < |members| ==> WellFormed(members[i].1)
    ensures HasCode(u, DumpMembers(members, Ascii, depth)) <==> AnyReported(MemberStrings(members))
    decreases members, 0
  {
    if members != [] {
      PrintedMember(u, members[0], depth);
      PrintedMembers(u, members[1..], depth);
      AnyReportedConcat(PairStrings(members[0]), MemberStrings(members[1..]));
      SeparatedCodes(u, DumpMember(members[0], Ascii, depth), DumpMembers(members[1..], Ascii, depth), depth);
    }
  }

  lemma {:induction false} PrintedMember(u: Unicode, m: (Text, Json), depth: nat)
    requires Sane(u) && WellFormed(m.1)
    ensures HasCode(u, DumpMember(m, Ascii, depth)) <==> AnyReported(PairStrings(m))
    decreases m
  {
    PrintedCodes(u, m.1, depth);
    QuotedCodes(u, m.0);
    GlueIsInert(u);
    InertSplits(u, Quote(m.0, Ascii), T(": "), Dump(m.1, Ascii, depth));
    AnyReportedConcat([m.0], Strings(m.1));
    assert [m.0][0] == m.0;
  }

  /**
   The check reports something exactly when some key or string of the view has a letter T
   or a tab in front of four ASCII digits.
   */
  lemma LeaksExactly(view: Json, u: Unicode)
    requires Sane(u) && WellFormed(view)
    ensures EvaluationViewLeaks(view, u) != {} <==> AnyReported(Strings(view))
  {
    ReportsPrintedCodes(view, u);
    PrintedCodes(u, view, 0);
  }

  // ----- How far that is what the view holds -----

  /** No tabs and no digits but the ASCII ones. */
  predicate Plain(u: Unicode, s: Text) {
    forall i :: 0 <= i < |s| ==> s[i] != TAB && (u.digit(s[i]) ==> AsciiDigit(s[i]))
  }

  /** Some key or string of the view holds a code. */
  ghost predicate AnyCode(texts: seq<Text>, u: Unicode) {
    exists i :: 0 <= i < |texts| && HasCode(u, texts[i])
  }

  lemma PlainReported(u: Unicode, s: Text)
    requires Sane(u) && Plain(u, s)
    ensures Reported(s) <==> HasCode(u, s)
  {
    if i :| ReportedAt(s, i) {
      assert CodeAt(u, s, i);
    }
    if i :| CodeAt(u, s, i) {
      assert ReportedAt(s, i);
    }
  }

  /** On views without tabs and foreign digits the check decides whether some key or string holds a code. */
  lemma PlainViewsAreDecided(view: Json, u: Unicode)
    requires Sane(u) && WellFormed(view) && forall i :: 0 <= i < |Strings(view)| ==> Plain(u, Strings(view)[i])
    ensures EvaluationViewLeaks(view, u) != {} <==> AnyCode(Strings(view), u)
  {
    var texts := Strings(view);
    LeaksExactly(view, u);
    if i :| 0 <= i < |texts| && Reported(texts[i]) {
      PlainReported(u, texts[i]);
    }
    if i :| 0 <= i < |texts| && HasCode(u, texts[i]) {
      PlainReported(u, texts[i]);
    }
  }

  /** An alert with one text. */
  function Note(s: Text): Json { Obj([(T("note"), Str(s))]) }

  lemma NoteStrings(s: Text)
    ensures Strings(Note(s)) == [T("note"), s]
  {
    var members := [(T("note"), Str(s))];
    assert members[1..] == [] && PairStrings(members[0]) == [T("note")] + [s];
    assert Strings(Note(s)) == PairStrings(members[0]) + MemberStrings(members[1..]) == [T("note"), s];
  }

  lemma NoteReported(u: Unicode, s: Text)
    requires Sane(u)
    ensures EvaluationViewLeaks(Note(s), u) != {} <==> Reported(s)
    ensures AnyCode(Strings(Note(s)), u) <==> HasCode(u, s)
  {
    NoteStrings(s);
    LeaksExactly(Note(s), u);
    var texts := Strings(Note(s));
    assert |texts| == 2 && texts[1] == s && |texts[0]| == 4;
    assert Reported(s) ==> Reported(texts[1]);
    assert HasCode(u, s) ==> HasCode(u, texts[1]);
    assert !Reported(texts[0]) && !HasCode(u, texts[0]);
  }

  /** The view of a note that is no label field. */
  lemma NoteView(u: Unicode, s: Text)
    requires !Dropped(u, T("note"), Str(s))
    ensures EvaluationView(Note(s), u) == Note(StripText(u, s))
  {
    var members := [(T("note"), Str(s))];
    assert members[1..] == [] && T("note")[0] == 'n' as int;
    assert forall i :: 0 <= i < |LABEL_KEYS| ==> T(LABEL_KEYS[i])[0] != 'n' as int;
    assert PopLabels(members) == members + PopLabels([]) == members;
    assert WithoutLabelMembers(members, u) == WithoutLabelMember(members[0], u) + WithoutLabelMembers([], u) == members;
    var stripped := [(T("note"), Str(StripText(u, s)))];
    assert StrippedMembers(members, u) == [StrippedMember(members[0], u)] + StrippedMembers([], u) == stripped;
  }

  /** A tab in front of four digits is reported and is no code. */
  lemma TabIsReported(u: Unicode)
    requires Sane(u)
    ensures var view := Note(T("\t1234")); EvaluationViewLeaks(view, u) != {} && !AnyCode(Strings(view), u)
  {
    var s := T("\t1234");
    assert ReportedAt(s, 0) && |s| == 5 && !IsT(s[0]);
    NoteReported(u, s);
  }

  /** The character tables know the Arabic-Indic digits 1 to 4 as digits. */
  ghost predicate ArabicDigits(u: Unicode) {
    u.digit(0x661) && u.digit(0x662) && u.digit(0x663) && u.digit(0x664)
  }

  /** `T` and one Arabic digit, `T1234`, three more Arabic digits. */
  function Disguised(): Text {
    [0x54, 0x661] + T("T1234") + [0x662, 0x663, 0x664]
  }

  lemma {:induction false} TidyKeepsDense(u: Unicode, s: Text)
    requires forall i :: 0 <= i < |s| ==> s[i] != BLANK && !u.space(s[i])
    ensures Tidy(u, s) == s
  {
    NothingCollapses(s);
  }

  lemma {:induction false} NothingCollapses(s: Text)
    requires forall i :: 0 <= i < |s| ==> s[i] != BLANK
    ensures Collapse(s) == s
  {
    if |s| >= 2 {
      NothingCollapses(s[1..]);
      assert [s[0]] + s[1..] == s;
    }
  }

  lemma DisguisedHasOneCode(u: Unicode)
    requires Sane(u) && ArabicDigits(u)
    ensures forall k :: CodeAt(u, Disguised(), k) <==> k == 2
    ensures !AtBoundary(u.word, Disguised(), 2) && MatchEnd(u, Disguised(), 2) == 7
  {
    var s := Disguised();
    assert |s| == 10 && s[0] == 0x54 && s[1] == 0x661 && s[2] == 0x54 && s[7] == 0x662 && s[8] == 0x663 && s[9] == 0x664;
    assert AsciiDigit(s[3]) && AsciiDigit(s[4]) && AsciiDigit(s[5]) && AsciiDigit(s[6]);
  }

  /** What is left of ten characters of which the third to seventh are the only code. */
  lemma OneCodeLeft(u: Unicode, s: Text)
    requires |s| == 10 && (forall k :: CodeAt(u, s, k) <==> k == 2) && MatchEnd(u, s, 2) == 7
    ensures Left(u, s, 0) == [s[0], s[1], s[7], s[8], s[9]]
  {
    assert Left(u, s, 9) == [s[9]] + Left(u, s, 10) && Left(u, s, 8) == [s[8]] + Left(u, s, 9);
    assert Left(u, s, 7) == [s[7]] + Left(u, s, 8) && Left(u, s, 2) == Left(u, s, 7);
    assert Left(u, s, 1) == [s[1]] + Left(u, s, 2) && Left(u, s, 0) == [s[0]] + Left(u, s, 1);
  }

  lemma DisguisedIsLeft(u: Unicode)
    requires Sane(u) && ArabicDigits(u)
    ensures StripText(u, Disguised()) == [0x54, 0x661, 0x662, 0x663, 0x664]
  {
    var s := Disguised();
    DisguisedHasOneCode(u);
    FirstPassKeeps(u, s);
    SecondPassLeaves(u, s);
    OneCodeLeft(u, s);
    assert s[0] == 0x54 && s[1] == 0x661 && s[7] == 0x662 && s[8] == 0x663 && s[9] == 0x664 && s[0..0] == [];
    TidyKeepsDense(u, Left(u, s, 0));
  }

  /** A view that holds a code, with other digits than the ASCII ones, and about which nothing is reported. */
  lemma DisguisedIsNotReported(u: Unicode)
    requires Sane(u) && ArabicDigits(u) && !Dropped(u, T("note"), Str(Disguised()))
    ensures var view := EvaluationView(Note(Disguised()), u);
            AnyCode(Strings(view), u) && EvaluationViewLeaks(view, u) == {}
  {
    var left := StripText(u, Disguised());
    DisguisedIsLeft(u);
    assert CodeAt(u, left, 0);
    NoteView(u, Disguised());
    NoteReported(u, left);
  }
}
