/**
 A printed JSON tree can be read in one way only: whoever reads the serialisations of
 `Json` finds the tree that was printed, as far as UTF-16 code units tell texts apart.
 */
module JsonReading {
  import opened Json

  // ----- Code units -----

  /** The text in UTF-16: a character beyond the first plane becomes two surrogates. */
  function Units(s: Text): Text {
    if s == [] then [] else UnitsOf(s[0]) + Units(s[1..])
  }

  function UnitsOf(c: CodePoint): Text {
    if c < 0x1_0000 then [c] else [0xD800 + (c - 0x1_0000) / 1024, 0xDC00 + (c - 0x1_0000) % 1024]
  }

  /** What a style tells of a text: every character, or, when it escapes, every code unit. */
  function Told(s: Text, style: Style): Text { if style.Compact? then s else Units(s) }

  /** What a style tells of a tree. */
  function ToldTree(j: Json, style: Style): Json {
    match j
    case Str(s) => Str(Told(s, style))
    case Arr(items) => Arr(ToldItems(items, style))
    case Obj(members) => Obj(ToldMembers(members, style))
    case _ => j
  }

  function ToldItems(items: seq<Json>, style: Style): seq<Json> {
    if items == [] then [] else [ToldTree(items[0], style)] + ToldItems(items[1..], style)
  }

  function ToldMember(m: (Text, Json), style: Style): (Text, Json) { (Told(m.0, style), ToldTree(m.1, style)) }

  function ToldMembers(members: seq<(Text, Json)>, style: Style): seq<(Text, Json)> {
    if members == [] then [] else [ToldMember(members[0], style)] + ToldMembers(members[1..], style)
  }

  /** Characters that a style writes each for itself. */
  predicate Single(s: Text, style: Style) {
    style.Compact? || forall i :: 0 <= i < |s| ==> s[i] < 0x1_0000
  }

  lemma {:induction false} ToldIsSingle(s: Text, style: Style)
    ensures Single(Told(s, style), style)
  {
    if !style.Compact? && s != [] {
      ToldIsSingle(s[1..], style);
    }
  }

  lemma {:induction false} EscapeConcat(a: Text, b: Text, style: Style)
    ensures EscapeText(a + b, style) == EscapeText(a, style) + EscapeText(b, style)
  {
    if a == [] {
      assert a + b == b;
    } else {
      assert (a + b)[1..] == a[1..] + b;
      EscapeConcat(a[1..], b, style);
      Regroup(EscapeChar(a[0], style), EscapeText(a[1..], style), EscapeText(b, style));
    }
  }

  lemma Regroup(a: Text, b: Text, c: Text)
    ensures a + (b + c) == (a + b) + c
  {
  }

  lemma EscapeOne(c: CodePoint, style: Style)
    ensures EscapeText([c], style) == EscapeChar(c, style)
  {
    var one := [c];
    assert one[1..] == [];
    assert EscapeText(one, style) == EscapeChar(c, style) + EscapeText([], style);
  }

  lemma UnitsEscapeAlike(c: CodePoint, style: Style)
    requires !style.Compact?
    ensures EscapeText(UnitsOf(c), style) == EscapeChar(c, style)
  {
    if c < 0x1_0000 {
      EscapeOne(c, style);
    } else {
      var high: CodePoint, low: CodePoint := 0xD800 + (c - 0x1_0000) / 1024, 0xDC00 + (c - 0x1_0000) % 1024;
      assert UnitsOf(c) == [high] + [low];
      EscapeConcat([high], [low], style);
      EscapeOne(high, style);
      EscapeOne(low, style);
    }
  }

  /** Printing tells no more of a text than that. */
  lemma {:induction false} EscapesWhatIsTold(s: Text, style: Style)
    ensures EscapeText(Told(s, style), style) == EscapeText(s, style)
  {
    if !style.Compact? && s != [] {
      EscapesWhatIsTold(s[1..], style);
      EscapeConcat(UnitsOf(s[0]), Units(s[1..]), style);
      UnitsEscapeAlike(s[0], style);
    }
  }

  // ----- Texts -----

  lemma Cancel(p: Text, x: Text, y: Text)
    requires p + x == p + y
    ensures x == y
  {
    assert (p + x)[|p|..] == x && (p + y)[|p|..] == y;
  }

  /** Equal texts with starts of equal length have equal starts. */
  lemma CutAlike(p: Text, q: Text, x: Text, y: Text)
    requires p + x == q + y && |p| == |q|
    ensures p == q && x == y
  {
    assert (p + x)[..|p|] == p && (q + y)[..|q|] == q;
    Cancel(p, x, y);
  }

  lemma HexDigitsDiffer(a: nat, b: nat)
    requires a < 16 && b < 16 && HexDigit(a) == HexDigit(b)
    ensures a == b
  {
  }

  lemma Escape16Differs(m: nat, n: nat)
    requires m < 0x1_0000 && n < 0x1_0000 && Escape16(m) == Escape16(n)
    ensures m == n
  {
    var a, b := Escape16(m), Escape16(n);
    assert a[2] == b[2] && a[3] == b[3] && a[4] == b[4] && a[5] == b[5];
    HexDigitsDiffer(m / 4096 % 16, n / 4096 % 16);
    HexDigitsDiffer(m / 256 % 16, n / 256 % 16);
    HexDigitsDiffer(m / 16 % 16, n / 16 % 16);
    HexDigitsDiffer(m % 16, n % 16);
    FourDigits(m);
    FourDigits(n);
  }

  lemma FourDigits(n: nat)
    requires n < 0x1_0000
    ensures n == 4096 * (n / 4096 % 16) + 256 * (n / 256 % 16) + 16 * (n / 16 % 16) + n % 16
  {
  }

  /** The character that follows the backslash of a short escape. */
  function Mark(c: CodePoint): CodePoint {
    if c == 8 then 'b' as int else if c == 9 then 't' as int else if c == 10 then 'n' as int
    else if c == 12 then 'f' as int else if c == 13 then 'r' as int else c
  }

  predicate Short(c: CodePoint) { c == '\"' as int || c == '\\' as int || c == 8 || c == 9 || c == 10 || c == 12 || c == 13 }

  /** Written as itself. */
  predicate Raw(c: CodePoint, style: Style) { !Short(c) && c >= 32 && (c <= 126 || style.Compact?) }

  lemma EscapeForm(c: CodePoint, style: Style)
    requires style.Compact? || c < 0x1_0000
    ensures EscapeChar(c, style) ==
            if Short(c) then ['\\' as int, Mark(c)] else if Raw(c, style) then [c] else Escape16(c)
  {
  }

  lemma Escape16Form(n: nat)
    ensures |Escape16(n)| == 6 && Escape16(n)[0] == '\\' as int && Escape16(n)[1] == 'u' as int
  {
  }

  /** An escaped character ends by itself: what it was and what follows can be told. */
  lemma CharReads(c: CodePoint, d: CodePoint, style: Style, x: Text, y: Text)
    requires style.Compact? || (c < 0x1_0000 && d < 0x1_0000)
    requires EscapeChar(c, style) + x == EscapeChar(d, style) + y
    ensures c == d && x == y
  {
    EscapeForm(c, style);
    EscapeForm(d, style);
    Escape16Form(c);
    Escape16Form(d);
    var p, q := EscapeChar(c, style), EscapeChar(d, style);
    assert (p + x)[0] == p[0] && (q + y)[0] == q[0];
    if !Raw(c, style) && !Raw(d, style) {
      assert (p + x)[1] == p[1] && (q + y)[1] == q[1];
      assert Short(c) ==> Mark(c) != 'u' as int;
      assert Short(d) ==> Mark(d) != 'u' as int;
    }
    assert |p| == |q|;
    CutAlike(p, q, x, y);
    if !Raw(c, style) && !Short(c) {
      Escape16Differs(c, d);
    }
  }

  const QUOTE: CodePoint := '\"' as int

  lemma NoQuoteFirst(c: CodePoint, style: Style)
    requires style.Compact? || c < 0x1_0000
    ensures EscapeChar(c, style) != [] && EscapeChar(c, style)[0] != QUOTE
  {
    EscapeForm(c, style);
    Escape16Form(c);
  }

  /** A quoted text ends at its closing quote. */
  lemma {:induction false} TextReads(s: Text, t: Text, style: Style, x: Text, y: Text)
    requires Single(s, style) && Single(t, style)
    requires EscapeText(s, style) + ([QUOTE] + x) == EscapeText(t, style) + ([QUOTE] + y)
    ensures s == t && x == y
    decreases |s|
  {
    var p, q := EscapeText(s, style) + ([QUOTE] + x), EscapeText(t, style) + ([QUOTE] + y);
    if s != [] {
      NoQuoteFirst(s[0], style);
      Regroup(EscapeChar(s[0], style), EscapeText(s[1..], style), [QUOTE] + x);
      assert p[0] == EscapeChar(s[0], style)[0];
    }
    if t != [] {
      NoQuoteFirst(t[0], style);
      Regroup(EscapeChar(t[0], style), EscapeText(t[1..], style), [QUOTE] + y);
      assert q[0] == EscapeChar(t[0], style)[0];
    }
    if s == [] || t == [] {
      assert s == t == [] && p == [QUOTE] + x && q == [QUOTE] + y;
      Cancel([QUOTE], x, y);
    } else {
      CharReads(s[0], t[0], style, EscapeText(s[1..], style) + ([QUOTE] + x), EscapeText(t[1..], style) + ([QUOTE] + y));
      TextReads(s[1..], t[1..], style, x, y);
      assert s == [s[0]] + s[1..] && t == [t[0]] + t[1..];
    }
  }

  lemma QuoteForm(s: Text, style: Style, x: Text)
    ensures Quote(s, style) + x == [QUOTE] + (EscapeText(s, style) + ([QUOTE] + x))
  {
    assert T("\"") == [QUOTE];
    var body := EscapeText(s, style);
    assert [QUOTE] + body + [QUOTE] + x == [QUOTE] + (body + ([QUOTE] + x));
  }

  lemma QuoteReads(s: Text, t: Text, style: Style, x: Text, y: Text)
    requires Quote(s, style) + x == Quote(t, style) + y
    ensures Told(s, style) == Told(t, style) && x == y
  {
    QuoteForm(s, style, x);
    QuoteForm(t, style, y);
    Cancel([QUOTE], EscapeText(s, style) + ([QUOTE] + x), EscapeText(t, style) + ([QUOTE] + y));
    EscapesWhatIsTold(s, style);
    EscapesWhatIsTold(t, style);
    ToldIsSingle(s, style);
    ToldIsSingle(t, style);
    TextReads(Told(s, style), Told(t, style), style, x, y);
  }

  // ----- Trees -----

  /** What may follow a value: a separator, the end of a line, or a closing bracket. */
  predicate Follows(x: Text) { x == [] || x[0] == ',' as int || x[0] == '\n' as int || x[0] == ']' as int || x[0] == '}' as int }

  /** A character of a number, `NaN` and `Infinity` included. */
  predicate Numeric(c: CodePoint) {
    NumberChar(c) || c == 'N' as int || c == 'a' as int || c == 'I' as int || c == 'n' as int || c == 'f' as int || c == 'i' as int
    || c == 't' as int || c == 'y' as int
  }

  lemma NumbersAreNumeric(literal: Text)
    requires NumberText(literal)
    ensures literal != [] && forall i :: 0 <= i < |literal| ==> Numeric(literal[i])
    ensures literal[0] != 'n' as int && literal[0] != 't' as int && literal[0] != 'f' as int
  {
  }

  lemma NumberIsNotCut(a: Text, b: Text, x: Text, y: Text)
    requires (forall i :: 0 <= i < |b| ==> Numeric(b[i])) && Follows(x) && a + x == b + y
    ensures |b| <= |a|
  {
    assert forall i :: 0 <= i < |b| ==> (b + y)[i] == b[i];
    assert x != [] ==> (a + x)[|a|] == x[0];
  }

  /** A number ends where its characters end. */
  lemma NumberReads(a: Text, b: Text, x: Text, y: Text)
    requires NumberText(a) && NumberText(b) && Follows(x) && Follows(y) && a + x == b + y
    ensures a == b && x == y
  {
    NumbersAreNumeric(a);
    NumbersAreNumeric(b);
    NumberIsNotCut(a, b, x, y);
    NumberIsNotCut(b, a, y, x);
    CutAlike(a, b, x, y);
  }

  /** The first character tells what kind of value follows. */
  predicate Leads(j: Json, c: CodePoint) {
    match j
    case Null => c == 'n' as int
    case Bool(b) => c == if b then 't' as int else 'f' as int
    case Number(_) => Numeric(c) && c != 'n' as int && c != 't' as int && c != 'f' as int
    case Str(_) => c == QUOTE
    case Arr(_) => c == '[' as int
    case Obj(_) => c == '{' as int
  }

  lemma LeadsItself(j: Json, style: Style, depth: nat)
    requires WellFormed(j)
    ensures Dump(j, style, depth) != [] && Leads(j, Dump(j, style, depth)[0])
  {
    match j
    case Number(literal) => NumbersAreNumeric(literal);
    case Str(s) => QuoteForm(s, style, []);
    case _ =>
  }

  /** What ends a list of values: the line that the closing bracket stands on, or the bracket. */
  predicate Closes(x: Text) { x != [] && (x[0] == '\n' as int || x[0] == ']' as int || x[0] == '}' as int) }

  lemma SeparatorForm(style: Style, depth: nat)
    ensures Separator(style, depth) != [] && Separator(style, depth)[0] == ',' as int
  {
  }

  lemma Regroup4(a: Text, b: Text, c: Text, d: Text)
    ensures a + b + c + d == a + (b + (c + d))
  {
  }

  lemma Regroup6(a: Text, b: Text, c: Text, d: Text, e: Text, f: Text)
    ensures a + b + c + d + e + f == (a + b) + (c + ((d + e) + f))
  {
    Regroup4(a + b + c, d, e, f);
    Regroup4(a + b, c, d + e, f);
    assert a + b + c + (d + (e + f)) == a + b + c + (d + e) + f;
  }

  /** A block's text, cut after its opening and before its closing. */
  lemma BlockForm(open: Text, body: Text, close: Text, style: Style, depth: nat, x: Text)
    ensures Block(open, body, close, style, depth) + x == (open + NewLine(style, depth + 1)) + (body + ((NewLine(style, depth) + close) + x))
  {
    Regroup6(open, NewLine(style, depth + 1), body, NewLine(style, depth), close, x);
  }

  /** What is left of two blocks once their openings are read. */
  lemma BlocksRead(open: Text, a: Text, b: Text, close: Text, style: Style, depth: nat, x: Text, y: Text)
    requires Block(open, a, close, style, depth) + x == Block(open, b, close, style, depth) + y
    ensures var end := NewLine(style, depth) + close; a + (end + x) == b + (end + y)
  {
    var end := NewLine(style, depth) + close;
    BlockForm(open, a, close, style, depth, x);
    BlockForm(open, b, close, style, depth, y);
    Cancel(open + NewLine(style, depth + 1), a + (end + x), b + (end + y));
  }

  /** An empty block does not read as one with a body. */
  lemma EmptyDiffers(open: Text, body: Text, close: Text, style: Style, depth: nat, x: Text, y: Text)
    requires |open| == 1 && |close| == 1 && close[0] != '\n' as int && body != [] && body[0] != close[0]
    ensures open + close + x != Block(open, body, close, style, depth) + y
  {
    BlockForm(open, body, close, style, depth, y);
    var whole := (open + NewLine(style, depth + 1)) + (body + ((NewLine(style, depth) + close) + y));
    assert (open + close + x)[1] == close[0];
    if style.Indented? {
      assert NewLine(style, depth + 1)[0] == '\n' as int && whole[1] == '\n' as int;
    } else {
      assert whole[1] == body[0];
    }
  }

  /** The rest of a list after its first value. */
  function RestItems(items: seq<Json>, style: Style, depth: nat): Text
    requires items != []
  {
    if |items| == 1 then [] else Separator(style, depth) + DumpItems(items[1..], style, depth)
  }

  function RestMembers(members: seq<(Text, Json)>, style: Style, depth: nat): Text
    requires members != []
  {
    if |members| == 1 then [] else Separator(style, depth) + DumpMembers(members[1..], style, depth)
  }

  lemma FollowsRest(rest: Text, style: Style, depth: nat, x: Text)
    requires Closes(x) && (rest == [] || Separator(style, depth) <= rest)
    ensures Follows(rest + x)
  {
    SeparatorForm(style, depth);
    if rest == [] {
      assert rest + x == x;
    } else {
      assert (rest + x)[0] == rest[0];
    }
  }

  /**
   Whatever follows, two well-formed trees that are printed alike are told alike, and the
   same follows them: a printed tree can be read in one way only.
   */
  lemma {:induction false} TreeReads(a: Json, b: Json, style: Style, depth: nat, x: Text, y: Text)
    requires WellFormed(a) && WellFormed(b) && Follows(x) && Follows(y)
    requires Dump(a, style, depth) + x == Dump(b, style, depth) + y
    ensures ToldTree(a, style) == ToldTree(b, style) && x == y
    decreases a
  {
    LeadsItself(a, style, depth);
    LeadsItself(b, style, depth);
    assert (Dump(a, style, depth) + x)[0] == Dump(a, style, depth)[0] && (Dump(b, style, depth) + y)[0] == Dump(b, style, depth)[0];
    match a
    case Number(literal) => NumberReads(literal, b.literal, x, y);
    case Str(s) => QuoteReads(s, b.s, style, x, y);
    case Arr(items) => ArrayReads(items, b.items, style, depth, x, y);
    case Obj(members) => ObjectReads(members, b.members, style, depth, x, y);
    case _ => CutAlike(Dump(a, style, depth), Dump(b, style, depth), x, y);
  }

  /** An empty array and one with items are not printed alike. */
  lemma EmptyArrays(a: seq<Json>, b: seq<Json>, style: Style, depth: nat, x: Text, y: Text)
    requires b != [] ==> WellFormed(b[0])
    requires Dump(Arr(a), style, depth) + x == Dump(Arr(b), style, depth) + y
    ensures a == [] ==> b == [] && x == y
  {
    var bracket := T("[]");
    assert bracket == T("[") + T("]");
    if a == [] && b != [] {
      ItemsLead(b, style, depth + 1);
      EmptyDiffers(T("["), DumpItems(b, style, depth + 1), T("]"), style, depth, x, y);
    } else if a == [] {
      Cancel(bracket, x, y);
    }
  }

  lemma {:induction false} ArrayReads(a: seq<Json>, b: seq<Json>, style: Style, depth: nat, x: Text, y: Text)
    requires WellFormed(Arr(a)) && WellFormed(Arr(b))
    requires Dump(Arr(a), style, depth) + x == Dump(Arr(b), style, depth) + y
    ensures ToldItems(a, style) == ToldItems(b, style) && x == y
    decreases a, 1
  {
    EmptyArrays(a, b, style, depth, x, y);
    EmptyArrays(b, a, style, depth, y, x);
    if a != [] {
      var close := T("]");
      var end := NewLine(style, depth) + close;
      BlocksRead(T("["), DumpItems(a, style, depth + 1), DumpItems(b, style, depth + 1), close, style, depth, x, y);
      EndCloses(style, depth, close, x);
      EndCloses(style, depth, close, y);
      ItemsRead(a, b, style, depth + 1, end + x, end + y);
      Cancel(end, x, y);
    }
  }

  lemma EndCloses(style: Style, depth: nat, close: Text, x: Text)
    requires close == T("]") || close == T("}")
    ensures Closes((NewLine(style, depth) + close) + x)
  {
    assert ((NewLine(style, depth) + close) + x)[0] == (NewLine(style, depth) + close)[0];
  }

  lemma ItemsLead(items: seq<Json>, style: Style, depth: nat)
    requires items != [] && WellFormed(items[0])
    ensures DumpItems(items, style, depth) != [] && DumpItems(items, style, depth)[0] != ']' as int
  {
    LeadsItself(items[0], style, depth);
  }

  lemma MembersLead(members: seq<(Text, Json)>, style: Style, depth: nat)
    requires members != []
    ensures DumpMembers(members, style, depth) != [] && DumpMembers(members, style, depth)[0] != '}' as int
  {
    QuoteForm(members[0].0, style, []);
    var rest := T(": ") + Dump(members[0].1, style, depth);
    assert Quote(members[0].0, style) + [] == Quote(members[0].0, style);
    assert DumpMember(members[0], style, depth)[0] == QUOTE;
  }

  lemma {:induction false} ItemsRead(a: seq<Json>, b: seq<Json>, style: Style, depth: nat, x: Text, y: Text)
    requires a != [] && b != [] && WellFormed(Arr(a)) && WellFormed(Arr(b)) && Closes(x) && Closes(y)
    requires DumpItems(a, style, depth) + x == DumpItems(b, style, depth) + y
    ensures ToldItems(a, style) == ToldItems(b, style) && x == y
    decreases a, 0
  {
    var p, q := RestItems(a, style, depth), RestItems(b, style, depth);
    Regroup(Dump(a[0], style, depth), p, x);
    Regroup(Dump(b[0], style, depth), q, y);
    FollowsRest(p, style, depth, x);
    FollowsRest(q, style, depth, y);
    TreeReads(a[0], b[0], style, depth, p + x, q + y);
    RestsAgree(p, q, style, depth, x, y);
    if |a| == 1 {
      assert a[1..] == [] && b[1..] == [];
    } else {
      var sep := Separator(style, depth);
      Regroup(sep, DumpItems(a[1..], style, depth), x);
      Regroup(sep, DumpItems(b[1..], style, depth), y);
      Cancel(sep, DumpItems(a[1..], style, depth) + x, DumpItems(b[1..], style, depth) + y);
      ItemsRead(a[1..], b[1..], style, depth, x, y);
    }
  }

  /** A list ends where a bracket and not a separator follows. */
  lemma RestsAgree(p: Text, q: Text, style: Style, depth: nat, x: Text, y: Text)
    requires Closes(x) && Closes(y) && p + x == q + y
    requires (p == [] || Separator(style, depth) <= p) && (q == [] || Separator(style, depth) <= q)
    ensures p == [] <==> q == []
    ensures p == [] ==> x == y
  {
    SeparatorForm(style, depth);
    assert (p + x)[0] == (if p == [] then x[0] else p[0]);
    assert (q + y)[0] == (if q == [] then y[0] else q[0]);
    assert p == [] ==> p + x == x;
    assert q == [] ==> q + y == y;
  }

  /** An empty object and one with members are not printed alike. */
  lemma EmptyObjects(a: seq<(Text, Json)>, b: seq<(Text, Json)>, style: Style, depth: nat, x: Text, y: Text)
    requires Dump(Obj(a), style, depth) + x == Dump(Obj(b), style, depth) + y
    ensures a == [] ==> b == [] && x == y
  {
    var bracket := T("{}");
    assert bracket == T("{") + T("}");
    if a == [] && b != [] {
      MembersLead(b, style, depth + 1);
      EmptyDiffers(T("{"), DumpMembers(b, style, depth + 1), T("}"), style, depth, x, y);
    } else if a == [] {
      Cancel(bracket, x, y);
    }
  }

  lemma {:induction false} ObjectReads(a: seq<(Text, Json)>, b: seq<(Text, Json)>, style: Style, depth: nat, x: Text, y: Text)
    requires WellFormed(Obj(a)) && WellFormed(Obj(b))
    requires Dump(Obj(a), style, depth) + x == Dump(Obj(b), style, depth) + y
    ensures ToldMembers(a, style) == ToldMembers(b, style) && x == y
    decreases a, 1
  {
    EmptyObjects(a, b, style, depth, x, y);
    EmptyObjects(b, a, style, depth, y, x);
    if a != [] {
      var close := T("}");
      var end := NewLine(style, depth) + close;
      BlocksRead(T("{"), DumpMembers(a, style, depth + 1), DumpMembers(b, style, depth + 1), close, style, depth, x, y);
      EndCloses(style, depth, close, x);
      EndCloses(style, depth, close, y);
      MembersRead(a, b, style, depth + 1, end + x, end + y);
      Cancel(end, x, y);
    }
  }

  lemma {:induction false} MembersRead(a: seq<(Text, Json)>, b: seq<(Text, Json)>, style: Style, depth: nat, x: Text, y: Text)
    requires a != [] && b != [] && WellFormed(Obj(a)) && WellFormed(Obj(b)) && Closes(x) && Closes(y)
    requires DumpMembers(a, style, depth) + x == DumpMembers(b, style, depth) + y
    ensures ToldMembers(a, style) == ToldMembers(b, style) && x == y
    decreases a, 0
  {
    var p, q := RestMembers(a, style, depth), RestMembers(b, style, depth);
    Regroup(DumpMember(a[0], style, depth), p, x);
    Regroup(DumpMember(b[0], style, depth), q, y);
    FollowsRest(p, style, depth, x);
    FollowsRest(q, style, depth, y);
    MemberReads(a[0], b[0], style, depth, p + x, q + y);
    RestsAgree(p, q, style, depth, x, y);
    if |a| == 1 {
      assert a[1..] == [] && b[1..] == [];
    } else {
      var sep := Separator(style, depth);
      Regroup(sep, DumpMembers(a[1..], style, depth), x);
      Regroup(sep, DumpMembers(b[1..], style, depth), y);
      Cancel(sep, DumpMembers(a[1..], style, depth) + x, DumpMembers(b[1..], style, depth) + y);
      MembersRead(a[1..], b[1..], style, depth, x, y);
    }
  }

  lemma {:induction false} MemberReads(m: (Text, Json), n: (Text, Json), style: Style, depth: nat, x: Text, y: Text)
    requires WellFormed(m.1) && WellFormed(n.1) && Follows(x) && Follows(y)
    requires DumpMember(m, style, depth) + x == DumpMember(n, style, depth) + y
    ensures ToldMember(m, style) == ToldMember(n, style) && x == y
    decreases m
  {
    var colon, v, w := T(": "), Dump(m.1, style, depth), Dump(n.1, style, depth);
    Regroup4(Quote(m.0, style), colon, v, x);
    Regroup4(Quote(n.0, style), colon, w, y);
    QuoteReads(m.0, n.0, style, colon + (v + x), colon + (w + y));
    Cancel(colon, v + x, w + y);
    TreeReads(m.1, n.1, style, depth, x, y);
  }

  // ----- What printing tells -----

  lemma {:induction false} PrintsWhatIsTold(j: Json, style: Style, depth: nat)
    ensures Dump(ToldTree(j, style), style, depth) == Dump(j, style, depth)
    decreases j
  {
    match j
    case Str(s) => EscapesWhatIsTold(s, style);
    case Arr(items) => PrintsToldItems(items, style, depth + 1);
    case Obj(members) => PrintsToldMembers(members, style, depth + 1);
    case _ =>
  }

  lemma {:induction false} PrintsToldItems(items: seq<Json>, style: Style, depth: nat)
    ensures DumpItems(ToldItems(items, style), style, depth) == DumpItems(items, style, depth)
    ensures |ToldItems(items, style)| == |items|
    decreases items
  {
    if items != [] {
      PrintsWhatIsTold(items[0], style, depth);
      PrintsToldItems(items[1..], style, depth);
      assert ToldItems(items, style)[1..] == ToldItems(items[1..], style);
    }
  }

  lemma {:induction false} PrintsToldMembers(members: seq<(Text, Json)>, style: Style, depth: nat)
    ensures DumpMembers(ToldMembers(members, style), style, depth) == DumpMembers(members, style, depth)
    ensures |ToldMembers(members, style)| == |members|
    decreases members
  {
    if members != [] {
      PrintsToldMember(members[0], style, depth);
      PrintsToldMembers(members[1..], style, depth);
      assert ToldMembers(members, style)[1..] == ToldMembers(members[1..], style);
    }
  }

  lemma {:induction false} PrintsToldMember(m: (Text, Json), style: Style, depth: nat)
    ensures DumpMember(ToldMember(m, style), style, depth) == DumpMember(m, style, depth)
    decreases m
  {
    EscapesWhatIsTold(m.0, style);
    PrintsWhatIsTold(m.1, style, depth);
  }

  /** Two trees are printed alike exactly when they are the same tree, where escapes are used up to the encoding of their texts. */
  lemma PrintedAlikeExactly(a: Json, b: Json, style: Style, depth: nat)
    requires WellFormed(a) && WellFormed(b)
    ensures Dump(a, style, depth) == Dump(b, style, depth) <==> ToldTree(a, style) == ToldTree(b, style)
  {
    PrintsWhatIsTold(a, style, depth);
    PrintsWhatIsTold(b, style, depth);
    if Dump(a, style, depth) == Dump(b, style, depth) {
      TreeReads(a, b, style, depth, [], []);
    }
  }

  /** Why only up to the encoding: a character beyond the first plane is escaped as its two surrogates are. */
  lemma SurrogatesPrintAlike(style: Style, depth: nat)
    requires !style.Compact?
    ensures var one, two := Str([0x1_F600]), Str([0xD83D, 0xDE00]);
            one != two && Dump(one, style, depth) == Dump(two, style, depth)
  {
    var one: Text := [0x1_F600];
    assert one[1..] == [];
    assert Units(one) == [0xD83D, 0xDE00];
    EscapesWhatIsTold(one, style);
  }
}
