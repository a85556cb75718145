/**
 JSON trees and the three ways the assistant serialises them with Python's `json.dumps`:
 on one line with raw Unicode, and on one line or indented with every non-ASCII character
 escaped.
 String escaping follows section 7 of RFC 8259.

 Text is a sequence of code points, so that the lone surrogates a Python string
 can hold are included.
 */
module Json {
  import opened Common
  import opened Occurrences

  type CodePoint = c: int | 0 <= c < 0x11_0000
  type Text = seq<CodePoint>

  function T(s: string): (t: Text)
    ensures |t| == |s| && forall i :: 0 <= i < |s| ==> t[i] == s[i] as int
  {
    seq(|s|, i requires 0 <= i < |s| => s[i] as int)
  }

  datatype Json =
    | Null
    | Bool(b: bool)
    | Number(literal: Text)
    | Str(s: Text)
    | Arr(items: seq<Json>)
    | Obj(members: seq<(Text, Json)>)

  predicate NumberChar(c: CodePoint) {
    c == '+' as int || c == '-' as int || c == '.' as int || c == 'e' as int || '0' as int <= c <= '9' as int
  }

  /** What Python prints for integers and floats. */
  predicate NumberText(literal: Text) {
    literal == T("NaN") || literal == T("Infinity") || literal == T("-Infinity")
    || (literal != [] && forall i :: 0 <= i < |literal| ==> NumberChar(literal[i]))
  }

  /** Every number is spelled as Python prints it. */
  predicate WellFormed(j: Json) {
    match j
    case Number(literal) => NumberText(literal)
    case Arr(items) => forall i :: 0 <= i < |items| ==> WellFormed(items[i])
    case Obj(members) => forall i :: 0 <= i < |members| ==> WellFormed(members[i].1)
    case _ => true
  }

  /** `Compact` is `dumps(ensure_ascii=False)`, `Indented` is `dumps(indent=2)`, `Ascii` is plain `dumps`. */
  datatype Style = Compact | Indented | Ascii

  function HexDigit(d: nat): CodePoint
    requires d < 16
  {
    if d < 10 then '0' as int + d else 'a' as int + d - 10
  }

  /** The six-character escape of a 16-bit code unit. */
  function Escape16(n: nat): Text {
    T("\\u") + [HexDigit(n / 4096 % 16), HexDigit(n / 256 % 16), HexDigit(n / 16 % 16), HexDigit(n % 16)]
  }

  function EscapeChar(c: CodePoint, style: Style): Text {
    if c == '\"' as int then T("\\\"")
    else if c == '\\' as int then T("\\\\")
    else if c == 8 then T("\\b")
    else if c == 9 then T("\\t")
    else if c == 10 then T("\\n")
    else if c == 12 then T("\\f")
    else if c == 13 then T("\\r")
    else if c < 32 then Escape16(c)
    else if c <= 126 || style.Compact? then [c]
    else if c < 0x1_0000 then Escape16(c)
    else Escape16(0xD800 + (c - 0x1_0000) / 1024) + Escape16(0xDC00 + (c - 0x1_0000) % 1024)
  }

  function EscapeText(s: Text, style: Style): Text {
    if s == [] then [] else EscapeChar(s[0], style) + EscapeText(s[1..], style)
  }

  function Quote(s: Text, style: Style): Text {
    T("\"") + EscapeText(s, style) + T("\"")
  }

  function Spaces(n: nat): (t: Text)
    ensures |t| == n && forall i :: 0 <= i < n ==> t[i] == ' ' as int
  {
    seq(n, _ => ' ' as int)
  }

  /** What an indenting printer writes where a new line starts. */
  function NewLine(style: Style, depth: nat): Text {
    if !style.Indented? then [] else T("\n") + Spaces(2 * depth)
  }

  function Separator(style: Style, depth: nat): Text {
    if !style.Indented? then T(", ") else T(",") + NewLine(style, depth)
  }

  function Block(open: Text, body: Text, close: Text, style: Style, depth: nat): Text {
    open + NewLine(style, depth + 1) + body + NewLine(style, depth) + close
  }

  function Dump(j: Json, style: Style, depth: nat): Text {
    match j
    case Null => T("null")
    case Bool(b) => if b then T("true") else T("false")
    case Number(literal) => literal
    case Str(s) => Quote(s, style)
    case Arr(items) =>
      if items == [] then T("[]") else Block(T("["), DumpItems(items, style, depth + 1), T("]"), style, depth)
    case Obj(members) =>
      if members == [] then T("{}") else Block(T("{"), DumpMembers(members, style, depth + 1), T("}"), style, depth)
  }

  function DumpItems(items: seq<Json>, style: Style, depth: nat): Text {
    if items == [] then []
    else
      var rest := if |items| == 1 then [] else Separator(style, depth) + DumpItems(items[1..], style, depth);
      Dump(items[0], style, depth) + rest
  }

  function DumpMember(member: (Text, Json), style: Style, depth: nat): Text {
    Quote(member.0, style) + T(": ") + Dump(member.1, style, depth)
  }

  function DumpMembers(members: seq<(Text, Json)>, style: Style, depth: nat): Text {
    if members == [] then []
    else
      var rest := if |members| == 1 then [] else Separator(style, depth) + DumpMembers(members[1..], style, depth);
      DumpMember(members[0], style, depth) + rest
  }

  /** Every string of the tree, keys included, in document order. */
  function Strings(j: Json): seq<Text> {
    match j
    case Str(s) => [s]
    case Arr(items) => ItemStrings(items)
    case Obj(members) => MemberStrings(members)
    case _ => []
  }

  function ItemStrings(items: seq<Json>): seq<Text> {
    if items == [] then [] else Strings(items[0]) + ItemStrings(items[1..])
  }

  function MemberStrings(members: seq<(Text, Json)>): seq<Text> {
    if members == [] then [] else PairStrings(members[0]) + MemberStrings(members[1..])
  }

  function PairStrings(member: (Text, Json)): seq<Text> {
    [member.0] + Strings(member.1)
  }

  /** How often `p` occurs in a list of texts, each taken on its own. */
  function Total(texts: seq<Text>, p: Text): nat
    requires p != []
  {
    if texts == [] then 0 else Count(texts[0], p) + Total(texts[1..], p)
  }

  lemma {:induction false} TotalConcat(a: seq<Text>, b: seq<Text>, p: Text)
    requires p != []
    ensures Total(a + b, p) == Total(a, p) + Total(b, p)
  {
    if a == [] {
      assert a + b == b;
    } else {
      assert (a + b)[1..] == a[1..] + b;
      TotalConcat(a[1..], b, p);
    }
  }

  lemma {:induction false} TotalPositive(texts: seq<Text>, p: Text)
    requires p != []
    ensures Total(texts, p) > 0 <==> exists i :: 0 <= i < |texts| && Contains(texts[i], p)
  {
    if texts != [] {
      TotalPositive(texts[1..], p);
      CountPositive(texts[0], p);
      if i :| 0 <= i < |texts[1..]| && Contains(texts[1..][i], p) {
        assert texts[i + 1] == texts[1..][i];
      }
      if i :| 0 <= i < |texts| && Contains(texts[i], p) && i > 0 {
        assert texts[i] == texts[1..][i - 1];
      }
    }
  }

  // ----- What a tag made of capital letters, `_`, `/` and angle brackets meets in a printed tree -----

  predicate TagChar(c: CodePoint) {
    c == '<' as int || c == '>' as int || c == '/' as int || c == '_' as int || 'A' as int <= c <= 'Z' as int
  }

  /** A pattern that starts with `<` and holds no character a JSON printer writes or escapes. */
  ghost predicate TagLike(p: Text) {
    p != [] && p[0] == '<' as int && forall i :: 0 <= i < |p| ==> TagChar(p[i])
  }

  lemma GlueIsForeign(g: Text, p: Text)
    requires TagLike(p) && forall i :: 0 <= i < |g| ==> !TagChar(g[i])
    ensures Foreign(g, p)
  {
  }

  lemma EscapesAvoidTags(c: CodePoint, style: Style)
    ensures EscapeChar(c, style) == [c] ||
            (!TagChar(c) && forall i :: 0 <= i < |EscapeChar(c, style)| ==> !TagChar(EscapeChar(c, style)[i]))
  {
    var e := EscapeChar(c, style);
    forall n: nat ensures forall i :: 0 <= i < 6 ==> !TagChar(Escape16(n)[i]) {
      assert forall d: nat :: d < 16 ==> !TagChar(HexDigit(d));
    }
    if e != [c] {
      assert !TagChar(c);
    }
  }

  lemma {:induction false} PrefixThroughEscape(s: Text, p: Text, style: Style)
    requires forall i :: 0 <= i < |p| ==> TagChar(p[i])
    ensures p <= s <==> p <= EscapeText(s, style)
  {
    if p != [] && s != [] {
      EscapesAvoidTags(s[0], style);
      var e, rest := EscapeChar(s[0], style), EscapeText(s[1..], style);
      PrefixThroughEscape(s[1..], p[1..], style);
      if e == [s[0]] {
        assert p <= s <==> p[0] == s[0] && p[1..] <= s[1..];
        assert (e + rest)[1..] == rest;
        assert p <= e + rest <==> p[0] == s[0] && p[1..] <= rest;
      } else {
        assert TagChar(p[0]) && !TagChar(e[0]) && (e + rest)[0] == e[0];
      }
    }
  }

  /** Escaping neither creates nor hides a tag. */
  lemma {:induction false} CountThroughEscape(s: Text, p: Text, style: Style)
    requires TagLike(p)
    ensures Count(EscapeText(s, style), p) == Count(s, p)
  {
    if s != [] {
      var e, rest := EscapeChar(s[0], style), EscapeText(s[1..], style);
      EscapesAvoidTags(s[0], style);
      CountThroughEscape(s[1..], p, style);
      if e == [s[0]] {
        PrefixThroughEscape(s, p, style);
        assert (e + rest)[1..] == rest;
      } else {
        GlueIsForeign(e, p);
        CountAfterForeign(e, rest, p);
        assert s[0] != p[0];
      }
    }
  }

  lemma CountEnclosed(open: Text, body: Text, close: Text, p: Text)
    requires TagLike(p) && close != []
    requires forall i :: 0 <= i < |open| ==> !TagChar(open[i])
    requires forall i :: 0 <= i < |close| ==> !TagChar(close[i])
    ensures Count(open + body + close, p) == Count(body, p)
  {
    GlueIsForeign(open, p);
    GlueIsForeign(close, p);
    assert open + body + close == open + (body + close + []);
    CountAfterForeign(open, body + close + [], p);
    CountAcross(body, close, [], p);
  }

  lemma CountBlock(open: Text, body: Text, close: Text, style: Style, depth: nat, p: Text)
    requires TagLike(p) && |open| == |close| == 1 && !TagChar(open[0]) && !TagChar(close[0])
    ensures Count(Block(open, body, close, style, depth), p) == Count(body, p)
  {
    var before, after := open + NewLine(style, depth + 1), NewLine(style, depth) + close;
    assert Block(open, body, close, style, depth) == before + body + after;
    CountEnclosed(before, body, after, p);
  }

  lemma CountQuoted(s: Text, p: Text, style: Style)
    requires TagLike(p)
    ensures Count(Quote(s, style), p) == Count(s, p)
  {
    CountEnclosed(T("\""), EscapeText(s, style), T("\""), p);
    CountThroughEscape(s, p, style);
  }

  lemma CountScalar(j: Json, style: Style, depth: nat, p: Text)
    requires TagLike(p) && WellFormed(j) && !j.Arr? && !j.Obj?
    ensures Count(Dump(j, style, depth), p) == Total(Strings(j), p)
  {
    match j
    case Null => CountWithoutHead(T("null"), p);
    case Bool(b) => CountWithoutHead(if b then T("true") else T("false"), p);
    case Number(literal) => CountWithoutHead(literal, p);
    case Str(s) =>
      CountQuoted(s, p, style);
      assert Total([s], p) == Count(s, p) + Total([], p);
  }

  /**
   The printed tree holds a tag exactly as often as its strings do, one by one:
   punctuation, layout and escapes neither create, hide nor join one.
   */
  lemma {:induction false} CountDump(j: Json, style: Style, depth: nat, p: Text)
    requires TagLike(p) && WellFormed(j)
    ensures Count(Dump(j, style, depth), p) == Total(Strings(j), p)
    decreases j
  {
    match j
    case Arr(items) => CountArray(items, style, depth, p);
    case Obj(members) => CountObject(members, style, depth, p);
    case _ => CountScalar(j, style, depth, p);
  }

  lemma {:induction false} CountArray(items: seq<Json>, style: Style, depth: nat, p: Text)
    requires TagLike(p) && WellFormed(Arr(items))
    ensures Count(Dump(Arr(items), style, depth), p) == Total(Strings(Arr(items)), p)
    decreases items, 1
  {
    if items == [] {
      CountWithoutHead(T("[]"), p);
    } else {
      var body := DumpItems(items, style, depth + 1);
      CountDumpItems(items, style, depth + 1, p);
      assert Count(body, p) == Total(ItemStrings(items), p);
      CountBlock(T("["), body, T("]"), style, depth, p);
      assert Dump(Arr(items), style, depth) == Block(T("["), body, T("]"), style, depth);
    }
  }

  lemma {:induction false} CountObject(members: seq<(Text, Json)>, style: Style, depth: nat, p: Text)
    requires TagLike(p) && WellFormed(Obj(members))
    ensures Count(Dump(Obj(members), style, depth), p) == Total(Strings(Obj(members)), p)
    decreases members, 1
  {
    if members == [] {
      CountWithoutHead(T("{}"), p);
    } else {
      var body := DumpMembers(members, style, depth + 1);
      CountDumpMembers(members, style, depth + 1, p);
      assert Count(body, p) == Total(MemberStrings(members), p);
      CountBlock(T("{"), body, T("}"), style, depth, p);
      assert Dump(Obj(members), style, depth) == Block(T("{"), body, T("}"), style, depth);
    }
  }

  lemma {:induction false} CountDumpItems(items: seq<Json>, style: Style, depth: nat, p: Text)
    requires TagLike(p) && forall i :: 0 <= i < |items| ==> WellFormed(items[i])
    ensures Count(DumpItems(items, style, depth), p) == Total(ItemStrings(items), p)
    decreases items, 0
  {
    if items != [] {
      CountDump(items[0], style, depth, p);
      CountDumpItems(items[1..], style, depth, p);
      TotalConcat(Strings(items[0]), ItemStrings(items[1..]), p);
      CountSeparated(Dump(items[0], style, depth), DumpItems(items[1..], style, depth), style, depth, p);
    }
  }

  lemma {:induction false} CountDumpMembers(members: seq<(Text, Json)>, style: Style, depth: nat, p: Text)
    requires TagLike(p) && forall i :: 0 <= i < |members| ==> WellFormed(members[i].1)
    ensures Count(DumpMembers(members, style, depth), p) == Total(MemberStrings(members), p)
    decreases members, 0
  {
    if members != [] {
      CountDumpMember(members[0], style, depth, p);
      CountDumpMembers(members[1..], style, depth, p);
      TotalConcat(PairStrings(members[0]), MemberStrings(members[1..]), p);
      CountSeparated(DumpMember(members[0], style, depth), DumpMembers(members[1..], style, depth), style, depth, p);
    }
  }

  lemma {:induction false} CountDumpMember(m: (Text, Json), style: Style, depth: nat, p: Text)
    requires TagLike(p) && WellFormed(m.1)
    ensures Count(DumpMember(m, style, depth), p) == Total(PairStrings(m), p)
    decreases m
  {
    CountDump(m.1, style, depth, p);
    CountQuoted(m.0, p, style);
    GlueIsForeign(T(": "), p);
    CountAcross(Quote(m.0, style), T(": "), Dump(m.1, style, depth), p);
    TotalConcat([m.0], Strings(m.1), p);
    assert Total([m.0], p) == Count(m.0, p) + Total([], p);
  }

  lemma CountSeparated(head: Text, tail: Text, style: Style, depth: nat, p: Text)
    requires TagLike(p)
    ensures Count(head + (Separator(style, depth) + tail), p) == Count(head, p) + Count(tail, p)
    ensures head + [] == head
  {
    GlueIsForeign(Separator(style, depth), p);
    CountAcross(head, Separator(style, depth), tail, p);
    assert head + (Separator(style, depth) + tail) == head + Separator(style, depth) + tail;
  }
}
