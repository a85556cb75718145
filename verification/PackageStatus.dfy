/**
 parse_package_status in siem/rbac/broker_tls/operator_runtime.py: a strict reader of
 the dpkg status database, as a line-driven state machine and as a specification by stanzas.
 */
module PackageStatus {
  import opened Common
  import opened Texts

  const MAX_STATUS := 32 * 1024 * 1024
  const PACKAGE := "wazuh-dashboard"
  const PACKAGE_VERSION := "4.14.7-1"
  const ARCHITECTURE := "amd64"
  const INSTALLED := "install ok installed"
  const HELD := "hold ok installed"

  datatype Identity = Identity(version: string, architecture: string, selection: string)

  // ----- Characters and lines -----

  predicate Gap(c: char) { c == ' ' || c == '\t' }

  function TrimLeft(s: string): string {
    if s != "" && Gap(s[0]) then TrimLeft(s[1..]) else s
  }

  function TrimRight(s: string): string {
    if s != "" && Gap(s[|s| - 1]) then TrimRight(s[..|s| - 1]) else s
  }

  /** `line.strip(' \t')` */
  function Trim(s: string): string { TrimRight(TrimLeft(s)) }

  /** `text.replace('\r\n', '\n')` */
  function UnixLines(s: string): string {
    if |s| < 2 then s
    else if s[0] == '\r' && s[1] == '\n' then "\n" + UnixLines(s[2..])
    else [s[0]] + UnixLines(s[1..])
  }

  /** A character of `[\x00-\x08\x0b-\x1f\x7f]` */
  predicate Control(c: char) {
    var n := c as int; n <= 8 || 0xb <= n <= 0x1f || n == 0x7f
  }

  predicate Blank(line: string) { forall i :: 0 <= i < |line| ==> Gap(line[i]) }

  predicate Continuation(line: string) { line != "" && Gap(line[0]) }

  /** Where the first colon is, or the end of the line. */
  function Colon(line: string): (n: nat)
    ensures n <= |line| && (forall i :: 0 <= i < n ==> line[i] != ':') && (n < |line| ==> line[n] == ':')
  {
    if line == "" || line[0] == ':' then 0 else 1 + Colon(line[1..])
  }

  predicate NameChar(c: char) { '!' <= c <= '9' || ';' <= c <= '~' }

  /** A header line: a field name of `[!-9;-~]+` that starts with neither `#` nor `-`, then a colon. */
  predicate Header(line: string) {
    var n := Colon(line);
    0 < n < |line| && (forall i :: 0 <= i < n ==> NameChar(line[i])) && line[0] != '#' && line[0] != '-'
  }

  function Lower(s: string): (r: string)
    ensures |r| == |s|
  {
    seq(|s|, i requires 0 <= i < |s| => if 'A' <= s[i] <= 'Z' then s[i] - 'A' + 'a' else s[i])
  }

  /** The field name of a header line, lower-cased. */
  function Key(line: string): string { Lower(line[..Colon(line)]) }

  /** What follows the colon, stripped. */
  function Value(line: string): string {
    if Colon(line) < |line| then Trim(line[Colon(line) + 1..]) else ""
  }

  predicate IdentityField(key: string) {
    key == "package" || key == "status" || key == "version" || key == "architecture"
  }

  // ----- Specification by stanzas -----

  type Stanza = seq<string>

  /** The stanzas of a list of lines: what stands between blank lines. `open` is the one in progress. */
  function StanzasFrom(open: Stanza, lines: seq<string>): seq<Stanza>
    decreases |lines|
  {
    if lines == [] then [open]
    else if Blank(lines[0]) then [open] + StanzasFrom([], lines[1..])
    else StanzasFrom(open + [lines[0]], lines[1..])
  }

  function Stanzas(lines: seq<string>): seq<Stanza> { StanzasFrom([], lines) }

  /** The field name of the last line that is not a continuation. */
  function NearestKey(stanza: Stanza): Option<string> {
    if stanza == [] then None
    else
      var last := stanza[|stanza| - 1];
      if Continuation(last) then NearestKey(stanza[..|stanza| - 1]) else Some(Key(last))
  }

  /** A line is a header, or continues a header of a field that is not an identity field. */
  predicate LineOk(stanza: Stanza, i: nat)
    requires i < |stanza|
  {
    if Continuation(stanza[i]) then
      var key := NearestKey(stanza[..i]); key.Some? && !IdentityField(key.value)
    else Header(stanza[i])
  }

  ghost predicate WellFormed(stanza: Stanza) {
    && (forall i :: 0 <= i < |stanza| ==> LineOk(stanza, i))
    && (forall i, j :: 0 <= i < j < |stanza| && !Continuation(stanza[i]) && !Continuation(stanza[j])
                       ==> Key(stanza[i]) != Key(stanza[j]))
  }

  /** The field `key` of the stanza has the value `value`. */
  ghost predicate HasField(stanza: Stanza, key: string, value: string) {
    exists i :: 0 <= i < |stanza| && !Continuation(stanza[i]) && Header(stanza[i]) && Key(stanza[i]) == key && Value(stanza[i]) == value
  }

  ghost predicate IsTarget(stanza: Stanza) { HasField(stanza, "package", PACKAGE) }

  /** Exactly one stanza names the package, and it identifies the pinned installation. */
  ghost predicate Describes(stanzas: seq<Stanza>, identity: Identity) {
    exists n :: Pinned(stanzas, n, identity)
  }

  ghost predicate Pinned(stanzas: seq<Stanza>, n: int, identity: Identity) {
    && 0 <= n < |stanzas| && IsTarget(stanzas[n])
    && (forall k :: 0 <= k < |stanzas| && k != n ==> !IsTarget(stanzas[k]))
    && Identifies(stanzas[n], identity)
  }

  /** The identity fields of the stanza are those of the pinned package, installed or on hold. */
  ghost predicate Identifies(stanza: Stanza, identity: Identity) {
    && HasField(stanza, "version", PACKAGE_VERSION) && identity.version == PACKAGE_VERSION
    && HasField(stanza, "architecture", ARCHITECTURE) && identity.architecture == ARCHITECTURE
    && ((HasField(stanza, "status", INSTALLED) && identity.selection == "install")
        || (HasField(stanza, "status", HELD) && identity.selection == "hold"))
  }

  ghost predicate AllWellFormed(stanzas: seq<Stanza>) {
    forall n :: 0 <= n < |stanzas| ==> WellFormed(stanzas[n])
  }

  // ----- How lines are read -----

  /** A field as dpkg writes it, with any blanks around its value. */
  function FieldLine(name: string, left: string, value: string, right: string): string {
    name + ":" + left + value + right
  }

  predicate Gaps(s: string) { forall i :: 0 <= i < |s| ==> Gap(s[i]) }

  /** Neither starts nor ends with a blank. */
  predicate Trimmed(s: string) { s == "" || (!Gap(s[0]) && !Gap(s[|s| - 1])) }

  lemma {:induction false} TrimsLeft(left: string, s: string)
    requires Gaps(left) && (s == "" || !Gap(s[0]))
    ensures TrimLeft(left + s) == s
  {
    if left == "" {
      assert left + s == s;
    } else {
      assert (left + s)[1..] == left[1..] + s;
      TrimsLeft(left[1..], s);
    }
  }

  lemma {:induction false} TrimsRight(s: string, right: string)
    requires Gaps(right) && (s == "" || !Gap(s[|s| - 1]))
    ensures TrimRight(s + right) == s
    decreases |right|
  {
    if right == "" {
      assert s + right == s;
    } else {
      assert (s + right)[..|s + right| - 1] == s + right[..|right| - 1];
      TrimsRight(s, right[..|right| - 1]);
    }
  }

  lemma {:induction false} GapsTrimAway(s: string)
    requires Gaps(s)
    ensures TrimLeft(s) == ""
  {
    if s != "" {
      GapsTrimAway(s[1..]);
    }
  }

  lemma TrimsAround(left: string, value: string, right: string)
    requires Gaps(left) && Gaps(right) && Trimmed(value)
    ensures Trim(left + value + right) == value
  {
    if value == "" {
      assert left + value + right == left + right;
      GapsTrimAway(left + right);
    } else {
      assert left + value + right == left + (value + right);
      TrimsLeft(left, value + right);
      TrimsRight(value, right);
    }
  }

  lemma {:induction false} ColonAfter(name: string, rest: string)
    requires ':' !in name
    ensures Colon(name + ":" + rest) == |name|
  {
    var line := name + ":" + rest;
    if name != "" {
      assert line[1..] == name[1..] + ":" + rest && line[0] == name[0];
      ColonAfter(name[1..], rest);
    }
  }

  /** Reading a written field gives back its name, without case, and its value, without the blanks. */
  lemma FieldLineReads(name: string, left: string, value: string, right: string)
    requires ':' !in name && Gaps(left) && Gaps(right) && Trimmed(value)
    ensures Key(FieldLine(name, left, value, right)) == Lower(name) && Value(FieldLine(name, left, value, right)) == value
    ensures Header(FieldLine(name, left, value, right)) <==>
            name != "" && (forall i :: 0 <= i < |name| ==> NameChar(name[i])) && name[0] != '#' && name[0] != '-'
  {
    var line := FieldLine(name, left, value, right);
    assert line == name + ":" + (left + value + right);
    ColonAfter(name, left + value + right);
    assert line[..|name|] == name && line[|name| + 1..] == left + value + right;
    TrimsAround(left, value, right);
  }

  /** The same letter in either case. */
  predicate SameLetter(a: char, b: char) {
    a == b || ('A' <= a <= 'Z' && b as int == a as int + 32) || ('A' <= b <= 'Z' && a as int == b as int + 32)
  }

  /** Two fields have one name exactly when they differ at most in the case of letters. */
  lemma CaseDoesNotMatter(a: string, b: string)
    ensures Lower(a) == Lower(b) <==> |a| == |b| && forall i :: 0 <= i < |a| ==> SameLetter(a[i], b[i])
  {
    if Lower(a) == Lower(b) {
      forall i | 0 <= i < |a| ensures SameLetter(a[i], b[i]) {
        assert Lower(a)[i] == Lower(b)[i];
      }
    }
  }

  function DosLines(s: string): string {
    if s == "" then "" else (if s[0] == '\n' then "\r\n" else [s[0]]) + DosLines(s[1..])
  }

  /** Line ends of either kind read the same. */
  lemma {:induction false} LineEndsDoNotMatter(s: string)
    requires '\r' !in s
    ensures UnixLines(DosLines(s)) == s && UnixLines(s) == s
  {
    if s != "" {
      LineEndsDoNotMatter(s[1..]);
      var rest := DosLines(s[1..]);
      if s[0] == '\n' {
        var dos := "\r\n" + rest;
        assert dos[2..] == rest && "\n" + s[1..] == s;
      } else {
        assert ([s[0]] + rest)[1..] == rest && [s[0]] + s[1..] == s;
      }
    }
  }

  // ----- The state machine -----

  type Fields = map<string, Option<string>>

  datatype State = State(fields: Fields, previous: Option<string>, matches: seq<Fields>)

  function Get(fields: Fields, key: string): Option<string> {
    if key in fields then fields[key] else None
  }

  /** One iteration of the loop. */
  function Step(s: State, line: string): Result<State, string> {
    if Blank(line) then
      if Get(s.fields, "package") == Some(PACKAGE) then
        if s.matches == [] then Ok(State(map[], None, [s.fields])) else Err("PACKAGE_STATUS_AMBIGUOUS")
      else Ok(State(map[], None, s.matches))
    else if Continuation(line) then
      if s.previous.Some? && !IdentityField(s.previous.value) then Ok(s) else Err("PACKAGE_STATUS_FORMAT")
    else if !Header(line) then Err("PACKAGE_STATUS_FORMAT")
    else
      var key := Key(line);
      if key in s.fields then Err("PACKAGE_STATUS_DUPLICATE")
      else Ok(State(s.fields[key := if IdentityField(key) then Some(Value(line)) else None], Some(key), s.matches))
  }

  function Steps(s: State, lines: seq<string>): Result<State, string>
    decreases |lines|
  {
    if lines == [] then Ok(s)
    else
      var next := Step(s, lines[0]);
      if next.Err? then next else Steps(next.value, lines[1..])
  }

  /** The checks after the loop. */
  function Finish(s: State): Result<Identity, string> {
    if |s.matches| != 1 then Err("PACKAGE_STATUS_MISSING")
    else
      var target := s.matches[0];
      if Get(target, "version") != Some(PACKAGE_VERSION) then Err("PACKAGE_VERSION")
      else if Get(target, "architecture") != Some(ARCHITECTURE) then Err("PACKAGE_ARCHITECTURE")
      else if Get(target, "status") == Some(INSTALLED) then Ok(Identity(PACKAGE_VERSION, ARCHITECTURE, "install"))
      else if Get(target, "status") == Some(HELD) then Ok(Identity(PACKAGE_VERSION, ARCHITECTURE, "hold"))
      else Err("PACKAGE_NOT_INSTALLED")
  }

  const START := State(map[], None, [])

  function ParseLines(lines: seq<string>): Result<Identity, string> {
    var end := Steps(START, lines);
    if end.Err? then Err(end.error) else Finish(end.value)
  }

  function Parse(raw: seq<byte>, decoded: Option<string>): Result<Identity, string> {
    if !(0 < |raw| <= MAX_STATUS) then Err("PACKAGE_STATUS_SIZE")
    else if decoded.None? then Err("PACKAGE_STATUS_FORMAT")
    else
      var text := UnixLines(decoded.value);
      if exists i :: 0 <= i < |text| && Control(text[i]) then Err("PACKAGE_STATUS_FORMAT")
      else ParseLines(Split(text, '\n') + [""])
  }

  /** `parse_package_status`; `decoded` is the UTF-8 decoding of `raw`, if it has one. */
  method ParsePackageStatus(raw: seq<byte>, decoded: Option<string>) returns (r: Result<Identity, string>)
    ensures r == Parse(raw, decoded)
  {
    if !(0 < |raw| <= MAX_STATUS) {
      return Err("PACKAGE_STATUS_SIZE");
    }
    if decoded.None? {
      return Err("PACKAGE_STATUS_FORMAT");
    }
    var text := UnixLines(decoded.value);
    if exists i :: 0 <= i < |text| && Control(text[i]) {
      return Err("PACKAGE_STATUS_FORMAT");
    }
    var lines := Split(text, '\n') + [""];
    var fields: Fields, matches: seq<Fields>, previous: Option<string> := map[], [], None;
    for n := 0 to |lines|
      invariant Steps(START, lines) == Steps(State(fields, previous, matches), lines[n..])
    {
      var line := lines[n];
      assert lines[n..][1..] == lines[n + 1..];
      if Blank(line) {
        if Get(fields, "package") == Some(PACKAGE) {
          if |matches| != 0 {
            return Err("PACKAGE_STATUS_AMBIGUOUS");
          }
          assert matches + [fields] == [fields];
          matches := matches + [fields];
        }
        fields, previous := map[], None;
      } else if Continuation(line) {
        if previous.None? || IdentityField(previous.value) {
          return Err("PACKAGE_STATUS_FORMAT");
        }
      } else {
        if !Header(line) {
          return Err("PACKAGE_STATUS_FORMAT");
        }
        var key := Key(line);
        if key in fields {
          return Err("PACKAGE_STATUS_DUPLICATE");
        }
        fields := fields[key := if IdentityField(key) then Some(Value(line)) else None];
        previous := Some(key);
      }
    }
    r := Finish(State(fields, previous, matches));
  }

  // ----- The machine meets the specification -----

  ghost predicate HasKey(stanza: Stanza, key: string) {
    exists i :: 0 <= i < |stanza| && !Continuation(stanza[i]) && Key(stanza[i]) == key
  }

  lemma HasKeyConcat(stanza: Stanza, line: string, key: string)
    ensures HasKey(stanza + [line], key) <==> HasKey(stanza, key) || (!Continuation(line) && Key(line) == key)
  {
    var more := stanza + [line];
    assert more[|stanza|] == line;
    if i :| 0 <= i < |stanza| && !Continuation(stanza[i]) && Key(stanza[i]) == key {
      assert more[i] == stanza[i];
    }
    if i :| 0 <= i < |more| && !Continuation(more[i]) && Key(more[i]) == key {
      assert i < |stanza| ==> more[i] == stanza[i];
    }
  }

  /** The state after the lines of a well-formed stanza in progress. */
  ghost predicate Reads(stanza: Stanza, fields: Fields, previous: Option<string>) {
    && WellFormed(stanza)
    && (forall key :: key in fields <==> HasKey(stanza, key))
    && (forall i :: 0 <= i < |stanza| && !Continuation(stanza[i]) ==>
                      Key(stanza[i]) in fields
                      && fields[Key(stanza[i])] == if IdentityField(Key(stanza[i])) then Some(Value(stanza[i])) else None)
    && previous == NearestKey(stanza)
  }

  lemma FieldsAreTrue(stanza: Stanza, fields: Fields, previous: Option<string>, key: string, value: string)
    requires Reads(stanza, fields, previous) && IdentityField(key)
    ensures Get(fields, key) == Some(value) <==> HasField(stanza, key, value)
  {
    if key in fields {
      var i :| 0 <= i < |stanza| && !Continuation(stanza[i]) && Key(stanza[i]) == key;
      assert LineOk(stanza, i);
    }
  }

  lemma {:induction false} StanzasNonEmpty(open: Stanza, lines: seq<string>)
    ensures StanzasFrom(open, lines) != [] && open <= StanzasFrom(open, lines)[0]
    decreases |lines|
  {
    if lines != [] && !Blank(lines[0]) {
      StanzasNonEmpty(open + [lines[0]], lines[1..]);
    }
  }

  lemma PrefixLineOk(a: Stanza, b: Stanza, i: nat)
    requires a <= b && i < |a|
    ensures LineOk(a, i) <==> LineOk(b, i)
  {
    assert a[..i] == b[..i] && a[i] == b[i];
  }

  /** A stanza that starts badly is not well formed. */
  lemma PrefixWellFormed(a: Stanza, b: Stanza)
    requires a <= b && WellFormed(b)
    ensures WellFormed(a)
  {
    forall i | 0 <= i < |a| ensures LineOk(a, i) {
      PrefixLineOk(a, b, i);
      assert LineOk(b, i);
    }
  }

  /** A line that is not blank extends the stanza in progress, or is rejected because nothing can. */
  lemma LineExtends(stanza: Stanza, s: State, line: string)
    requires Reads(stanza, s.fields, s.previous) && !Blank(line)
    ensures var next := Step(s, line);
            if next.Err? then !WellFormed(stanza + [line])
            else Reads(stanza + [line], next.value.fields, next.value.previous) && next.value.matches == s.matches
  {
    var more := stanza + [line];
    var n := |stanza|;
    assert line != "";
    forall i | 0 <= i < n ensures LineOk(more, i) {
      assert LineOk(stanza, i);
      PrefixLineOk(stanza, more, i);
    }
    if Continuation(line) {
      ContinuationExtends(stanza, s, line);
    } else {
      HeaderExtends(stanza, s, line);
    }
  }

  lemma ContinuationExtends(stanza: Stanza, s: State, line: string)
    requires Reads(stanza, s.fields, s.previous) && !Blank(line) && Continuation(line)
    requires forall i :: 0 <= i < |stanza| ==> LineOk(stanza + [line], i)
    ensures var next := Step(s, line);
            if next.Err? then !WellFormed(stanza + [line])
            else Reads(stanza + [line], next.value.fields, next.value.previous) && next.value.matches == s.matches
  {
    var more, n := stanza + [line], |stanza|;
    assert more[..n] == stanza && more[n] == line;
    assert LineOk(more, n) <==> Step(s, line).Ok?;
    if Step(s, line).Ok? {
      forall key ensures HasKey(more, key) <==> HasKey(stanza, key) {
        HasKeyConcat(stanza, line, key);
      }
      assert forall i :: 0 <= i < |more| && !Continuation(more[i]) ==> i < n && more[i] == stanza[i];
      assert NearestKey(more) == NearestKey(stanza);
    }
  }

  lemma HeaderExtends(stanza: Stanza, s: State, line: string)
    requires Reads(stanza, s.fields, s.previous) && !Blank(line) && !Continuation(line)
    requires forall i :: 0 <= i < |stanza| ==> LineOk(stanza + [line], i)
    ensures var next := Step(s, line);
            if next.Err? then !WellFormed(stanza + [line])
            else Reads(stanza + [line], next.value.fields, next.value.previous) && next.value.matches == s.matches
  {
    var more, n := stanza + [line], |stanza|;
    assert more[n] == line && forall i :: 0 <= i < n ==> more[i] == stanza[i];
    assert LineOk(more, n) <==> Header(line);
    if Header(line) {
      if Key(line) in s.fields {
        RepeatedKey(stanza, line);
      } else {
        NewKey(stanza, s, line);
      }
    }
  }

  lemma RepeatedKey(stanza: Stanza, line: string)
    requires !Continuation(line) && HasKey(stanza, Key(line))
    ensures !WellFormed(stanza + [line])
  {
    var more, n := stanza + [line], |stanza|;
    var i :| 0 <= i < n && !Continuation(stanza[i]) && Key(stanza[i]) == Key(line);
    assert more[n] == line && more[i] == stanza[i];
  }

  lemma NewKey(stanza: Stanza, s: State, line: string)
    requires Reads(stanza, s.fields, s.previous) && !Blank(line) && !Continuation(line) && Header(line) && Key(line) !in s.fields
    requires forall i :: 0 <= i < |stanza| ==> LineOk(stanza + [line], i)
    ensures Step(s, line).Ok? && Step(s, line).value.matches == s.matches
    ensures Reads(stanza + [line], Step(s, line).value.fields, Step(s, line).value.previous)
  {
    var more, n, key := stanza + [line], |stanza|, Key(line);
    var fields := Step(s, line).value.fields;
    assert more[n] == line && more[..n] == stanza && forall i :: 0 <= i < n ==> more[i] == stanza[i];
    assert LineOk(more, n);
    forall k ensures k in fields <==> HasKey(more, k) {
      HasKeyConcat(stanza, line, k);
    }
    NewKeyIsFirst(stanza, line);
    forall i | 0 <= i < |more| && !Continuation(more[i])
      ensures Key(more[i]) in fields && fields[Key(more[i])] == if IdentityField(Key(more[i])) then Some(Value(more[i])) else None
    {
      assert i < n ==> HasKey(stanza, Key(stanza[i]));
    }
    assert NearestKey(more) == Some(key);
  }

  /** A line whose name the stanza does not have keeps it free of repetitions. */
  lemma NewKeyIsFirst(stanza: Stanza, line: string)
    requires WellFormed(stanza) && !HasKey(stanza, Key(line))
    requires forall i :: 0 <= i < |stanza + [line]| ==> LineOk(stanza + [line], i)
    ensures WellFormed(stanza + [line])
  {
    var more, n := stanza + [line], |stanza|;
    assert more[n] == line && forall i :: 0 <= i < n ==> more[i] == stanza[i];
    assert forall i :: 0 <= i < n && !Continuation(stanza[i]) ==> HasKey(stanza, Key(stanza[i]));
  }

  /** How many stanzas of a list name the package. */
  ghost function Targets(stanzas: seq<Stanza>): nat {
    if stanzas == [] then 0 else (if IsTarget(stanzas[0]) then 1 else 0) + Targets(stanzas[1..])
  }

  /** The fields of the one target found so far come from a well-formed target stanza. */
  ghost predicate MatchedBy(fields: Fields, stanza: Stanza) {
    IsTarget(stanza) && exists previous :: Reads(stanza, fields, previous)
  }

  ghost predicate MatchedIn(fields: Fields, stanzas: seq<Stanza>) {
    exists n :: 0 <= n < |stanzas| && MatchedBy(fields, stanzas[n])
  }

  lemma MatchedLater(fields: Fields, first: Stanza, rest: seq<Stanza>)
    requires MatchedIn(fields, rest)
    ensures MatchedIn(fields, [first] + rest)
  {
    var n :| 0 <= n < |rest| && MatchedBy(fields, rest[n]);
    Shifted(first, rest, n);
    MatchedAt(fields, [first] + rest, n + 1, rest[n]);
  }

  lemma Shifted(first: Stanza, rest: seq<Stanza>, n: nat)
    requires n < |rest|
    ensures ([first] + rest)[n + 1] == rest[n]
  {
  }

  lemma MatchedAt(fields: Fields, stanzas: seq<Stanza>, n: nat, stanza: Stanza)
    requires n < |stanzas| && stanzas[n] == stanza && MatchedBy(fields, stanza)
    ensures MatchedIn(fields, stanzas)
  {
  }

  lemma BlankCloses(stanza: Stanza, s: State, line: string)
    requires Reads(stanza, s.fields, s.previous) && Blank(line)
    ensures var next := Step(s, line);
            if IsTarget(stanza) then
              if s.matches == [] then next == Ok(State(map[], None, [s.fields])) && MatchedBy(s.fields, stanza) else next.Err?
            else next == Ok(State(map[], None, s.matches))
  {
    FieldsAreTrue(stanza, s.fields, s.previous, "package", PACKAGE);
  }

  lemma NothingRead()
    ensures Reads([], map[], None)
  {
  }

  /**
   With the last line blank, the loop gets through exactly when every stanza is well
   formed and at most one names the package, counting the one already matched.
   */
  lemma {:induction false} LoopAccepts(stanza: Stanza, s: State, lines: seq<string>)
    requires Reads(stanza, s.fields, s.previous) && |s.matches| <= 1
    requires lines == [] ==> stanza == []
    requires lines != [] ==> Blank(lines[|lines| - 1])
    ensures var all := StanzasFrom(stanza, lines); var end := Steps(s, lines);
                                                   end.Ok? <==> AllWellFormed(all) && |s.matches| + Targets(all) <= 1
    ensures var all := StanzasFrom(stanza, lines); var end := Steps(s, lines);
                                                   end.Ok? && s.matches != [] ==> end.value.matches == s.matches && Targets(all) == 0
    ensures var all := StanzasFrom(stanza, lines); var end := Steps(s, lines);
                                                   end.Ok? && s.matches == [] ==>
                                                     |end.value.matches| == Targets(all)
                                                     && (Targets(all) == 1 ==> MatchedIn(end.value.matches[0], all))
    decreases |lines|
  {
    var all := StanzasFrom(stanza, lines);
    if lines == [] {
      assert all[1..] == [];
      assert !IsTarget([]);
    } else if Blank(lines[0]) {
      var rest := StanzasFrom([], lines[1..]);
      assert all[0] == stanza && all[1..] == rest;
      BlankCloses(stanza, s, lines[0]);
      NothingRead();
      AllSplits(stanza, rest);
      var next := Step(s, lines[0]);
      if next.Ok? {
        LoopAccepts([], next.value, lines[1..]);
        if Steps(s, lines).Ok? && s.matches == [] && Targets(all) == 1 {
          if IsTarget(stanza) {
            assert MatchedBy(s.fields, all[0]);
          } else {
            MatchedLater(Steps(s, lines).value.matches[0], stanza, rest);
          }
        }
      }
    } else {
      LineExtends(stanza, s, lines[0]);
      var next := Step(s, lines[0]);
      if next.Ok? {
        LoopAccepts(stanza + [lines[0]], next.value, lines[1..]);
      } else {
        StanzasNonEmpty(stanza + [lines[0]], lines[1..]);
        if AllWellFormed(all) {
          PrefixWellFormed(stanza + [lines[0]], all[0]);
        }
      }
    }
  }

  lemma AllSplits(stanza: Stanza, rest: seq<Stanza>)
    ensures AllWellFormed([stanza] + rest) <==> WellFormed(stanza) && AllWellFormed(rest)
  {
    var all := [stanza] + rest;
    assert all[0] == stanza && forall n :: 0 <= n < |rest| ==> rest[n] == all[n + 1];
  }

  lemma {:induction false} OneTarget(stanzas: seq<Stanza>, n: nat)
    requires n < |stanzas| && IsTarget(stanzas[n])
    ensures Targets(stanzas) >= 1
    ensures Targets(stanzas) == 1 <==> forall k :: 0 <= k < |stanzas| && k != n ==> !IsTarget(stanzas[k])
  {
    if n == 0 {
      NoTarget(stanzas[1..]);
      assert forall k :: 0 < k < |stanzas| ==> stanzas[k] == stanzas[1..][k - 1];
      assert forall k :: 0 <= k < |stanzas[1..]| ==> stanzas[1..][k] == stanzas[k + 1];
    } else {
      OneTarget(stanzas[1..], n - 1);
      assert forall k :: 0 < k < |stanzas| ==> stanzas[k] == stanzas[1..][k - 1];
      assert forall k :: 0 <= k < |stanzas[1..]| ==> stanzas[1..][k] == stanzas[k + 1];
    }
  }

  lemma {:induction false} NoTarget(stanzas: seq<Stanza>)
    ensures Targets(stanzas) == 0 <==> forall k :: 0 <= k < |stanzas| ==> !IsTarget(stanzas[k])
  {
    if stanzas != [] {
      NoTarget(stanzas[1..]);
      assert forall k :: 0 < k < |stanzas| ==> stanzas[k] == stanzas[1..][k - 1];
      assert forall k :: 0 <= k < |stanzas[1..]| ==> stanzas[1..][k] == stanzas[k + 1];
    }
  }

  /** The checks after the loop read the one target stanza, and nothing else. */
  lemma FinishReadsTarget(fields: Fields, stanza: Stanza, identity: Identity)
    requires MatchedBy(fields, stanza)
    ensures Finish(State(map[], None, [fields])) == Ok(identity) <==> Identifies(stanza, identity)
  {
    var previous :| Reads(stanza, fields, previous);
    FieldsAreTrue(stanza, fields, previous, "version", PACKAGE_VERSION);
    FieldsAreTrue(stanza, fields, previous, "architecture", ARCHITECTURE);
    FieldsAreTrue(stanza, fields, previous, "status", INSTALLED);
    FieldsAreTrue(stanza, fields, previous, "status", HELD);
    assert INSTALLED[0] != HELD[0];
  }

  lemma DescribedOnce(stanzas: seq<Stanza>, identity: Identity)
    requires Describes(stanzas, identity)
    ensures Targets(stanzas) == 1
  {
    var n :| Pinned(stanzas, n, identity);
    OneTarget(stanzas, n);
  }

  lemma FinishUsesMatches(s: State, fields: Fields)
    requires s.matches == [fields]
    ensures Finish(s) == Finish(State(map[], None, [fields]))
  {
  }

  lemma MatchDecides(stanzas: seq<Stanza>, s: State, identity: Identity)
    requires Targets(stanzas) == 1 && |s.matches| == 1 && MatchedIn(s.matches[0], stanzas)
    ensures Finish(s) == Ok(identity) <==> Describes(stanzas, identity)
  {
    var fields := s.matches[0];
    var n :| 0 <= n < |stanzas| && MatchedBy(fields, stanzas[n]);
    FinishUsesMatches(s, fields);
    OneTarget(stanzas, n);
    FinishReadsTarget(fields, stanzas[n], identity);
    if Identifies(stanzas[n], identity) {
      assert Pinned(stanzas, n, identity);
    }
    if k :| Pinned(stanzas, k, identity) {
      assert k == n;
    }
  }

  /** The parser accepts exactly the databases in which all stanzas are well formed and one describes the package. */
  lemma ParserMeetsSpecification(lines: seq<string>, identity: Identity)
    requires lines != [] && Blank(lines[|lines| - 1])
    ensures ParseLines(lines) == Ok(identity) <==> AllWellFormed(Stanzas(lines)) && Describes(Stanzas(lines), identity)
  {
    var all, end := Stanzas(lines), Steps(START, lines);
    NothingRead();
    LoopAccepts([], START, lines);
    if Describes(all, identity) {
      DescribedOnce(all, identity);
    }
    if end.Ok? && Targets(all) == 1 {
      MatchDecides(all, end.value, identity);
    }
  }

  predicate Visible(c: char) { c == '\t' || c == '\n' || (' ' <= c && c != 127 as char) }

  /** The text of the database: within bounds, decodable, of visible characters, blanks and line ends. */
  predicate Readable(raw: seq<byte>, decoded: Option<string>) {
    && 0 < |raw| <= MAX_STATUS && decoded.Some?
    && forall i :: 0 <= i < |UnixLines(decoded.value)| ==> Visible(UnixLines(decoded.value)[i])
  }

  /** `parse_package_status` as a whole. */
  lemma ParseMeetsSpecification(raw: seq<byte>, decoded: Option<string>, identity: Identity)
    ensures Parse(raw, decoded) == Ok(identity) <==>
            Readable(raw, decoded)
            && var stanzas := Stanzas(Split(UnixLines(decoded.value), '\n') + [""]);
            AllWellFormed(stanzas) && Describes(stanzas, identity)
  {
    if decoded.Some? {
      ParserMeetsSpecification(Split(UnixLines(decoded.value), '\n') + [""], identity);
    }
  }

  /** What a continuation line says never matters, not even for the diagnostic of a rejected database. */
  lemma {:induction false} ContinuationsIgnored(s: State, before: seq<string>, c: string, d: string, after: seq<string>)
    requires Continuation(c) && !Blank(c) && Continuation(d) && !Blank(d)
    ensures Steps(s, before + [c] + after) == Steps(s, before + [d] + after)
    decreases |before|
  {
    if before == [] {
      assert ([c] + after)[1..] == after == ([d] + after)[1..];
      assert before + [c] + after == [c] + after && before + [d] + after == [d] + after;
      assert Step(s, c) == Step(s, d);
    } else {
      assert (before + [c] + after)[1..] == before[1..] + [c] + after;
      assert (before + [d] + after)[1..] == before[1..] + [d] + after;
      var next := Step(s, before[0]);
      if next.Ok? {
        ContinuationsIgnored(next.value, before[1..], c, d, after);
      }
    }
  }
}
