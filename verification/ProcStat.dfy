/**
 The parsers of siem/rbac/broker_tls/operator_process.py for /proc/<pid>/stat, status,
 cmdline and environ. A byte string is written as a text of the same length.
 */
module ProcStat {
  import opened Common
  import opened Texts

  const STAT_LIMIT := 8192
  const STATUS_LIMIT := 65536
  const CMDLINE_LIMIT := 128 * 1024
  const ENVIRON_LIMIT := 1024 * 1024
  const PROCESS_STAT := "PROCESS_STAT"
  const NUL: char := 0 as char

  // ----- Words -----

  /** The bytes at which `bytes.split()` cuts. */
  predicate Space(c: char) {
    c == ' ' || 9 <= c as int <= 13
  }

  function WordLength(s: string): (n: nat)
    ensures n <= |s| && forall i :: 0 <= i < n ==> !Space(s[i])
  {
    if s == "" || Space(s[0]) then 0 else 1 + WordLength(s[1..])
  }

  /** `s.split()` */
  function Words(s: string): seq<string>
    decreases |s|
  {
    if s == "" then []
    else if Space(s[0]) then Words(s[1..])
    else [s[..WordLength(s)]] + Words(s[WordLength(s)..])
  }

  predicate Word(w: string) {
    w != "" && forall i :: 0 <= i < |w| ==> !Space(w[i])
  }

  lemma {:induction false} WordLengthIs(w: string, rest: string)
    requires (forall i :: 0 <= i < |w| ==> !Space(w[i])) && (rest == "" || Space(rest[0]))
    ensures WordLength(w + rest) == |w|
  {
    if w == "" {
      assert w + rest == rest;
    } else {
      assert (w + rest)[1..] == w[1..] + rest;
      WordLengthIs(w[1..], rest);
    }
  }

  lemma {:induction false} SpacesHoldNoWord(s: string)
    requires forall i :: 0 <= i < |s| ==> Space(s[i])
    ensures Words(s) == []
  {
    if s != "" {
      SpacesHoldNoWord(s[1..]);
    }
  }

  /** Splitting gives back the words that were joined with a blank of any kind. */
  lemma {:induction false} WordsOfJoin(words: seq<string>, sep: char, end: string)
    requires Space(sep) && forall i :: 0 <= i < |words| ==> Word(words[i])
    requires forall i :: 0 <= i < |end| ==> Space(end[i])
    ensures Words(Join(words, sep) + end) == words
    decreases |words|
  {
    if words == [] {
      assert Join(words, sep) + end == end;
      SpacesHoldNoWord(end);
    } else {
      var first := words[0];
      var rest := if |words| == 1 then end else [sep] + (Join(words[1..], sep) + end);
      assert Join(words, sep) + end == first + rest;
      WordLengthIs(first, rest);
      assert (first + rest)[|first|..] == rest && (first + rest)[..|first|] == first;
      if |words| == 1 {
        SpacesHoldNoWord(end);
      } else {
        assert rest[1..] == Join(words[1..], sep) + end;
        WordsOfJoin(words[1..], sep, end);
      }
    }
  }

  // ----- stat -----

  /** `raw.rfind(b') ')` */
  function LastClose(s: string): (r: Option<nat>)
    ensures r.Some? ==> r.value + 2 <= |s|
  {
    if |s| < 2 then None
    else if s[|s| - 2] == ')' && s[|s| - 1] == ' ' then Some(|s| - 2)
    else LastClose(s[..|s| - 1])
  }

  /** `_start_time` */
  function StartTime(raw: string, pid: nat): Result<nat, string> {
    if !(0 < |raw| <= STAT_LIMIT && Decimal(pid) + " (" <= raw) then Err(PROCESS_STAT)
    else
      var end := LastClose(raw);
      var fields := if end.Some? then Words(raw[end.value + 2..]) else [];
      if !(|fields| >= 20 && fields[0] in ["R", "S", "D", "I"] && 1 <= |fields[19]| <= 20 && AllDigits(fields[19])) then
        Err(PROCESS_STAT)
      else
        var value := ParseDecimal(fields[19]);
        if 0 < value < 0x1_0000_0000_0000_0000 then Ok(value) else Err(PROCESS_STAT)
  }

  /** The fields from the state on, as the kernel prints them: letters and numbers. */
  predicate StatFields(fields: seq<string>) {
    |fields| >= 20 && forall i :: 0 <= i < |fields| ==> Word(fields[i]) && ')' !in fields[i]
  }

  /** The kernel's rendering: PID, the command name in parentheses, and the fields. */
  function StatLine(pid: nat, comm: string, fields: seq<string>, end: string): string {
    Decimal(pid) + " (" + comm + ") " + (Join(fields, ' ') + end)
  }

  lemma {:induction false} LastCloseIs(start: string, rest: string)
    requires ')' !in rest
    ensures LastClose(start + ") " + rest) == Some(|start|)
  {
    var s := start + ") " + rest;
    if rest != "" {
      assert s[..|s| - 1] == start + ") " + rest[..|rest| - 1];
      assert s[|s| - 2] == ' ' || s[|s| - 2] in rest;
      LastCloseIs(start, rest[..|rest| - 1]);
    }
  }

  function Power(k: nat): nat {
    if k == 0 then 1 else 10 * Power(k - 1)
  }

  lemma {:induction false} DecimalLength(n: nat, k: nat)
    requires k > 0 && n < Power(k)
    ensures |Decimal(n)| <= k
  {
    if n >= 10 {
      DecimalLength(n / 10, k - 1);
    }
  }

  /**
   Parsing inverts the rendering for every command name, parentheses, spaces and line
   ends included: it gives the start time exactly when the line is within the limit,
   the state is one of the accepted ones and the number is positive and below 2^64.
   */
  lemma StartTimeInverts(pid: nat, comm: string, fields: seq<string>, end: string, start: nat)
    requires StatFields(fields) && fields[19] == Decimal(start)
    requires forall i :: 0 <= i < |end| ==> Space(end[i])
    ensures var raw := StatLine(pid, comm, fields, end);
            StartTime(raw, pid) ==
            if |raw| <= STAT_LIMIT && fields[0] in ["R", "S", "D", "I"] && 0 < start < 0x1_0000_0000_0000_0000
            then Ok(start) else Err(PROCESS_STAT)
  {
    var raw, tail := StatLine(pid, comm, fields, end), Join(fields, ' ') + end;
    var head := Decimal(pid) + " (" + comm;
    assert raw == head + ") " + tail;
    JoinHas(fields, ' ', ')');
    LastCloseIs(head, tail);
    assert raw[|head| + 2..] == tail;
    WordsOfJoin(fields, ' ', end);
    ParseRendered(start);
    assert Decimal(pid) + " (" <= raw;
    if start < 0x1_0000_0000_0000_0000 {
      assert Power(20) == 100_000_000_000_000_000_000 by {
        assert Power(5) == 100_000;
        assert Power(10) == 100_000 * Power(5);
        assert Power(15) == 100_000 * Power(10);
        assert Power(20) == 100_000 * Power(15);
      }
      DecimalLength(start, 20);
    }
  }

  // ----- status -----

  /** The words that follow `name` on the lines that start with it. */
  function Rows(lines: seq<string>, name: string): seq<seq<string>> {
    if lines == [] then []
    else (if name <= lines[0] then [Words(lines[0][|name|..])] else []) + Rows(lines[1..], name)
  }

  /** `_credentials`: one `Uid:` and one `Gid:` line, each with four times the expected number. */
  predicate Credentials(raw: string, identity: (nat, nat)) {
    var lines, uid, gid := Split(raw, '\n'), Decimal(identity.0), Decimal(identity.1);
    && |raw| <= STATUS_LIMIT
    && Rows(lines, "Uid:") == [[uid, uid, uid, uid]]
    && Rows(lines, "Gid:") == [[gid, gid, gid, gid]]
  }

  /** How the kernel writes a line of numbers. */
  function NumberLine(name: string, numbers: seq<nat>): string {
    name + ("\t" + Join(Decimals(numbers), '\t'))
  }

  function Decimals(numbers: seq<nat>): (words: seq<string>)
    ensures |words| == |numbers| && forall i :: 0 <= i < |words| ==> words[i] == Decimal(numbers[i]) && Word(words[i])
  {
    seq(|numbers|, i requires 0 <= i < |numbers| => Decimal(numbers[i]))
  }

  lemma WordsOfNumbers(name: string, numbers: seq<nat>)
    ensures name <= NumberLine(name, numbers) && Words(NumberLine(name, numbers)[|name|..]) == Decimals(numbers)
  {
    var tail := "\t" + Join(Decimals(numbers), '\t');
    assert NumberLine(name, numbers)[|name|..] == tail && tail[1..] == Join(Decimals(numbers), '\t') + "";
    WordsOfJoin(Decimals(numbers), '\t', "");
  }

  /** No line starts with the name. */
  ghost predicate NoLine(lines: seq<string>, name: string) {
    forall i :: 0 <= i < |lines| ==> !(name <= lines[i])
  }

  lemma {:induction false} NoRows(lines: seq<string>, name: string)
    requires NoLine(lines, name)
    ensures Rows(lines, name) == []
  {
    if lines != [] {
      NoRows(lines[1..], name);
    }
  }

  lemma {:induction false} RowsConcat(a: seq<string>, b: seq<string>, name: string)
    ensures Rows(a + b, name) == Rows(a, name) + Rows(b, name)
  {
    if a == [] {
      assert a + b == b;
    } else {
      var first := if name <= a[0] then [Words(a[0][|name|..])] else [];
      assert (a + b)[1..] == a[1..] + b;
      RowsConcat(a[1..], b, name);
      assert first + (Rows(a[1..], name) + Rows(b, name)) == (first + Rows(a[1..], name)) + Rows(b, name);
    }
  }

  /** Where no other line starts with the name, the one that does gives the only row. */
  lemma OneRow(before: seq<string>, line: string, after: seq<string>, name: string)
    requires NoLine(before, name) && NoLine(after, name) && name <= line
    ensures Rows(before + [line] + after, name) == [Words(line[|name|..])]
  {
    NoRows(before, name);
    NoRows(after, name);
    RowsConcat(before + [line], after, name);
    RowsConcat(before, [line], name);
    assert [line][1..] == [];
  }

  lemma FourTimes(numbers: seq<nat>, n: nat)
    ensures Decimals(numbers) == [Decimal(n), Decimal(n), Decimal(n), Decimal(n)] <==> numbers == [n, n, n, n]
  {
    ParseRendered(n);
    forall i | 0 <= i < |numbers| ensures Decimal(numbers[i]) == Decimal(n) ==> numbers[i] == n {
      ParseRendered(numbers[i]);
    }
    if Decimals(numbers) == [Decimal(n), Decimal(n), Decimal(n), Decimal(n)] {
      assert |numbers| == 4;
      assert Decimals(numbers)[0] == Decimals(numbers)[1] == Decimals(numbers)[2] == Decimals(numbers)[3] == Decimal(n);
    }
  }

  /** Lines of a status text that are not about the credentials. */
  ghost predicate Others(lines: seq<string>) {
    NoLine(lines, "Uid:") && NoLine(lines, "Gid:") && forall i :: 0 <= i < |lines| ==> '\n' !in lines[i]
  }

  ghost function StatusLines(before: seq<string>, uids: seq<nat>, mid: seq<string>, gids: seq<nat>, after: seq<string>): seq<string> {
    before + [NumberLine("Uid:", uids)] + mid + [NumberLine("Gid:", gids)] + after
  }

  lemma StatusSplits(before: seq<string>, uids: seq<nat>, mid: seq<string>, gids: seq<nat>, after: seq<string>)
    requires Others(before) && Others(mid) && Others(after)
    ensures var lines := StatusLines(before, uids, mid, gids, after); Split(Join(lines, '\n'), '\n') == lines
  {
    NumbersOnOneLine("Uid:", uids);
    NumbersOnOneLine("Gid:", gids);
    SplitJoin(StatusLines(before, uids, mid, gids, after), '\n');
  }

  lemma StatusRows(before: seq<string>, uids: seq<nat>, mid: seq<string>, gids: seq<nat>, after: seq<string>)
    requires Others(before) && Others(mid) && Others(after)
    ensures var lines := StatusLines(before, uids, mid, gids, after);
            Rows(lines, "Uid:") == [Decimals(uids)] && Rows(lines, "Gid:") == [Decimals(gids)]
  {
    var uid, gid := NumberLine("Uid:", uids), NumberLine("Gid:", gids);
    var lines := StatusLines(before, uids, mid, gids, after);
    WordsOfNumbers("Uid:", uids);
    WordsOfNumbers("Gid:", gids);
    assert uid[0] == 'U' && gid[0] == 'G';
    assert lines == before + [uid] + (mid + [gid] + after) && lines == (before + [uid] + mid) + [gid] + after;
    OneRow(before, uid, mid + [gid] + after, "Uid:");
    OneRow(before + [uid] + mid, gid, after, "Gid:");
  }

  /**
   For a status text whose one Uid line and one Gid line the kernel wrote, among any other
   lines, the check passes exactly when all eight numbers are the expected ones and the
   text is within the limit.
   */
  lemma CredentialsExactly(before: seq<string>, uids: seq<nat>, mid: seq<string>, gids: seq<nat>, after: seq<string>, identity: (nat, nat))
    requires Others(before) && Others(mid) && Others(after)
    ensures var raw := Join(StatusLines(before, uids, mid, gids, after), '\n');
            Credentials(raw, identity) <==>
            |raw| <= STATUS_LIMIT && uids == [identity.0, identity.0, identity.0, identity.0]
            && gids == [identity.1, identity.1, identity.1, identity.1]
  {
    StatusSplits(before, uids, mid, gids, after);
    StatusRows(before, uids, mid, gids, after);
    FourTimes(uids, identity.0);
    FourTimes(gids, identity.1);
  }

  lemma NumbersOnOneLine(name: string, numbers: seq<nat>)
    requires '\n' !in name
    ensures '\n' !in NumberLine(name, numbers)
  {
    JoinHas(Decimals(numbers), '\t', '\n');
  }

  // ----- cmdline and environ -----

  predicate NameStart(c: char) { 'A' <= c <= 'Z' || 'a' <= c <= 'z' || c == '_' }

  /** `[A-Za-z_][A-Za-z0-9_]*` */
  predicate Name(s: string) {
    s != "" && NameStart(s[0]) && forall i :: 0 <= i < |s| ==> NameStart(s[i]) || IsDigit(s[i])
  }

  function Equals(entry: string): (n: nat)
    ensures n <= |entry| && (forall i :: 0 <= i < n ==> entry[i] != '=') && (n < |entry| ==> entry[n] == '=')
  {
    if entry == "" || entry[0] == '=' then 0 else 1 + Equals(entry[1..])
  }

  /** The name of an environment entry: what precedes its first `=`. */
  function NameOf(entry: string): string { entry[..Equals(entry)] }

  predicate Setting(entry: string) {
    Equals(entry) < |entry| && Name(NameOf(entry))
  }

  /** Entries that set variables, each variable once. */
  predicate Environment(entries: seq<string>) {
    && (forall i :: 0 <= i < |entries| ==> Setting(entries[i]))
    && (forall i, j :: 0 <= i < j < |entries| ==> NameOf(entries[i]) != NameOf(entries[j]))
  }

  /** `raw[:-1].split(b'\0')` of a text that ends with a NUL */
  function NulSplit(raw: string): Option<seq<string>> {
    if raw == "" || raw[|raw| - 1] != NUL then None else Some(Split(raw[..|raw| - 1], NUL))
  }

  /** `_nul_fields(raw)` */
  function Arguments(raw: string): Result<seq<string>, string> {
    var fields := NulSplit(raw);
    if |raw| > CMDLINE_LIMIT || fields.None? || fields.value[0] == "" then Err("PROCESS_CMDLINE") else Ok(fields.value)
  }

  /** The loop of `_nul_fields(raw, environment=True)` over the entries. */
  method CheckEntries(entries: seq<string>) returns (ok: bool)
    ensures ok <==> Environment(entries)
  {
    var names: set<string> := {};
    for i := 0 to |entries|
      invariant Environment(entries[..i])
      invariant forall n :: n in names <==> exists k :: 0 <= k < i && NameOf(entries[k]) == n
    {
      var name := NameOf(entries[i]);
      if Equals(entries[i]) == |entries[i]| || !Name(name) || name in names {
        return false;
      }
      names := names + {name};
      assert entries[..i + 1] == entries[..i] + [entries[i]];
    }
    assert entries[..|entries|] == entries;
    ok := true;
  }

  /** `_nul_fields(raw, environment=True)` */
  function EnvironmentOf(raw: string): Result<seq<string>, string> {
    if raw == "" then Ok([])
    else
      var entries := NulSplit(raw);
      if |raw| > ENVIRON_LIMIT || entries.None? || !Environment(entries.value) then Err("PROCESS_ENVIRONMENT")
      else Ok(entries.value)
  }

  /** What the kernel writes: every entry followed by a NUL. */
  function NulJoin(entries: seq<string>): string {
    Join(entries, NUL) + [NUL]
  }

  predicate NulFree(entries: seq<string>) {
    entries != [] && forall i :: 0 <= i < |entries| ==> NUL !in entries[i]
  }

  lemma NulSplitExactly(raw: string, entries: seq<string>)
    ensures NulSplit(raw) == Some(entries) <==> NulFree(entries) && raw == NulJoin(entries)
  {
    if NulSplit(raw) == Some(entries) {
      JoinSplit(raw[..|raw| - 1], NUL);
    }
    if NulFree(entries) && raw == NulJoin(entries) {
      assert raw[..|raw| - 1] == Join(entries, NUL);
      SplitJoin(entries, NUL);
    }
  }

  /** The arguments come back exactly from their NUL-terminated form, and from nothing else. */
  lemma ArgumentsExactly(raw: string, args: seq<string>)
    ensures Arguments(raw) == Ok(args) <==>
            NulFree(args) && raw == NulJoin(args) && args[0] != "" && |raw| <= CMDLINE_LIMIT
  {
    NulSplitExactly(raw, args);
  }

  /** The same for an environment, which may be empty and names no variable twice. */
  lemma EnvironmentExactly(raw: string, entries: seq<string>)
    ensures EnvironmentOf(raw) == Ok(entries) <==>
            (raw == "" && entries == [])
            || (NulFree(entries) && raw == NulJoin(entries) && Environment(entries) && |raw| <= ENVIRON_LIMIT)
  {
    NulSplitExactly(raw, entries);
  }
}
