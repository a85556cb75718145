/**
 The vendor tree of siem/rbac/broker_tls and the names of the files in it: which of them
 a manifest may list, and what parsing makes of a path below a directory.
 */
module VendorNames {
  import opened PosixPath
  import opened Texts

  const VENDOR := ["usr", "share", "wazuh-dashboard"]

  predicate ForbiddenChar(c: char) { c == '\\' || c == ':' || c as int <= 0x20 || c as int == 0x7f }

  /** The name of a dependency file: a normal relative path below `node_modules`. */
  predicate DependencyName(name: string) {
    var p := Parse(name);
    && "node_modules/" <= name && p.root == "" && Print(p) == name && ".." !in p.parts
    && forall i :: 0 <= i < |name| ==> !ForbiddenChar(name[i])
  }

  lemma HeadOfJoin(parts: seq<string>)
    requires |parts| > 1
    ensures Join(parts, '/') == parts[0] + ['/'] + Join(parts[1..], '/')
  {
  }

  /** Ordinary file names. */
  predicate PlainParts(pieces: seq<string>) {
    pieces != [] && forall i :: 0 <= i < |pieces| ==> Name(pieces[i]) && pieces[i] != ".."
  }

  predicate Plain(name: string) { PlainParts(Split(name, '/')) }

  lemma DependencyIsPlain(name: string)
    requires DependencyName(name)
    ensures Plain(name)
  {
    PrintedNames(name);
  }

  lemma JoinedIsPlain(pieces: seq<string>)
    requires PlainParts(pieces)
    ensures Plain(Join(pieces, '/'))
  {
    SplitJoin(pieces, '/');
  }

  /** A plain name below an absolute directory parses into the directory's parts and its own. */
  lemma ParsesBelow(top: seq<string>, name: string)
    requires |top| > 1 && top[0] == "" && PlainParts(top[1..]) && Plain(name)
    ensures Parse(Join(top, '/') + "/" + name) == Path("/", top[1..] + Split(name, '/'))
  {
    NamesBelow(top, name);
    RootBelow(top, name);
  }

  lemma JoinsBelow(top: seq<string>, name: string)
    requires |top| > 1 && top[0] == ""
    ensures "/" + Join(top[1..] + Split(name, '/'), '/') == Join(top, '/') + "/" + name
  {
    JoinSplit(name, '/');
    JoinConcat(top[1..], Split(name, '/'), '/');
    HeadOfJoin(top);
    Regroup(Join(top[1..], '/'), name);
  }

  lemma Regroup(a: string, b: string)
    ensures "/" + (a + ['/'] + b) == ("" + ['/'] + a) + "/" + b
  {
  }

  lemma NamesBelow(top: seq<string>, name: string)
    requires |top| > 1 && top[0] == "" && PlainParts(top[1..]) && Plain(name)
    ensures Names(Split(Join(top, '/') + "/" + name, '/')) == top[1..] + Split(name, '/')
  {
    assert forall i :: 0 < i < |top| ==> top[i] == top[1..][i - 1];
    SplitJoin(top, '/');
    SplitConcat(Join(top, '/'), '/', name);
    NamesConcat(top, Split(name, '/'));
    NamesKept(top[1..]);
    NamesKept(Split(name, '/'));
    assert Names(top) == Names(top[1..]);
  }

  lemma RootBelow(top: seq<string>, name: string)
    requires |top| > 1 && top[0] == "" && PlainParts(top[1..])
    ensures Root(Join(top, '/') + "/" + name) == "/"
  {
    HeadOfJoin(top);
    FirstChar(top[1..]);
    var path := Join(top, '/') + "/" + name;
    assert path[0] == '/' && path[1] == Join(top[1..], '/')[0];
  }

  lemma FirstChar(parts: seq<string>)
    requires PlainParts(parts)
    ensures Join(parts, '/') != "" && Join(parts, '/')[0] != '/'
  {
    assert parts[0][0] in parts[0];
  }

  // ----- Which names a dependency may have -----

  const MODULES := "node_modules"

  /** An ordinary file name without forbidden characters. */
  predicate SafePart(p: string) {
    p != "" && p != "." && p != ".." && forall i :: 0 <= i < |p| ==> !ForbiddenChar(p[i])
  }

  /** Parts of a name are made of visible characters without backslash and colon. */
  lemma SafePartExactly(p: string)
    ensures SafePart(p) <==> p !in ["", ".", ".."] && forall i :: 0 <= i < |p| ==> '!' <= p[i] && p[i] !in "\\:" && p[i] != 127 as char
  {
    assert forall c: char :: c in "\\:" <==> c == '\\' || c == ':';
    assert p in ["", ".", ".."] <==> p == "" || p == "." || p == "..";
  }

  lemma SafeChars(name: string)
    ensures (forall i :: 0 <= i < |name| ==> !ForbiddenChar(name[i])) <==>
            forall k :: 0 <= k < |Split(name, '/')| ==> forall i :: 0 <= i < |Split(name, '/')[k]| ==> !ForbiddenChar(Split(name, '/')[k][i])
  {
    var pieces := Split(name, '/');
    JoinSplit(name, '/');
    forall c: char | ForbiddenChar(c) ensures c in name <==> exists k :: 0 <= k < |pieces| && c in pieces[k] {
      JoinHas(pieces, '/', c);
    }
    forall k, i | 0 <= k < |pieces| && 0 <= i < |pieces[k]| ensures pieces[k][i] in pieces[k] {}
    forall i | 0 <= i < |name| ensures name[i] in name {}
  }

  /** Below `node_modules/`: the first piece is that directory, and others follow. */
  lemma BelowModules(name: string)
    ensures "node_modules/" <= name <==> |Split(name, '/')| >= 2 && Split(name, '/')[0] == MODULES
  {
    if "node_modules/" <= name {
      ModulesFirst(name, name[|MODULES| + 1..]);
    }
    var pieces := Split(name, '/');
    if |pieces| >= 2 && pieces[0] == MODULES {
      JoinSplit(name, '/');
      assert name == MODULES + ['/'] + Join(pieces[1..], '/');
    }
  }

  lemma ModulesFirst(name: string, rest: string)
    requires name == MODULES + ['/'] + rest
    ensures |Split(name, '/')| >= 2 && Split(name, '/')[0] == MODULES
  {
    ModulesIsOneName();
    FirstPiece(MODULES, rest);
  }

  lemma ModulesIsOneName()
    ensures '/' !in MODULES
  {
  }

  lemma FirstPiece(first: string, rest: string)
    requires '/' !in first
    ensures |Split(first + ['/'] + rest, '/')| >= 2 && Split(first + ['/'] + rest, '/')[0] == first
  {
    SplitConcat(first, '/', rest);
    SplitOne(first, '/');
  }

  /** A dependency is named exactly by two or more ordinary names, the first of them `node_modules`, joined by slashes. */
  lemma DependencyNameExactly(name: string)
    ensures DependencyName(name) <==>
            var pieces := Split(name, '/');
            |pieces| >= 2 && pieces[0] == MODULES && AllSafe(pieces)
  {
    if DependencyName(name) {
      DependencyIsSafe(name);
    }
    if |Split(name, '/')| >= 2 && Split(name, '/')[0] == MODULES && AllSafe(Split(name, '/')) {
      SafeIsDependency(name);
    }
  }

  predicate AllSafe(pieces: seq<string>) { forall k :: 0 <= k < |pieces| ==> SafePart(pieces[k]) }

  lemma DependencyIsSafe(name: string)
    requires DependencyName(name)
    ensures |Split(name, '/')| >= 2 && Split(name, '/')[0] == MODULES && AllSafe(Split(name, '/'))
  {
    BelowModules(name);
    SafeChars(name);
    PrintedNames(name);
  }

  lemma SafeIsDependency(name: string)
    requires |Split(name, '/')| >= 2 && Split(name, '/')[0] == MODULES && AllSafe(Split(name, '/'))
    ensures DependencyName(name)
  {
    BelowModules(name);
    SafeChars(name);
    SafeParses(name);
  }

  lemma SafeParses(name: string)
    requires "node_modules/" <= name && AllSafe(Split(name, '/'))
    ensures Parse(name) == Path("", Split(name, '/')) && Print(Parse(name)) == name
  {
    NamesKept(Split(name, '/'));
    JoinSplit(name, '/');
    StartsRelative(name);
    assert "" + name == name;
  }

  lemma StartsRelative(name: string)
    requires "node_modules/" <= name
    ensures Root(name) == ""
  {
    assert "node_modules/"[0] == 'n';
  }
}
