/**
 siem/rbac/broker_tls/operator_core.py: the installed files that a pinned manifest
 names, and the reader of operator_fs.py that will open nothing else.
 */
module OperatorCore {
  import opened Common
  import opened PosixPath
  import opened Texts
  import opened VendorNames

  /** `/usr/share/wazuh-dashboard/` and the three pinned files below it, by their components. */
  const TOP: seq<string> := ["", "usr", "share", "wazuh-dashboard"]
  const CLIENT_PARTS: seq<string> := ["plugins", "wazuhCore", "server", "services", "server-api-client.js"]
  const NODE_PARTS: seq<string> := ["node", "bin", "node"]
  const HEADER_PARTS: seq<string> := ["node", "include", "node", "node_version.h"]
  const BASE := Join(TOP, '/') + "/"
  const CLIENT_NAME := Join(CLIENT_PARTS, '/')
  const NODE_NAME := Join(NODE_PARTS, '/')
  const HEADER_NAME := Join(HEADER_PARTS, '/')
  const CLIENT := BASE + CLIENT_NAME
  const NODE := BASE + NODE_NAME
  const HEADER := BASE + HEADER_NAME
  const ORIGINAL_FILE: string := "original.cjs"
  const CANDIDATE_FILE: string := "candidate.cjs"
  const MAX_MANIFEST := 512 * 1024
  const MAX_FILE := 2 * 1024 * 1024
  const MAX_TOTAL := 32 * 1024 * 1024
  const MAX_NODE := 100 * 1024 * 1024
  const MAX_HEADER := 65536

  /** The values that CONTRACT pins. */
  datatype Pins = Pins(package: string, original: string, candidate: string, policy: string, nodeVersion: string,
                       node: string, header: string, files: string)

  /** CONTRACT: the fields that a manifest must repeat. */
  function Contract(pins: Pins): map<string, string> {
    map["package_sha256" := pins.package, "original_sha256" := pins.original, "candidate_sha256" := pins.candidate,
        "policy_lf_sha256" := pins.policy, "packaged_node_version" := pins.nodeVersion,
        "packaged_linux_node_sha256" := pins.node, "packaged_node_header_sha256" := pins.header,
        "files_digest" := pins.files]
  }

  predicate MeetsContract(fields: map<string, string>, pins: Pins) {
    forall key :: key in Contract(pins) ==> key in fields && fields[key] == Contract(pins)[key]
  }

  predicate Repeats(fields: map<string, string>, key: string, value: string) { key in fields && fields[key] == value }

  /** A manifest meets the contract exactly when it repeats these eight values under these names. */
  lemma ContractExactly(fields: map<string, string>, pins: Pins)
    ensures MeetsContract(fields, pins) <==>
            && Repeats(fields, "package_sha256", pins.package)
            && Repeats(fields, "original_sha256", pins.original)
            && Repeats(fields, "candidate_sha256", pins.candidate)
            && Repeats(fields, "policy_lf_sha256", pins.policy)
            && Repeats(fields, "packaged_node_version", pins.nodeVersion)
            && Repeats(fields, "packaged_linux_node_sha256", pins.node)
            && Repeats(fields, "packaged_node_header_sha256", pins.header)
            && Repeats(fields, "files_digest", pins.files)
  {
    assert "candidate_sha256"[0] != "policy_lf_sha256"[0];
    var c := Contract(pins);
    assert c["package_sha256"] == pins.package && c["original_sha256"] == pins.original;
    assert c["candidate_sha256"] == pins.candidate && c["policy_lf_sha256"] == pins.policy;
    assert c["packaged_node_version"] == pins.nodeVersion && c["packaged_linux_node_sha256"] == pins.node;
    assert c["packaged_node_header_sha256"] == pins.header && c["files_digest"] == pins.files;
  }

  /** One entry of `files`: `size` and `digest` are `None` when they are not an int or a string. */
  datatype Entry = Entry(name: string, exactKeys: bool, size: Option<int>, digest: Option<string>)

  /**
   The manifest after JSON decoding: its members that are strings, the entries of `files`
   in their sorted order (`None` when it is not an object), and the SHA-256 of `files`
   printed again without spaces.
   */
  datatype Manifest =
    NotJson | DuplicateKey | NotObject | Object(fields: map<string, string>, files: Option<seq<Entry>>, filesDigest: string)

  datatype FileCheck = FileCheck(path: string, digest: string, limit: nat, size: Option<nat>)

  predicate Sized(e: Entry) {
    e.exactKeys && e.size.Some? && 0 <= e.size.value <= MAX_FILE && e.digest.Some? && HexDigest(e.digest.value)
  }

  datatype Progress = Progress(checks: seq<FileCheck>, total: nat)

  /** One iteration of the loop over the sorted entries. */
  function Step(s: Progress, e: Entry, pins: Pins): Result<Progress, string> {
    if !Sized(e) then Err("MANIFEST_ENTRY")
    else
      var size: nat, digest := e.size.value, e.digest.value;
      var total := s.total + size;
      if e.name == ORIGINAL_FILE then
        if digest == pins.original then Ok(Progress(s.checks, total)) else Err("MANIFEST_CLIENT")
      else if e.name == CANDIDATE_FILE then
        if digest == pins.candidate then Ok(Progress(s.checks + [FileCheck(CLIENT, digest, MAX_FILE, Some(size))], total))
        else Err("MANIFEST_CLIENT")
      else if !DependencyName(e.name) then Err("MANIFEST_PATH")
      else Ok(Progress(s.checks + [FileCheck(BASE + e.name, digest, MAX_FILE, Some(size))], total))
  }

  function Steps(s: Progress, entries: seq<Entry>, pins: Pins): Result<Progress, string>
    decreases |entries|
  {
    if entries == [] then Ok(s)
    else
      var next := Step(s, entries[0], pins);
      if next.Err? then next else Steps(next.value, entries[1..], pins)
  }

  predicate Lists(entries: seq<Entry>, name: string) {
    exists i :: 0 <= i < |entries| && entries[i].name == name
  }

  function Runtime(pins: Pins): seq<FileCheck> {
    [FileCheck(NODE, pins.node, MAX_NODE, None), FileCheck(HEADER, pins.header, MAX_HEADER, None)]
  }

  function Checks(length: nat, manifest: Manifest, pins: Pins): Result<seq<FileCheck>, string> {
    if !(0 < length <= MAX_MANIFEST) then Err("MANIFEST_SIZE")
    else
      match manifest
      case NotJson => Err("MANIFEST_JSON")
      case DuplicateKey => Err("MANIFEST_DUPLICATE_KEY")
      case NotObject => Err("MANIFEST_SHAPE")
      case Object(fields, files, filesDigest) =>
        if !MeetsContract(fields, pins) then Err("MANIFEST_CONTRACT")
        else if files.None? || !(2 <= |files.value| <= 4096) then Err("MANIFEST_FILES")
        else if filesDigest != pins.files then Err("MANIFEST_FILES_DIGEST")
        else
          var end := Steps(Progress([], 0), files.value, pins);
          if end.Err? then Err(end.error)
          else if !Lists(files.value, ORIGINAL_FILE) || !Lists(files.value, CANDIDATE_FILE) || end.value.total > MAX_TOTAL then
            Err("MANIFEST_FILES")
          else Ok(end.value.checks + Runtime(pins))
  }

  /** `installed_checks` */
  method InstalledChecks(length: nat, manifest: Manifest, pins: Pins) returns (r: Result<seq<FileCheck>, string>)
    ensures r == Checks(length, manifest, pins)
  {
    if !(0 < length <= MAX_MANIFEST) {
      return Err("MANIFEST_SIZE");
    }
    match manifest {
      case NotJson => return Err("MANIFEST_JSON");
      case DuplicateKey => return Err("MANIFEST_DUPLICATE_KEY");
      case NotObject => return Err("MANIFEST_SHAPE");
      case Object(fields, files, filesDigest) =>
        if !MeetsContract(fields, pins) {
          return Err("MANIFEST_CONTRACT");
        }
        if files.None? || !(2 <= |files.value| <= 4096) {
          return Err("MANIFEST_FILES");
        }
        if filesDigest != pins.files {
          return Err("MANIFEST_FILES_DIGEST");
        }
        var entries := files.value;
        var checks: seq<FileCheck>, total: nat := [], 0;
        for n := 0 to |entries|
          invariant Steps(Progress([], 0), entries, pins) == Steps(Progress(checks, total), entries[n..], pins)
        {
          assert entries[n..][1..] == entries[n + 1..];
          var next := Step(Progress(checks, total), entries[n], pins);
          if next.Err? {
            return Err(next.error);
          }
          checks, total := next.value.checks, next.value.total;
        }
        if !Lists(entries, ORIGINAL_FILE) || !Lists(entries, CANDIDATE_FILE) || total > MAX_TOTAL {
          return Err("MANIFEST_FILES");
        }
        return Ok(checks + Runtime(pins));
    }
  }

  // ----- What an accepted manifest yields -----

  /** The keys of a JSON object are distinct. */
  ghost predicate Distinct(entries: seq<Entry>) {
    forall i, j :: 0 <= i < j < |entries| ==> entries[i].name != entries[j].name
  }

  /** The name below the vendor tree that an entry installs, if it installs one. */
  function Installed(name: string): Option<string> {
    if name == ORIGINAL_FILE then None else if name == CANDIDATE_FILE then Some(CLIENT_NAME) else Some(name)
  }

  /** The names that one entry adds. */
  function Adds(e: Entry): seq<string> {
    var name := Installed(e.name);
    if name.None? then [] else [name.value]
  }

  function InstalledNames(entries: seq<Entry>): seq<string> {
    if entries == [] then [] else Adds(entries[0]) + InstalledNames(entries[1..])
  }

  predicate Accepted(e: Entry) {
    e.name == ORIGINAL_FILE || e.name == CANDIDATE_FILE || DependencyName(e.name)
  }

  ghost predicate AllAccepted(entries: seq<Entry>) {
    forall i :: 0 <= i < |entries| ==> Accepted(entries[i])
  }

  /** The paths of a list of checks lie at `BASE` followed by these names. */
  ghost predicate At(checks: seq<FileCheck>, names: seq<string>) {
    |checks| == |names| && forall i :: 0 <= i < |checks| ==> checks[i].path == BASE + names[i]
  }

  lemma StepInstalls(s: Progress, e: Entry, pins: Pins, names: seq<string>)
    requires At(s.checks, names) && Step(s, e, pins).Ok?
    ensures At(Step(s, e, pins).value.checks, names + Adds(e))
  {
  }

  lemma {:induction false} StepsAccept(s: Progress, entries: seq<Entry>, pins: Pins)
    requires Steps(s, entries, pins).Ok?
    ensures AllAccepted(entries)
    decreases |entries|
  {
    if entries != [] {
      StepsAccept(Step(s, entries[0], pins).value, entries[1..], pins);
      assert forall i :: 0 < i < |entries| ==> entries[i] == entries[1..][i - 1];
    }
  }

  lemma Associative(a: seq<string>, b: seq<string>, c: seq<string>)
    ensures (a + b) + c == a + (b + c)
  {
  }

  lemma {:induction false} StepsInstall(s: Progress, entries: seq<Entry>, pins: Pins, names: seq<string>)
    requires At(s.checks, names) && Steps(s, entries, pins).Ok?
    ensures At(Steps(s, entries, pins).value.checks, names + InstalledNames(entries))
    decreases |entries|
  {
    if entries == [] {
      assert names + [] == names;
    } else {
      StepInstalls(s, entries[0], pins, names);
      var more := names + Adds(entries[0]);
      StepsInstall(Step(s, entries[0], pins).value, entries[1..], pins, more);
      Associative(names, Adds(entries[0]), InstalledNames(entries[1..]));
    }
  }

  /** Some entry installs the name. */
  ghost predicate From(entries: seq<Entry>, name: string) {
    exists k :: 0 <= k < |entries| && Installed(entries[k].name) == Some(name)
  }

  lemma {:induction false} InstalledFrom(entries: seq<Entry>, i: nat)
    requires i < |InstalledNames(entries)|
    ensures From(entries, InstalledNames(entries)[i])
  {
    var first := |Adds(entries[0])|;
    if i < first {
      assert Installed(entries[0].name) == Some(InstalledNames(entries)[i]);
    } else {
      InstalledFrom(entries[1..], i - first);
      var k :| 0 <= k < |entries[1..]| && Installed(entries[1..][k].name) == Some(InstalledNames(entries)[i]);
      assert Installed(entries[k + 1].name) == Some(InstalledNames(entries)[i]);
    }
  }

  /** Every entry but the original client installs a name. */
  lemma {:induction false} InstalledCount(entries: seq<Entry>)
    requires Distinct(entries)
    ensures |InstalledNames(entries)| == |entries| - (if Lists(entries, ORIGINAL_FILE) then 1 else 0)
  {
    if entries != [] {
      InstalledCount(entries[1..]);
      ListsSplit(entries, ORIGINAL_FILE);
    }
  }

  lemma RestDistinct(entries: seq<Entry>)
    requires entries != [] && Distinct(entries) && AllAccepted(entries)
    ensures Distinct(entries[1..]) && AllAccepted(entries[1..])
  {
  }

  /** No later entry installs what the first one does. */
  lemma FirstIsDistinct(entries: seq<Entry>, name: string)
    requires entries != [] && Distinct(entries) && AllAccepted(entries) && From(entries[1..], name)
    ensures Installed(entries[0].name) != Some(name)
  {
    var k :| 0 <= k < |entries[1..]| && Installed(entries[1..][k].name) == Some(name);
    assert entries[1..][k] == entries[k + 1];
    InstalledInjective(entries[0], entries[k + 1]);
  }

  /** Distinct accepted entries install distinct names. */
  lemma {:induction false} InstalledDistinct(entries: seq<Entry>, i: nat, j: nat)
    requires Distinct(entries) && AllAccepted(entries)
    requires i < j < |InstalledNames(entries)|
    ensures InstalledNames(entries)[i] != InstalledNames(entries)[j]
  {
    var first := |Adds(entries[0])|;
    RestDistinct(entries);
    if i < first {
      InstalledFrom(entries[1..], j - first);
      FirstIsDistinct(entries, InstalledNames(entries[1..])[j - first]);
    } else {
      InstalledDistinct(entries[1..], i - first, j - first);
    }
  }

  lemma ListsSplit(entries: seq<Entry>, name: string)
    requires entries != [] && Distinct(entries)
    ensures Lists(entries, name) <==> entries[0].name == name || Lists(entries[1..], name)
    ensures entries[0].name == name ==> !Lists(entries[1..], name)
  {
    if i :| 0 <= i < |entries| && entries[i].name == name && i > 0 {
      assert entries[1..][i - 1].name == name;
    }
    if i :| 0 <= i < |entries[1..]| && entries[1..][i].name == name {
      assert entries[i + 1].name == name;
    }
  }

  lemma InstalledInjective(a: Entry, b: Entry)
    requires Accepted(a) && Accepted(b) && a.name != b.name
    ensures Installed(a.name).Some? && Installed(b.name).Some? ==> Installed(a.name) != Installed(b.name)
  {
    DependencyIsNotPinned(a.name);
    DependencyIsNotPinned(b.name);
  }

  /** The pinned names differ from one another and from every dependency's name. */
  lemma PinnedNamesDiffer()
    ensures NODE_NAME != HEADER_NAME && CLIENT_NAME != NODE_NAME && CLIENT_NAME != HEADER_NAME
    ensures !("node_modules/" <= CLIENT_NAME) && !("node_modules/" <= NODE_NAME) && !("node_modules/" <= HEADER_NAME)
  {
    HeadOfJoin(CLIENT_PARTS);
    HeadOfJoin(NODE_PARTS);
    HeadOfJoin(HEADER_PARTS);
    HeadOfJoin(NODE_PARTS[1..]);
    HeadOfJoin(HEADER_PARTS[1..]);
    assert CLIENT_NAME[0] == 'p' && NODE_NAME[0] == HEADER_NAME[0] == 'n';
    assert NODE_NAME[4] == HEADER_NAME[4] == '/';
    assert NODE_NAME[5] == 'b' && HEADER_NAME[5] == 'i';
  }

  lemma DependencyIsNotPinned(name: string)
    ensures DependencyName(name) ==> name != CLIENT_NAME && name != NODE_NAME && name != HEADER_NAME
  {
    PinnedNamesDiffer();
  }

  lemma ClientIsPlain()
    ensures Plain(CLIENT_NAME)
  {
    JoinedIsPlain(CLIENT_PARTS);
  }

  lemma NodeIsPlain()
    ensures Plain(NODE_NAME)
  {
    JoinedIsPlain(NODE_PARTS);
  }

  lemma HeaderIsPlain()
    ensures Plain(HEADER_NAME)
  {
    JoinedIsPlain(HEADER_PARTS);
  }

  lemma PinnedArePlain()
    ensures Plain(CLIENT_NAME) && Plain(NODE_NAME) && Plain(HEADER_NAME)
  {
    ClientIsPlain();
    NodeIsPlain();
    HeaderIsPlain();
  }

  ghost predicate DistinctPaths(checks: seq<FileCheck>) {
    forall i, j :: 0 <= i < j < |checks| ==> checks[i].path != checks[j].path
  }

  /** An absolute path that parsing takes apart below the vendor tree and joining puts together again. */
  ghost predicate InVendorTree(path: string) {
    var p := Parse(path);
    && p.root == "/" && VENDOR <= p.parts && |VENDOR| < |p.parts| && ".." !in p.parts
    && "/" + Join(p.parts, '/') == path
  }

  lemma PlainInVendorTree(name: string)
    requires Plain(name)
    ensures InVendorTree(BASE + name)
  {
    assert TOP[1..] == VENDOR && PlainParts(TOP[1..]);
    ParsesBelow(TOP, name);
    JoinsBelow(TOP, name);
  }

  /** The checks of an accepted manifest lie at the installed names and the runtime files'. */
  lemma ChecksAt(length: nat, manifest: Manifest, pins: Pins)
    requires Checks(length, manifest, pins).Ok?
    ensures var entries := manifest.files.value;
            && At(Checks(length, manifest, pins).value, InstalledNames(entries) + [NODE_NAME, HEADER_NAME])
            && AllAccepted(entries) && Lists(entries, ORIGINAL_FILE)
  {
    var entries := manifest.files.value;
    StepsAccept(Progress([], 0), entries, pins);
    StepsInstall(Progress([], 0), entries, pins, []);
    assert [] + InstalledNames(entries) == InstalledNames(entries);
  }

  /**
   An accepted manifest with n files yields n + 1 checks with distinct paths, all of
   them inside the vendor tree.
   */
  lemma AcceptedManifest(length: nat, manifest: Manifest, pins: Pins)
    requires Checks(length, manifest, pins).Ok? && manifest.Object? && manifest.files.Some? && Distinct(manifest.files.value)
    ensures var checks := Checks(length, manifest, pins).value;
            && |checks| == |manifest.files.value| + 1
            && DistinctPaths(checks)
            && (forall i :: 0 <= i < |checks| ==> InVendorTree(checks[i].path))
  {
    var entries, checks := manifest.files.value, Checks(length, manifest, pins).value;
    var all := InstalledNames(entries) + [NODE_NAME, HEADER_NAME];
    ChecksAt(length, manifest, pins);
    InstalledCount(entries);
    InstalledNamesDiffer(entries);
    AllOrdinary(entries);
    AppendPinned(InstalledNames(entries));
    PathsDiffer(checks, all);
    PathsInVendorTree(checks, all);
  }

  lemma PathsDiffer(checks: seq<FileCheck>, names: seq<string>)
    requires At(checks, names) && PlainNames(names)
    ensures DistinctPaths(checks)
  {
    forall i, j | 0 <= i < j < |checks| ensures checks[i].path != checks[j].path {
      SameSuffix(BASE, names[i], names[j]);
    }
  }

  lemma PathsInVendorTree(checks: seq<FileCheck>, names: seq<string>)
    requires At(checks, names) && PlainNames(names)
    ensures forall i :: 0 <= i < |checks| ==> InVendorTree(checks[i].path)
  {
    forall i | 0 <= i < |checks| ensures InVendorTree(checks[i].path) {
      PlainInVendorTree(names[i]);
    }
  }

  // ----- Which manifests are accepted -----

  /** An entry that the loop accepts: sized, and either a pinned client or a dependency file. */
  predicate GoodEntry(e: Entry, pins: Pins) {
    && Sized(e) && Accepted(e)
    && (e.name == ORIGINAL_FILE ==> e.digest.value == pins.original)
    && (e.name == CANDIDATE_FILE ==> e.digest.value == pins.candidate)
  }

  predicate AllGood(entries: seq<Entry>, pins: Pins) {
    forall i :: 0 <= i < |entries| ==> GoodEntry(entries[i], pins)
  }

  function TotalSize(entries: seq<Entry>): int {
    if entries == [] then 0 else (if entries[0].size.Some? then entries[0].size.value else 0) + TotalSize(entries[1..])
  }

  lemma NoDependencyIsClient()
    ensures !DependencyName(ORIGINAL_FILE) && !DependencyName(CANDIDATE_FILE) && ORIGINAL_FILE != CANDIDATE_FILE
  {
    assert ORIGINAL_FILE[0] == 'o' && CANDIDATE_FILE[0] == 'c' && "node_modules/"[0] == 'n';
  }

  lemma StepExactly(s: Progress, e: Entry, pins: Pins)
    ensures Step(s, e, pins).Ok? <==> GoodEntry(e, pins)
    ensures Step(s, e, pins).Ok? ==> Step(s, e, pins).value.total == s.total + e.size.value
  {
    NoDependencyIsClient();
  }

  lemma AllGoodSplit(entries: seq<Entry>, pins: Pins)
    requires entries != []
    ensures AllGood(entries, pins) <==> GoodEntry(entries[0], pins) && AllGood(entries[1..], pins)
  {
    assert forall i :: 0 < i < |entries| ==> entries[i] == entries[1..][i - 1];
  }

  lemma {:induction false} StepsExactly(s: Progress, entries: seq<Entry>, pins: Pins)
    ensures Steps(s, entries, pins).Ok? <==> AllGood(entries, pins)
    ensures Steps(s, entries, pins).Ok? ==> Steps(s, entries, pins).value.total == s.total + TotalSize(entries)
    decreases |entries|
  {
    if entries != [] {
      AllGoodSplit(entries, pins);
      StepExactly(s, entries[0], pins);
      if Step(s, entries[0], pins).Ok? {
        StepsExactly(Step(s, entries[0], pins).value, entries[1..], pins);
      }
    }
  }

  /** A manifest is accepted exactly when it is in bounds, repeats the contract, and lists both clients and otherwise only good entries. */
  lemma AcceptedExactly(length: nat, manifest: Manifest, pins: Pins)
    ensures Checks(length, manifest, pins).Ok? <==>
            && 0 < length <= MAX_MANIFEST && manifest.Object? && MeetsContract(manifest.fields, pins)
            && manifest.files.Some? && manifest.filesDigest == pins.files
            && var entries := manifest.files.value;
            && 2 <= |entries| <= 4096 && AllGood(entries, pins) && TotalSize(entries) <= MAX_TOTAL
            && Lists(entries, ORIGINAL_FILE) && Lists(entries, CANDIDATE_FILE)
  {
    if manifest.Object? && manifest.files.Some? {
      StepsExactly(Progress([], 0), manifest.files.value, pins);
    }
  }

  /** What one entry has installed: the candidate at the client's path, a dependency at its own, the original nowhere. */
  predicate Installs(e: Entry, c: FileCheck) {
    && e.name != ORIGINAL_FILE && e.digest == Some(c.digest) && c.limit == MAX_FILE
    && e.size.Some? && c.size.Some? && c.size.value == e.size.value
    && c.path == Target(e.name)
  }

  ghost predicate SomeInstalls(entries: seq<Entry>, c: FileCheck) {
    exists i :: 0 <= i < |entries| && Installs(entries[i], c)
  }

  /** Where an entry's file is installed. */
  function Target(name: string): string { if name == CANDIDATE_FILE then CLIENT else BASE + name }

  lemma AppendHas(checks: seq<FileCheck>, last: FileCheck, c: FileCheck)
    ensures c in checks + [last] <==> c in checks || c == last
  {
    assert (checks + [last])[|checks|] == last;
  }

  lemma StepAppends(s: Progress, e: Entry, pins: Pins)
    requires Step(s, e, pins).Ok?
    ensures e.size.Some? && e.size.value >= 0 && e.digest.Some?
    ensures Step(s, e, pins).value.checks ==
            if e.name == ORIGINAL_FILE then s.checks
            else s.checks + [FileCheck(Target(e.name), e.digest.value, MAX_FILE, Some(e.size.value))]
  {
  }

  lemma StepAdds(s: Progress, e: Entry, pins: Pins, c: FileCheck)
    requires Step(s, e, pins).Ok?
    ensures c in Step(s, e, pins).value.checks <==> c in s.checks || Installs(e, c)
  {
    StepAppends(s, e, pins);
    if e.name != ORIGINAL_FILE {
      AppendHas(s.checks, FileCheck(Target(e.name), e.digest.value, MAX_FILE, Some(e.size.value)), c);
    }
  }

  lemma SomeInstallsSplits(entries: seq<Entry>, c: FileCheck)
    requires entries != []
    ensures SomeInstalls(entries, c) <==> Installs(entries[0], c) || SomeInstalls(entries[1..], c)
  {
    if i :| 0 <= i < |entries[1..]| && Installs(entries[1..][i], c) {
      assert Installs(entries[i + 1], c);
    }
    if i :| 0 < i < |entries| && Installs(entries[i], c) {
      assert Installs(entries[1..][i - 1], c);
    }
  }

  lemma {:induction false} StepsAdd(s: Progress, entries: seq<Entry>, pins: Pins, c: FileCheck)
    requires Steps(s, entries, pins).Ok?
    ensures c in Steps(s, entries, pins).value.checks <==> c in s.checks || SomeInstalls(entries, c)
    decreases |entries|
  {
    if entries != [] {
      StepAdds(s, entries[0], pins, c);
      SomeInstallsSplits(entries, c);
      StepsAdd(Step(s, entries[0], pins).value, entries[1..], pins, c);
    }
  }

  /** The checks that a manifest calls for: of its own entries, and of the two runtime files. */
  ghost predicate CalledFor(entries: seq<Entry>, pins: Pins, c: FileCheck) {
    || SomeInstalls(entries, c)
    || c == FileCheck(NODE, pins.node, MAX_NODE, None)
    || c == FileCheck(HEADER, pins.header, MAX_HEADER, None)
  }

  /** An accepted manifest yields exactly the checks that it calls for, each with its entry's own digest and size. */
  lemma ChecksAreCalledFor(length: nat, manifest: Manifest, pins: Pins, c: FileCheck)
    requires Checks(length, manifest, pins).Ok?
    ensures c in Checks(length, manifest, pins).value <==> CalledFor(manifest.files.value, pins, c)
  {
    var listed := Steps(Progress([], 0), manifest.files.value, pins).value.checks;
    StepsAdd(Progress([], 0), manifest.files.value, pins, c);
    assert c in listed + Runtime(pins) <==> c in listed || c in Runtime(pins);
  }

  /** The check of a dependency file. */
  lemma DependencyCheck(length: nat, manifest: Manifest, pins: Pins, i: nat) returns (c: FileCheck)
    requires Checks(length, manifest, pins).Ok? && i < |manifest.files.value|
    requires var name := manifest.files.value[i].name; name != ORIGINAL_FILE && name != CANDIDATE_FILE
    ensures var e := manifest.files.value[i];
            && e.digest.Some? && c.path == BASE + e.name && c.digest == e.digest.value && c.limit == MAX_FILE
            && c.size.Some? && e.size == Some(c.size.value) && c in Checks(length, manifest, pins).value
  {
    var e := manifest.files.value[i];
    ListedIsGood(length, manifest, pins);
    c := FileCheck(BASE + e.name, e.digest.value, MAX_FILE, Some(e.size.value));
    assert Installs(e, c);
    ChecksAreCalledFor(length, manifest, pins, c);
  }

  /** Of an accepted manifest exactly one check is at a dependency's path, with the dependency's own digest and size. */
  lemma DependencyCheckedOnce(length: nat, manifest: Manifest, pins: Pins, i: nat) returns (k: nat)
    requires Checks(length, manifest, pins).Ok? && Distinct(manifest.files.value) && i < |manifest.files.value|
    requires var name := manifest.files.value[i].name; name != ORIGINAL_FILE && name != CANDIDATE_FILE
    ensures var e, checks := manifest.files.value[i], Checks(length, manifest, pins).value;
            && e.digest.Some? && e.size.Some? && k < |checks| && checks[k].path == BASE + e.name && checks[k].limit == MAX_FILE
            && checks[k].digest == e.digest.value && checks[k].size.Some? && checks[k].size.value == e.size.value
            && forall j :: 0 <= j < |checks| && checks[j].path == BASE + e.name ==> j == k
  {
    var checks := Checks(length, manifest, pins).value;
    var c := DependencyCheck(length, manifest, pins, i);
    k :| 0 <= k < |checks| && checks[k] == c;
    AcceptedManifest(length, manifest, pins);
    OnePerPath(checks, k);
  }

  /** Of an accepted manifest exactly one check is of the client, and it demands the candidate, never the original. */
  lemma ClientIsCandidate(length: nat, manifest: Manifest, pins: Pins) returns (i: nat)
    requires Checks(length, manifest, pins).Ok? && manifest.Object? && manifest.files.Some? && Distinct(manifest.files.value)
    ensures var checks := Checks(length, manifest, pins).value;
            && i < |checks| && checks[i].path == CLIENT && checks[i].digest == pins.candidate
            && forall j :: 0 <= j < |checks| && checks[j].path == CLIENT ==> j == i
  {
    i := ClientListed(length, manifest, pins);
    AcceptedManifest(length, manifest, pins);
    OnePerPath(Checks(length, manifest, pins).value, i);
  }

  lemma ClientListed(length: nat, manifest: Manifest, pins: Pins) returns (i: nat)
    requires Checks(length, manifest, pins).Ok?
    ensures var checks := Checks(length, manifest, pins).value;
            i < |checks| && checks[i].path == CLIENT && checks[i].digest == pins.candidate
  {
    var checks := Checks(length, manifest, pins).value;
    var c := CandidateCheck(length, manifest, pins);
    ChecksAreCalledFor(length, manifest, pins, c);
    i :| 0 <= i < |checks| && checks[i] == c;
  }

  lemma OnePerPath(checks: seq<FileCheck>, i: nat)
    requires DistinctPaths(checks) && i < |checks|
    ensures forall j :: 0 <= j < |checks| && checks[j].path == checks[i].path ==> j == i
  {
  }

  lemma ListedIsGood(length: nat, manifest: Manifest, pins: Pins)
    requires Checks(length, manifest, pins).Ok?
    ensures AllGood(manifest.files.value, pins) && Lists(manifest.files.value, CANDIDATE_FILE)
  {
    AcceptedExactly(length, manifest, pins);
  }

  lemma CandidateCheck(length: nat, manifest: Manifest, pins: Pins) returns (c: FileCheck)
    requires Checks(length, manifest, pins).Ok?
    ensures c.path == CLIENT && c.digest == pins.candidate && SomeInstalls(manifest.files.value, c)
  {
    ListedIsGood(length, manifest, pins);
    var entries := manifest.files.value;
    var k :| 0 <= k < |entries| && entries[k].name == CANDIDATE_FILE;
    c := CandidateInstalls(entries[k], pins);
  }

  lemma CandidateInstalls(e: Entry, pins: Pins) returns (c: FileCheck)
    requires GoodEntry(e, pins) && e.name == CANDIDATE_FILE
    ensures c.path == CLIENT && c.digest == pins.candidate && Installs(e, c)
  {
    ClientNamesDiffer();
    c := FileCheck(CLIENT, pins.candidate, MAX_FILE, Some(e.size.value));
  }

  lemma ClientNamesDiffer()
    ensures ORIGINAL_FILE != CANDIDATE_FILE
  {
    assert ORIGINAL_FILE[0] == 'o' && CANDIDATE_FILE[0] == 'c';
  }

  /** Plain names without repetition. */
  ghost predicate PlainNames(names: seq<string>) {
    (forall i :: 0 <= i < |names| ==> Plain(names[i])) && NoRepeats(names)
  }

  ghost predicate OrdinaryNames(names: seq<string>) {
    (forall i :: 0 <= i < |names| ==> Ordinary(names[i])) && NoRepeats(names)
  }

  lemma InstalledNamesDiffer(entries: seq<Entry>)
    requires Distinct(entries) && AllAccepted(entries)
    ensures NoRepeats(InstalledNames(entries))
  {
    forall i, j | 0 <= i < j < |InstalledNames(entries)| ensures InstalledNames(entries)[i] != InstalledNames(entries)[j] {
      InstalledDistinct(entries, i, j);
    }
  }

  lemma AllOrdinary(entries: seq<Entry>)
    requires AllAccepted(entries)
    ensures forall i :: 0 <= i < |InstalledNames(entries)| ==> Ordinary(InstalledNames(entries)[i])
  {
    forall i | 0 <= i < |InstalledNames(entries)| ensures Ordinary(InstalledNames(entries)[i]) {
      InstalledIsOrdinary(entries, i);
    }
  }

  lemma AppendPinned(names: seq<string>)
    requires OrdinaryNames(names)
    ensures PlainNames(names + [NODE_NAME, HEADER_NAME])
  {
    PinnedArePlain();
    PinnedNamesDiffer();
    AppendRuntime(names, NODE_NAME, HEADER_NAME);
  }

  /** A plain name that is not a runtime file's. */
  predicate Ordinary(name: string) { Plain(name) && name != NODE_NAME && name != HEADER_NAME }

  lemma AddedIsOrdinary(e: Entry)
    requires Accepted(e)
    ensures Installed(e.name).Some? ==> Ordinary(Installed(e.name).value)
  {
    PinnedArePlain();
    PinnedNamesDiffer();
    if DependencyName(e.name) {
      DependencyIsNotPinned(e.name);
      DependencyIsPlain(e.name);
    }
  }

  lemma InstalledIsOrdinary(entries: seq<Entry>, i: nat)
    requires i < |InstalledNames(entries)| && AllAccepted(entries)
    ensures Ordinary(InstalledNames(entries)[i])
  {
    InstalledFrom(entries, i);
    var k :| 0 <= k < |entries| && Installed(entries[k].name) == Some(InstalledNames(entries)[i]);
    AddedIsOrdinary(entries[k]);
  }

  lemma AppendRuntime(names: seq<string>, node: string, header: string)
    requires PlainNames(names) && forall i :: 0 <= i < |names| ==> names[i] != node && names[i] != header
    requires Plain(node) && Plain(header) && node != header
    ensures PlainNames(names + [node, header])
  {
  }

  lemma SameSuffix(base: string, a: string, b: string)
    ensures base + a == base + b ==> a == b
  {
    assert (base + a)[|base|..] == a && (base + b)[|base|..] == b;
  }
}
