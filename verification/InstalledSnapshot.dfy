/**
 verify_installed_bytes with the InstalledReader of siem/rbac/broker_tls/operator_fs.py as
 its callback: the whole chain from the manifest to the file system.
 */
module InstalledSnapshot {
  import opened Common
  import opened DoubleCollect
  import opened InstalledBytes
  import opened InstalledReader
  import opened Kernel
  import opened OperatorCore
  import opened OperatorFs
  import opened PosixPath
  import opened StillFiles

  /** The reader of a list of checks as the callback that verification calls. */
  function Native(env: Env, limits: map<string, nat>, host: Host, sha: seq<byte> -> string): Callback {
    Callback((path: string, limit: nat, t: nat) => NativeRead(env, limits, host, path, limit, t), sha)
  }

  function NativeRead(env: Env, limits: map<string, nat>, host: Host, path: string, limit: nat, t: nat): Read {
    var read := ReadsInstalled(env, t, limits, path, limit, host);
    Read(read.time - t, if read.result.Ok? then Some(read.result.value) else None)
  }

  /** What an absolute path holds in one state: the content, if every node from the root to it is trusted. */
  function HeldAt(env: Env, path: string, owners: Owners, t: nat): Option<seq<byte>> {
    var parts := Parse(path).parts;
    if parts == [] then None else ContentAt(env.history(t), env.root, parts, 0, owners)
  }

  /** The digests of trusted content over time. */
  function TrustedDigests(env: Env, owners: Owners, sha: seq<byte> -> string): Digests {
    (path: string) => (t: nat) => DigestAt(env, path, owners, sha, t)
  }

  function DigestAt(env: Env, path: string, owners: Owners, sha: seq<byte> -> string, t: nat): Option<string> {
    var held := HeldAt(env, path, owners, t);
    if held.Some? then Some(sha(held.value)) else None
  }

  /** What the reader returns was there: a read that succeeds is a snapshot. */
  lemma NativeIsTruthful(env: Env, limits: map<string, nat>, host: Host, sha: seq<byte> -> string, check: FileCheck)
    requires Identified(env) && NoStampReuse(env) && Identity(host).Ok?
    ensures Truthful(Native(env, limits, host, sha), check,
                     TrustedDigests(env, OwnersFor(Identity(host).value), sha)(check.path))
  {
    var callback, owners := Native(env, limits, host, sha), OwnersFor(Identity(host).value);
    var held := TrustedDigests(env, owners, sha)(check.path);
    forall t: nat | callback.ReadOf(check, t).raw.Some?
      ensures var read := callback.ReadOf(check, t); SeenDuring(held, sha(read.raw.value), t, t + read.elapsed)
    {
      var read := callback.ReadOf(check, t);
      assert read == NativeRead(env, limits, host, check.path, check.limit, t);
      var instant := InstalledReadIsSnapshot(env, t, limits, check.path, check.limit, host);
      assert HeldAt(env, check.path, owners, instant) == Some(read.raw.value);
      assert held(instant) == DigestAt(env, check.path, owners, sha, instant);
    }
  }

  /** At one time every listed path led, on trusted nodes only, to content with its pinned digest. */
  ghost predicate AllInstalled(env: Env, owners: Owners, sha: seq<byte> -> string, checks: seq<FileCheck>, instant: nat) {
    forall i :: 0 <= i < |checks| ==>
                  var held := HeldAt(env, checks[i].path, owners, instant);
                  held.Some? && sha(held.value) == checks[i].digest
  }

  /** Verification that gets through has had the service's account looked up. */
  lemma AcceptedHasIdentity(env: Env, host: Host, sha: seq<byte> -> string, checks: seq<FileCheck>, t: nat)
    requires checks != [] && OnePass(Native(env, LimitsOf(checks), host, sha), checks, t).failed.None?
    ensures Identity(host).Ok?
  {
    var callback := Native(env, LimitsOf(checks), host, sha);
    var u := MetDuringPass(callback, checks, t, 0);
    assert callback.ReadOf(checks[0], u) == NativeRead(env, LimitsOf(checks), host, checks[0].path, checks[0].limit, u);
  }

  /**
   If stamps are not reused and no installed file goes back to an earlier digest, then a
   verification that succeeds shows one instant of the call at which all n + 1 files of
   the manifest, on distinct paths of the vendor tree, held trusted content with their
   pinned digests.
   */
  lemma VerifiedTogether(env: Env, host: Host, length: nat, manifest: Manifest, pins: Pins, sha: seq<byte> -> string, t: nat)
    requires Identified(env) && NoStampReuse(env)
    requires Checks(length, manifest, pins).Ok? && Distinct(manifest.files.value)
    requires var checks := Checks(length, manifest, pins).value;
             TwoPasses(Native(env, LimitsOf(checks), host, sha), checks, t).failed.None?
    requires Identity(host).Ok? ==>
               forall i :: 0 <= i < |Checks(length, manifest, pins).value| ==>
                             NeverReturns(TrustedDigests(env, OwnersFor(Identity(host).value), sha)(Checks(length, manifest, pins).value[i].path))
    ensures var checks := Checks(length, manifest, pins).value;
            var callback := Native(env, LimitsOf(checks), host, sha);
            var instant := OnePass(callback, checks, t).time;
            && t <= instant <= TwoPasses(callback, checks, t).time && Identity(host).Ok?
            && |checks| == |manifest.files.value| + 1 && DistinctPaths(checks)
            && (forall i :: 0 <= i < |checks| ==> InVendorTree(checks[i].path))
            && AllInstalled(env, OwnersFor(Identity(host).value), sha, checks, instant)
            && ManifestInstalled(env, OwnersFor(Identity(host).value), sha, manifest.files.value, pins, instant)
  {
    var checks := Checks(length, manifest, pins).value;
    AcceptedManifest(length, manifest, pins);
    AcceptedHasIdentity(env, host, sha, checks, t);
    TogetherOnDisk(env, host, sha, checks, t);
    AsTheManifestSays(env, OwnersFor(Identity(host).value), sha, length, manifest, pins, OnePass(Native(env, LimitsOf(checks), host, sha), checks, t).time);
  }

  /** At one time the path led, on trusted nodes only, to content with this digest. */
  ghost predicate PathHolds(env: Env, owners: Owners, sha: seq<byte> -> string, path: string, digest: string, instant: nat) {
    var held := HeldAt(env, path, owners, instant);
    held.Some? && sha(held.value) == digest
  }

  /** Every dependency file with its own digest in the manifest, the candidate as the client, and the pinned runtime. */
  ghost predicate ManifestInstalled(env: Env, owners: Owners, sha: seq<byte> -> string, entries: seq<Entry>, pins: Pins, instant: nat) {
    && (forall i :: 0 <= i < |entries| && entries[i].name != ORIGINAL_FILE && entries[i].name != CANDIDATE_FILE ==>
                      entries[i].digest.Some? && PathHolds(env, owners, sha, BASE + entries[i].name, entries[i].digest.value, instant))
    && PathHolds(env, owners, sha, CLIENT, pins.candidate, instant)
    && PathHolds(env, owners, sha, NODE, pins.node, instant)
    && PathHolds(env, owners, sha, HEADER, pins.header, instant)
  }

  lemma CheckInstalled(env: Env, owners: Owners, sha: seq<byte> -> string, checks: seq<FileCheck>, instant: nat, c: FileCheck)
    requires AllInstalled(env, owners, sha, checks, instant) && c in checks
    ensures PathHolds(env, owners, sha, c.path, c.digest, instant)
  {
    var i :| 0 <= i < |checks| && checks[i] == c;
  }

  lemma AsTheManifestSays(env: Env, owners: Owners, sha: seq<byte> -> string, length: nat, manifest: Manifest, pins: Pins, instant: nat)
    requires Checks(length, manifest, pins).Ok? && AllInstalled(env, owners, sha, Checks(length, manifest, pins).value, instant)
    ensures ManifestInstalled(env, owners, sha, manifest.files.value, pins, instant)
  {
    var entries, checks := manifest.files.value, Checks(length, manifest, pins).value;
    forall i | 0 <= i < |entries| && entries[i].name != ORIGINAL_FILE && entries[i].name != CANDIDATE_FILE
      ensures entries[i].digest.Some? && PathHolds(env, owners, sha, BASE + entries[i].name, entries[i].digest.value, instant)
    {
      var c := DependencyCheck(length, manifest, pins, i);
      CheckInstalled(env, owners, sha, checks, instant, c);
    }
    var client := ClientListed(length, manifest, pins);
    CheckInstalled(env, owners, sha, checks, instant, checks[client]);
    var node, header := FileCheck(NODE, pins.node, MAX_NODE, None), FileCheck(HEADER, pins.header, MAX_HEADER, None);
    ChecksAreCalledFor(length, manifest, pins, node);
    ChecksAreCalledFor(length, manifest, pins, header);
    CheckInstalled(env, owners, sha, checks, instant, node);
    CheckInstalled(env, owners, sha, checks, instant, header);
  }

  lemma TogetherOnDisk(env: Env, host: Host, sha: seq<byte> -> string, checks: seq<FileCheck>, t: nat)
    requires Identified(env) && NoStampReuse(env) && Identity(host).Ok?
    requires TwoPasses(Native(env, LimitsOf(checks), host, sha), checks, t).failed.None?
    requires forall i :: 0 <= i < |checks| ==> NeverReturns(TrustedDigests(env, OwnersFor(Identity(host).value), sha)(checks[i].path))
    ensures AllInstalled(env, OwnersFor(Identity(host).value), sha, checks,
                         OnePass(Native(env, LimitsOf(checks), host, sha), checks, t).time)
  {
    var callback, owners := Native(env, LimitsOf(checks), host, sha), OwnersFor(Identity(host).value);
    var digests, instant := TrustedDigests(env, owners, sha), OnePass(callback, checks, t).time;
    forall i | 0 <= i < |checks| ensures Truthful(callback, checks[i], digests(checks[i].path)) {
      NativeIsTruthful(env, LimitsOf(checks), host, sha, checks[i]);
    }
    AcceptedTogether(callback, checks, digests, t);
    forall i | 0 <= i < |checks|
      ensures var held := HeldAt(env, checks[i].path, owners, instant); held.Some? && sha(held.value) == checks[i].digest
    {
      assert digests(checks[i].path)(instant) == DigestAt(env, checks[i].path, owners, sha, instant);
    }
  }

  // ----- Files that do not change -----

  /** On files that do not change, the reader gives bytes exactly when it may read the path and the path holds them. */
  lemma StillInstalledReadExactly(env: Env, fs: Fs, t: nat, limits: map<string, nat>, path: string, limit: int, host: Host, data: seq<byte>)
    requires Still(env, fs, t, ReadsInstalled(env, t, limits, path, limit, host).time)
    ensures ReadsInstalled(env, t, limits, path, limit, host).result == Ok(data) <==>
            && path in limits && limits[path] == limit && Platform(host).None? && Identity(host).Ok?
            && Holds(fs, env.root, Parse(path).parts, limit, OwnersFor(Identity(host).value), data)
  {
    if path in limits && limits[path] == limit && Platform(host).None? && Identity(host).Ok? {
      StillReadSucceedsExactly(env, fs, t, Parse(path).parts, limit, OwnersFor(Identity(host).value), data);
    }
  }

  /** A path of the tree holds, within the limit and of the size that is asked for, content of the pinned digest. */
  ghost predicate Fulfils(fs: Fs, root: Inode, owners: Owners, sha: seq<byte> -> string, check: FileCheck) {
    exists data :: Holds(fs, root, Parse(check.path).parts, check.limit, owners, data) && Meets(check, sha, data)
  }

  ghost predicate AllFulfil(fs: Fs, root: Inode, host: Host, sha: seq<byte> -> string, checks: seq<FileCheck>) {
    forall i :: 0 <= i < |checks| ==> FulfilsFor(fs, root, host, sha, checks[i])
  }

  /** Root may read the path for the service, and it meets its check. */
  ghost predicate FulfilsFor(fs: Fs, root: Inode, host: Host, sha: seq<byte> -> string, check: FileCheck) {
    Platform(host).None? && Identity(host).Ok? && Fulfils(fs, root, OwnersFor(Identity(host).value), sha, check)
  }

  lemma StillCheckExactly(env: Env, fs: Fs, t: nat, limits: map<string, nat>, host: Host, sha: seq<byte> -> string, check: FileCheck)
    requires check.path in limits && limits[check.path] == check.limit
    requires Still(env, fs, t, t + Native(env, limits, host, sha).ReadOf(check, t).elapsed)
    ensures var callback := Native(env, limits, host, sha);
            CheckFailure(callback, check, callback.ReadOf(check, t).raw).None? <==> FulfilsFor(fs, env.root, host, sha, check)
  {
    var callback := Native(env, limits, host, sha);
    var read := ReadsInstalled(env, t, limits, check.path, check.limit, host);
    assert callback.ReadOf(check, t) == NativeRead(env, limits, host, check.path, check.limit, t);
    if read.result.Ok? {
      StillInstalledReadExactly(env, fs, t, limits, check.path, check.limit, host, read.result.value);
    }
    if FulfilsFor(fs, env.root, host, sha, check) {
      var data :| Holds(fs, env.root, Parse(check.path).parts, check.limit, OwnersFor(Identity(host).value), data)
                  && Meets(check, sha, data);
      StillInstalledReadExactly(env, fs, t, limits, check.path, check.limit, host, data);
    }
  }

  /** On files that do not change, verification succeeds exactly when root may read for the service and every path meets its check. */
  lemma StillVerifiedExactly(env: Env, fs: Fs, t: nat, host: Host, sha: seq<byte> -> string, checks: seq<FileCheck>)
    requires DistinctPaths(checks)
    requires Still(env, fs, t, TwoPasses(Native(env, LimitsOf(checks), host, sha), checks, t).time)
    ensures TwoPasses(Native(env, LimitsOf(checks), host, sha), checks, t).failed.None? <==> AllFulfil(fs, env.root, host, sha, checks)
  {
    var callback := Native(env, LimitsOf(checks), host, sha);
    var end := TwoPasses(callback, checks, t).time;
    var good := (check: FileCheck) => FulfilsFor(fs, env.root, host, sha, check);
    LimitsKeepAll(checks);
    forall i | 0 <= i < |checks| ensures Decided(callback, checks[i], good(checks[i]), t, end) {
      StillCheckDecides(env, fs, t, end, LimitsOf(checks), host, sha, checks[i]);
    }
    DecidedPasses(callback, checks, good, t);
  }

  lemma StillCheckDecides(env: Env, fs: Fs, first: nat, last: nat, limits: map<string, nat>, host: Host, sha: seq<byte> -> string, check: FileCheck)
    requires check.path in limits && limits[check.path] == check.limit && Still(env, fs, first, last)
    ensures Decided(Native(env, limits, host, sha), check, FulfilsFor(fs, env.root, host, sha, check), first, last)
  {
    var callback := Native(env, limits, host, sha);
    forall u: nat | first <= u && u + callback.ReadOf(check, u).elapsed <= last
      ensures CheckFailure(callback, check, callback.ReadOf(check, u).raw).None? <==> FulfilsFor(fs, env.root, host, sha, check)
    {
      StillCheckExactly(env, fs, u, limits, host, sha, check);
    }
  }
}
