/**
 InstalledReader of siem/rbac/broker_tls/operator_fs.py: the reader that opens nothing
 but the installed files of a pinned manifest.
 */
module InstalledReader {
  import opened Common
  import opened Kernel
  import opened OperatorCore
  import opened OperatorFs
  import opened PosixPath

  /** `{check.path: check.limit for check in checks}` */
  function LimitsOf(checks: seq<FileCheck>): map<string, nat> {
    if checks == [] then map[]
    else
      var last := checks[|checks| - 1];
      LimitsOf(checks[..|checks| - 1])[last.path := last.limit]
  }

  lemma {:induction false} LimitAbsent(checks: seq<FileCheck>, path: string)
    requires forall i :: 0 <= i < |checks| ==> checks[i].path != path
    ensures path !in LimitsOf(checks)
  {
    if checks != [] {
      LimitAbsent(checks[..|checks| - 1], path);
    }
  }

  lemma {:induction false} LimitKept(checks: seq<FileCheck>, i: nat)
    requires DistinctPaths(checks) && i < |checks|
    ensures checks[i].path in LimitsOf(checks) && LimitsOf(checks)[checks[i].path] == checks[i].limit
  {
    if i < |checks| - 1 {
      LimitKept(checks[..|checks| - 1], i);
    }
  }

  /** A path map over checks with distinct paths has one entry for each of them. */
  lemma {:induction false} LimitsKeepAll(checks: seq<FileCheck>)
    requires DistinctPaths(checks)
    ensures |LimitsOf(checks)| == |checks|
    ensures forall i :: 0 <= i < |checks| ==> checks[i].path in LimitsOf(checks) && LimitsOf(checks)[checks[i].path] == checks[i].limit
  {
    forall i | 0 <= i < |checks| ensures checks[i].path in LimitsOf(checks) && LimitsOf(checks)[checks[i].path] == checks[i].limit {
      LimitKept(checks, i);
    }
    if checks != [] {
      var rest, last := checks[..|checks| - 1], checks[|checks| - 1];
      LimitsKeepAll(rest);
      LimitAbsent(rest, last.path);
    }
  }

  lemma LimitsMore(checks: seq<FileCheck>, n: nat)
    requires n < |checks|
    ensures LimitsOf(checks[..n + 1]) == LimitsOf(checks[..n])[checks[n].path := checks[n].limit]
  {
    assert checks[..n + 1][..n] == checks[..n];
  }

  /** The native package opens this path's components: ASCII names within its bounds. */
  predicate Readable(path: string) { Components(Parse(path).parts) }

  method LimitMap(checks: seq<FileCheck>) returns (limits: map<string, nat>)
    ensures limits == LimitsOf(checks)
  {
    limits := map[];
    for n := 0 to |checks|
      invariant limits == LimitsOf(checks[..n])
    {
      LimitsMore(checks, n);
      limits := limits[checks[n].path := checks[n].limit];
    }
    assert checks[..|checks|] == checks;
  }

  ghost predicate AllReadable(checks: seq<FileCheck>) {
    forall i :: 0 <= i < |checks| ==> Readable(checks[i].path)
  }

  method CheckPaths(checks: seq<FileCheck>) returns (ok: bool)
    ensures ok <==> AllReadable(checks)
  {
    for n := 0 to |checks|
      invariant forall i :: 0 <= i < n ==> Readable(checks[i].path)
    {
      if !Readable(checks[n].path) {
        return false;
      }
    }
    ok := true;
  }

  /** The constructor: the path map, or a failure before any input or output. */
  method NewInstalledReader(checks: seq<FileCheck>) returns (r: Result<map<string, nat>, Error>)
    ensures r == if AllReadable(checks) then Ok(LimitsOf(checks)) else Err(FS_COMPONENTS)
  {
    var limits := LimitMap(checks);
    var ok := CheckPaths(checks);
    r := if ok then Ok(limits) else Err(FS_COMPONENTS);
  }

  /** `InstalledReader.__call__`: only a known path with its own limit is read, and only for root on behalf of the service. */
  function ReadsInstalled(env: Env, t: nat, limits: map<string, nat>, path: string, limit: int, host: Host): (r: Load<seq<byte>>)
    ensures r.time >= t
  {
    if path !in limits || limits[path] != limit then Load(t, Err("FS_TARGET"))
    else if Platform(host).Some? then Load(t, Err(Platform(host).value))
    else if Identity(host).Err? then Load(t, Err(Identity(host).error))
    else Reported(ReadsRoot(env, t, Parse(path).parts, limit, OwnersFor(Identity(host).value)))
  }

  method ReadInstalled(p: Process, limits: map<string, nat>, path: string, limit: int, host: Host)
    returns (r: Result<seq<byte>, string>)
    requires p.Valid()
    modifies p
    ensures p.Valid() && p.descriptors == old(p.descriptors)
    ensures Load(p.clock, r) == ReadsInstalled(p.env, old(p.clock), limits, path, limit, host)
  {
    if path !in limits || limits[path] != limit {
      return Err("FS_TARGET");
    }
    var refused := Platform(host);
    if refused.Some? {
      return Err(refused.value);
    }
    var identity := Identity(host);
    if identity.Err? {
      return Err(identity.error);
    }
    var raw := ReadRoot(p, Parse(path).parts, limit, OwnersFor(identity.value));
    r := if raw.Ok? then Ok(raw.value) else Err(Static(raw.error));
  }

  /**
   A read that succeeds was of a listed path, and gave the whole content that the path
   held, on names and nodes trusted from the root, at one instant of the call; it is
   within the path's own limit.
   */
  lemma InstalledReadIsSnapshot(env: Env, t: nat, limits: map<string, nat>, path: string, limit: int, host: Host)
    returns (instant: nat)
    requires Identified(env) && NoStampReuse(env)
    requires ReadsInstalled(env, t, limits, path, limit, host).result.Ok?
    ensures var read := ReadsInstalled(env, t, limits, path, limit, host);
            && path in limits && limits[path] == limit && Identity(host).Ok? && host.euid == 0
            && t < instant <= read.time && Parse(path).parts != []
            && PathContent(env, Parse(path).parts, OwnersFor(Identity(host).value))(instant) == Some(read.result.value)
            && |read.result.value| <= limit
  {
    var owners := OwnersFor(Identity(host).value);
    instant := RootReadIsSnapshot(env, t, Parse(path).parts, limit, owners);
  }

  /**
   The reader of an accepted manifest knows every check's path with its own limit, and
   each of them is one the service account may own.
   */
  lemma ReaderCoversManifest(length: nat, manifest: Manifest, pins: Pins, identity: (nat, nat))
    requires Checks(length, manifest, pins).Ok? && manifest.Object? && manifest.files.Some? && Distinct(manifest.files.value)
    ensures var checks := Checks(length, manifest, pins).value;
            && |LimitsOf(checks)| == |manifest.files.value| + 1
            && forall i :: 0 <= i < |checks| ==>
                             && checks[i].path in LimitsOf(checks) && LimitsOf(checks)[checks[i].path] == checks[i].limit
                             && OwnersFor(identity)(Parse(checks[i].path).parts) == {(0, 0), identity}
  {
    AcceptedManifest(length, manifest, pins);
    LimitsKeepAll(Checks(length, manifest, pins).value);
  }
}
