/**
 siem/rbac/broker_tls/operator_bootstrap.py: the manifest and the certificate are
 read and checked twice, and the two passes must agree.
 */
module Bootstrap {
  import opened Common
  import opened DoubleCollect
  import opened Kernel
  import OperatorCore
  import opened OperatorFs
  import opened StillFiles

  const MANIFEST_PARTS := ["etc", "alertmind", "broker-tls", "manifest.json"]
  const CERTIFICATE_PARTS := ["etc", "alertmind", "certs", "alertmind-server-api.pem"]
  const MAX_CERTIFICATE := 65536

  const ROOT_ONLY: Owners := _ => {(0, 0)}

  /** `installed_checks` and `verify_certificate_pin`: the code they fail with, if they do. */
  datatype Checks = Checks(manifest: seq<byte> -> Option<string>, certificate: seq<byte> -> Option<string>)

  datatype Pair = Pair(manifest: seq<byte>, certificate: seq<byte>)

  /** Reading one file and checking it. */
  function ReadChecked(env: Env, host: Host, t: nat, parts: seq<string>, limit: nat, check: seq<byte> -> Option<string>): (r: Load<seq<byte>>)
    ensures r.time >= t
  {
    var read := if Platform(host).Some? then Load(t, Err(Platform(host).value)) else Reported(ReadsRoot(env, t, parts, limit, ROOT_ONLY));
    if read.result.Ok? && check(read.result.value).Some? then Load(read.time, Err(check(read.result.value).value)) else read
  }

  function OnePass(env: Env, host: Host, t: nat, checks: Checks): (r: Load<Pair>)
    ensures r.time >= t
  {
    var m := ReadChecked(env, host, t, MANIFEST_PARTS, OperatorCore.MAX_MANIFEST, checks.manifest);
    if m.result.Err? then Load(m.time, Err(m.result.error))
    else
      var c := ReadChecked(env, host, m.time, CERTIFICATE_PARTS, MAX_CERTIFICATE, checks.certificate);
      if c.result.Err? then Load(c.time, Err(c.result.error)) else Load(c.time, Ok(Pair(m.result.value, c.result.value)))
  }

  function TwoPasses(env: Env, host: Host, t: nat, checks: Checks): (r: Load<Pair>)
    ensures r.time >= t
  {
    var first := OnePass(env, host, t, checks);
    if first.result.Err? then first
    else
      var second := OnePass(env, host, first.time, checks);
      if second.result.Err? then second
      else if first.result.value != second.result.value then Load(second.time, Err("BOOTSTRAP_CHANGED"))
      else second
  }

  method ReadBootstrapFile(p: Process, host: Host, parts: seq<string>, limit: nat, check: seq<byte> -> Option<string>)
    returns (r: Result<seq<byte>, string>)
    requires p.Valid()
    modifies p
    ensures p.Valid() && p.descriptors == old(p.descriptors)
    ensures Load(p.clock, r) == ReadChecked(p.env, host, old(p.clock), parts, limit, check)
  {
    var refused := Platform(host);
    if refused.Some? {
      return Err(refused.value);
    }
    var raw := ReadRoot(p, parts, limit, ROOT_ONLY);
    if raw.Err? {
      return Err(Static(raw.error));
    }
    var failed := check(raw.value);
    r := if failed.Some? then Err(failed.value) else Ok(raw.value);
  }

  method LoadPass(p: Process, host: Host, checks: Checks) returns (r: Result<Pair, string>)
    requires p.Valid()
    modifies p
    ensures p.Valid() && p.descriptors == old(p.descriptors)
    ensures Load(p.clock, r) == OnePass(p.env, host, old(p.clock), checks)
  {
    var manifest := ReadBootstrapFile(p, host, MANIFEST_PARTS, OperatorCore.MAX_MANIFEST, checks.manifest);
    if manifest.Err? {
      return Err(manifest.error);
    }
    var certificate := ReadBootstrapFile(p, host, CERTIFICATE_PARTS, MAX_CERTIFICATE, checks.certificate);
    if certificate.Err? {
      return Err(certificate.error);
    }
    r := Ok(Pair(manifest.value, certificate.value));
  }

  /** `load_bootstrap` */
  method LoadBootstrap(p: Process, host: Host, checks: Checks) returns (r: Result<Pair, string>)
    requires p.Valid()
    modifies p
    ensures p.Valid() && p.descriptors == old(p.descriptors)
    ensures Load(p.clock, r) == TwoPasses(p.env, host, old(p.clock), checks)
  {
    var first: Option<Pair> := None;
    for pass := 0 to 2
      invariant p.Valid() && p.descriptors == old(p.descriptors)
      invariant pass == 0 ==> p.clock == old(p.clock) && first.None?
      invariant pass == 1 ==> first.Some? && Load(p.clock, Ok(first.value)) == OnePass(p.env, host, old(p.clock), checks)
      invariant pass == 2 ==> first.Some? && Load(p.clock, Ok(first.value)) == TwoPasses(p.env, host, old(p.clock), checks)
    {
      var current := LoadPass(p, host, checks);
      if current.Err? {
        return current;
      }
      if first.None? {
        first := Some(current.value);
      } else if first.value != current.value {
        return Err("BOOTSTRAP_CHANGED");
      }
    }
    r := Ok(first.value);
  }

  function Manifests(env: Env): nat -> Option<seq<byte>> { PathContent(env, MANIFEST_PARTS, ROOT_ONLY) }

  function Certificates(env: Env): nat -> Option<seq<byte>> { PathContent(env, CERTIFICATE_PARTS, ROOT_ONLY) }

  /** Both files held these bytes at this instant, on paths trusted from the root. */
  ghost predicate OnDisk(env: Env, pair: Pair, instant: nat) {
    Manifests(env)(instant) == Some(pair.manifest) && Certificates(env)(instant) == Some(pair.certificate)
  }

  /** A checked read that succeeds gives what its path held at some time during it, and it passed the check. */
  lemma CheckedSawFile(env: Env, host: Host, t: nat, parts: seq<string>, limit: nat, check: seq<byte> -> Option<string>)
    returns (u: nat)
    requires Identified(env) && NoStampReuse(env) && ReadChecked(env, host, t, parts, limit, check).result.Ok?
    ensures var read := ReadChecked(env, host, t, parts, limit, check);
            && t < u <= read.time && parts != [] && check(read.result.value).None?
            && PathContent(env, parts, ROOT_ONLY)(u) == Some(read.result.value)
  {
    u := RootReadIsSnapshot(env, t, parts, limit, ROOT_ONLY);
  }

  predicate Passes(checks: Checks, pair: Pair) {
    checks.manifest(pair.manifest).None? && checks.certificate(pair.certificate).None?
  }

  /** The times at which the two files of an accepted pass held the bytes it returned. */
  lemma PassSawFiles(env: Env, host: Host, t: nat, checks: Checks) returns (m: nat, c: nat)
    requires Identified(env) && NoStampReuse(env) && OnePass(env, host, t, checks).result.Ok?
    ensures var pass := OnePass(env, host, t, checks);
            && t < m <= pass.time && t < c <= pass.time && Passes(checks, pass.result.value)
            && Manifests(env)(m) == Some(pass.result.value.manifest)
            && Certificates(env)(c) == Some(pass.result.value.certificate)
  {
    var first := ReadChecked(env, host, t, MANIFEST_PARTS, OperatorCore.MAX_MANIFEST, checks.manifest);
    m := CheckedSawFile(env, host, t, MANIFEST_PARTS, OperatorCore.MAX_MANIFEST, checks.manifest);
    c := CheckedSawFile(env, host, first.time, CERTIFICATE_PARTS, MAX_CERTIFICATE, checks.certificate);
  }

  /** Two passes that agree and end well, each with its end. */
  lemma PassesAgree(env: Env, host: Host, t: nat, checks: Checks)
    requires TwoPasses(env, host, t, checks).result.Ok?
    ensures var first := OnePass(env, host, t, checks);
            var second := OnePass(env, host, first.time, checks);
            first.result.Ok? && second.result == first.result && TwoPasses(env, host, t, checks) == second
  {
  }

  /**
   If stamps are not reused and neither file goes back to earlier content, the pair that
   is returned was on disk, both files together and trusted, when the first pass ended,
   and it passed both checks.
   */
  lemma BootstrapIsSnapshot(env: Env, host: Host, t: nat, checks: Checks)
    requires Identified(env) && NoStampReuse(env)
    requires NeverReturns(Manifests(env)) && NeverReturns(Certificates(env))
    requires TwoPasses(env, host, t, checks).result.Ok?
    ensures var loaded, instant := TwoPasses(env, host, t, checks), OnePass(env, host, t, checks).time;
            t < instant < loaded.time && Passes(checks, loaded.result.value) && OnDisk(env, loaded.result.value, instant)
  {
    PassesAgree(env, host, t, checks);
    var cut := OnePass(env, host, t, checks).time;
    var m1, c1 := PassSawFiles(env, host, t, checks);
    var m2, c2 := PassSawFiles(env, host, cut, checks);
    HeldBetween(Manifests(env), m1, cut, m2);
    HeldBetween(Certificates(env), c1, cut, c2);
  }

  // ----- Files that do not change -----

  /** A path holds bytes that its check accepts, and the caller may read them. */
  predicate HoldsChecked(fs: Fs, root: Inode, host: Host, parts: seq<string>, limit: nat, check: seq<byte> -> Option<string>, data: seq<byte>) {
    Platform(host).None? && Holds(fs, root, parts, limit, ROOT_ONLY, data) && check(data).None?
  }

  predicate HoldsPair(fs: Fs, root: Inode, host: Host, checks: Checks, pair: Pair) {
    && HoldsChecked(fs, root, host, MANIFEST_PARTS, OperatorCore.MAX_MANIFEST, checks.manifest, pair.manifest)
    && HoldsChecked(fs, root, host, CERTIFICATE_PARTS, MAX_CERTIFICATE, checks.certificate, pair.certificate)
  }

  lemma CheckedOfStill(env: Env, fs: Fs, host: Host, t: nat, parts: seq<string>, limit: nat, check: seq<byte> -> Option<string>, data: seq<byte>)
    requires Still(env, fs, t, ReadChecked(env, host, t, parts, limit, check).time)
    ensures ReadChecked(env, host, t, parts, limit, check).result == Ok(data) <==> HoldsChecked(fs, env.root, host, parts, limit, check, data)
  {
    if Platform(host).None? {
      StillReadSucceedsExactly(env, fs, t, parts, limit, ROOT_ONLY, data);
    }
  }

  lemma PassOfStill(env: Env, fs: Fs, host: Host, t: nat, checks: Checks, pair: Pair)
    requires Still(env, fs, t, OnePass(env, host, t, checks).time)
    ensures OnePass(env, host, t, checks).result == Ok(pair) <==> HoldsPair(fs, env.root, host, checks, pair)
  {
    var first := ReadChecked(env, host, t, MANIFEST_PARTS, OperatorCore.MAX_MANIFEST, checks.manifest);
    assert first.time <= OnePass(env, host, t, checks).time;
    CheckedOfStill(env, fs, host, t, MANIFEST_PARTS, OperatorCore.MAX_MANIFEST, checks.manifest, pair.manifest);
    if first.result.Ok? {
      CheckedOfStill(env, fs, host, first.time, CERTIFICATE_PARTS, MAX_CERTIFICATE, checks.certificate, pair.certificate);
    }
  }

  /** On files that do not change, a pair is loaded exactly when the two paths hold it and both checks accept it. */
  lemma StillBootstrapLoadsExactly(env: Env, fs: Fs, host: Host, t: nat, checks: Checks, pair: Pair)
    requires Still(env, fs, t, TwoPasses(env, host, t, checks).time)
    ensures TwoPasses(env, host, t, checks).result == Ok(pair) <==> HoldsPair(fs, env.root, host, checks, pair)
  {
    var first := OnePass(env, host, t, checks);
    assert first.time <= TwoPasses(env, host, t, checks).time;
    PassOfStill(env, fs, host, t, checks, pair);
    if first.result.Ok? {
      PassOfStill(env, fs, host, t, checks, first.result.value);
      PassOfStill(env, fs, host, first.time, checks, first.result.value);
      PassOfStill(env, fs, host, first.time, checks, pair);
    }
  }
}
