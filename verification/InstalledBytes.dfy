/**
 verify_installed_bytes in siem/rbac/broker_tls/operator_core.py: every installed file
 is read and checked, twice over. The files may change between any two reads.
 */
module InstalledBytes {
  import opened Common
  import opened DoubleCollect
  import opened OperatorCore

  const PACKAGE_VERSION := "4.14.7-1"

  /** What one call of `read_bounded` gives, and how long it takes; `None` when it raises anything. */
  datatype Read = Read(elapsed: nat, raw: Option<seq<byte>>)

  /** `read_bounded`, from a path, a limit and the time of the call, and the digest. */
  datatype Callback = Callback(read: (string, nat, nat) -> Read, sha: seq<byte> -> string)
  {
    function ReadOf(check: FileCheck, t: nat): Read { read(check.path, check.limit, t) }
  }

  /** Why what was read does not meet its check. */
  function CheckFailure(callback: Callback, check: FileCheck, raw: Option<seq<byte>>): Option<string> {
    if raw.None? then Some("ARTIFACT_READ")
    else if |raw.value| > check.limit || (check.size.Some? && |raw.value| != check.size.value) then Some("ARTIFACT_SIZE")
    else if callback.sha(raw.value) != check.digest then Some("ARTIFACT_DIGEST")
    else None
  }

  /** Content that a check accepts: within its limit, of its size if it has one, with its digest. */
  predicate Meets(check: FileCheck, sha: seq<byte> -> string, data: seq<byte>) {
    |data| <= check.limit && (check.size.Some? ==> |data| == check.size.value) && sha(data) == check.digest
  }

  lemma MeetsExactly(callback: Callback, check: FileCheck, raw: Option<seq<byte>>)
    ensures CheckFailure(callback, check, raw).None? <==> raw.Some? && Meets(check, callback.sha, raw.value)
  {
  }

  datatype Ended = Ended(time: nat, failed: Option<string>)

  function OnePass(callback: Callback, checks: seq<FileCheck>, t: nat): (r: Ended)
    ensures r.time >= t
  {
    if checks == [] then Ended(t, None)
    else
      var read := callback.ReadOf(checks[0], t);
      var failed := CheckFailure(callback, checks[0], read.raw);
      if failed.Some? then Ended(t + read.elapsed, failed) else OnePass(callback, checks[1..], t + read.elapsed)
  }

  function TwoPasses(callback: Callback, checks: seq<FileCheck>, t: nat): (r: Ended)
    ensures r.time >= t
  {
    var first := OnePass(callback, checks, t);
    if first.failed.Some? then first else OnePass(callback, checks, first.time)
  }

  /** The loop over the checks, up to the first one that is not met. */
  method VerifyPass(callback: Callback, checks: seq<FileCheck>, t: nat) returns (clock: nat, failed: Option<string>)
    ensures Ended(clock, failed) == OnePass(callback, checks, t)
  {
    clock := t;
    assert checks[0..] == checks;
    for n := 0 to |checks|
      invariant OnePass(callback, checks[n..], clock) == OnePass(callback, checks, t)
    {
      assert checks[n..][1..] == checks[n + 1..];
      var read := callback.ReadOf(checks[n], clock);
      clock := clock + read.elapsed;
      failed := CheckFailure(callback, checks[n], read.raw);
      if failed.Some? {
        return;
      }
    }
    failed := None;
  }

  /** `verify_installed_bytes`; on success it reports how many files were checked. */
  method VerifyInstalledBytes(callback: Callback, length: nat, manifest: Manifest, pins: Pins, version: string, node: string, t: nat)
    returns (r: Result<nat, string>, clock: nat)
    ensures version != PACKAGE_VERSION ==> r == Err("PACKAGE_VERSION")
    ensures version == PACKAGE_VERSION && node != NODE ==> r == Err("RUNTIME_PATH")
    ensures version == PACKAGE_VERSION && node == NODE ==>
              var checks := Checks(length, manifest, pins);
              if checks.Err? then r == Err(checks.error)
              else
                var end := TwoPasses(callback, checks.value, t);
                clock == end.time && r == if end.failed.Some? then Err(end.failed.value) else Ok(|checks.value|)
  {
    clock := t;
    if version != PACKAGE_VERSION {
      return Err("PACKAGE_VERSION"), clock;
    }
    if node != NODE {
      return Err("RUNTIME_PATH"), clock;
    }
    var accepted := InstalledChecks(length, manifest, pins);
    if accepted.Err? {
      return Err(accepted.error), clock;
    }
    var checks := accepted.value;
    for pass := 0 to 2
      invariant pass == 0 ==> clock == t
      invariant pass == 1 ==> OnePass(callback, checks, t) == Ended(clock, None)
      invariant pass == 2 ==> TwoPasses(callback, checks, t) == Ended(clock, None)
    {
      var failed;
      clock, failed := VerifyPass(callback, checks, clock);
      if failed.Some? {
        return Err(failed.value), clock;
      }
    }
    r := Ok(|checks|);
  }

  // ----- What acceptance means -----

  /** Every check of a pass that ended well was met by a read that started and ended during it. */
  lemma {:induction false} MetDuringPass(callback: Callback, checks: seq<FileCheck>, t: nat, i: nat) returns (u: nat)
    requires i < |checks| && OnePass(callback, checks, t).failed.None?
    ensures var read := callback.ReadOf(checks[i], u);
            t <= u && u + read.elapsed <= OnePass(callback, checks, t).time && CheckFailure(callback, checks[i], read.raw).None?
    decreases i
  {
    if i == 0 {
      u := t;
    } else {
      u := MetDuringPass(callback, checks[1..], t + callback.ReadOf(checks[0], t).elapsed, i - 1);
    }
  }

  /** The digest of what each path holds, over time. */
  type Digests = string -> nat -> Option<string>

  /** The path had this digest at some time after `t`, up to `end`. */
  ghost predicate SeenDuring(held: nat -> Option<string>, digest: string, t: nat, end: nat) {
    exists u :: t < u <= end && held(u) == Some(digest)
  }

  /** Whatever a read of this check's path gives was there at some time during the read. */
  ghost predicate Truthful(callback: Callback, check: FileCheck, held: nat -> Option<string>) {
    forall t: nat :: var read := callback.ReadOf(check, t);
                     read.raw.Some? ==> SeenDuring(held, callback.sha(read.raw.value), t, t + read.elapsed)
  }

  /** At one time every file of the list has its pinned digest. */
  ghost predicate AllPinned(digests: Digests, checks: seq<FileCheck>, instant: nat) {
    forall i :: 0 <= i < |checks| ==> digests(checks[i].path)(instant) == Some(checks[i].digest)
  }

  /** A check that a pass met was true of its path at some time during the pass. */
  lemma PinnedDuringPass(callback: Callback, checks: seq<FileCheck>, held: nat -> Option<string>, t: nat, i: nat)
    requires i < |checks| && OnePass(callback, checks, t).failed.None? && Truthful(callback, checks[i], held)
    ensures SeenDuring(held, checks[i].digest, t, OnePass(callback, checks, t).time)
  {
    var start := MetDuringPass(callback, checks, t, i);
    var read := callback.ReadOf(checks[i], start);
    assert SeenDuring(held, checks[i].digest, start, start + read.elapsed);
  }

  /**
   If reads are truthful and no file goes back to a digest it had before, then when the
   first pass of an accepted run ended, all files had their pinned digests together.
   */
  lemma AcceptedTogether(callback: Callback, checks: seq<FileCheck>, digests: Digests, t: nat)
    requires forall i :: 0 <= i < |checks| ==> NeverReturns(digests(checks[i].path))
    requires forall i :: 0 <= i < |checks| ==> Truthful(callback, checks[i], digests(checks[i].path))
    requires TwoPasses(callback, checks, t).failed.None?
    ensures AllPinned(digests, checks, OnePass(callback, checks, t).time)
  {
    var cut := OnePass(callback, checks, t).time;
    forall i | 0 <= i < |checks| ensures digests(checks[i].path)(cut) == Some(checks[i].digest) {
      var held := digests(checks[i].path);
      PinnedDuringPass(callback, checks, held, t, i);
      PinnedDuringPass(callback, checks, held, cut, i);
      var u :| t < u <= cut && held(u) == Some(checks[i].digest);
      var w :| cut < w <= OnePass(callback, checks, cut).time && held(w) == Some(checks[i].digest);
      HeldBetween(held, u, cut, w);
    }
  }

  /** Whether a read of the file from `first` to `last` meets its check does not depend on when it is made. */
  ghost predicate Decided(callback: Callback, check: FileCheck, good: bool, first: nat, last: nat) {
    forall u: nat :: var read := callback.ReadOf(check, u);
                     first <= u && u + read.elapsed <= last ==> (CheckFailure(callback, check, read.raw).None? <==> good)
  }

  ghost predicate AllDecided(callback: Callback, checks: seq<FileCheck>, good: FileCheck -> bool, first: nat, last: nat) {
    forall i :: 0 <= i < |checks| ==> Decided(callback, checks[i], good(checks[i]), first, last)
  }

  /** A pass over files that are decided ends well exactly when all of them are good. */
  lemma {:induction false} DecidedPass(callback: Callback, checks: seq<FileCheck>, good: FileCheck -> bool, t: nat)
    requires AllDecided(callback, checks, good, t, OnePass(callback, checks, t).time)
    ensures OnePass(callback, checks, t).failed.None? <==> forall i :: 0 <= i < |checks| ==> good(checks[i])
    decreases |checks|
  {
    if checks != [] {
      var next, end := t + callback.ReadOf(checks[0], t).elapsed, OnePass(callback, checks, t).time;
      assert Decided(callback, checks[0], good(checks[0]), t, end);
      if good(checks[0]) {
        forall i | 0 <= i < |checks[1..]| ensures Decided(callback, checks[1..][i], good(checks[1..][i]), next, end) {
          assert Decided(callback, checks[i + 1], good(checks[i + 1]), t, end);
        }
        DecidedPass(callback, checks[1..], good, next);
        assert forall i :: 0 < i < |checks| ==> checks[i] == checks[1..][i - 1];
      }
    }
  }

  lemma DecidedPasses(callback: Callback, checks: seq<FileCheck>, good: FileCheck -> bool, t: nat)
    requires AllDecided(callback, checks, good, t, TwoPasses(callback, checks, t).time)
    ensures TwoPasses(callback, checks, t).failed.None? <==> forall i :: 0 <= i < |checks| ==> good(checks[i])
  {
    var cut, end := OnePass(callback, checks, t).time, TwoPasses(callback, checks, t).time;
    assert cut <= end;
    forall i | 0 <= i < |checks| ensures Decided(callback, checks[i], good(checks[i]), t, cut) && Decided(callback, checks[i], good(checks[i]), cut, end) {
      assert Decided(callback, checks[i], good(checks[i]), t, end);
    }
    DecidedPass(callback, checks, good, t);
    if OnePass(callback, checks, t).failed.None? {
      DecidedPass(callback, checks, good, cut);
    }
  }

  /** Every read of a listed file, whenever it starts, meets its check. */
  ghost predicate Steady(callback: Callback, checks: seq<FileCheck>, t: nat) {
    forall i, u :: 0 <= i < |checks| && u >= t ==> CheckFailure(callback, checks[i], callback.ReadOf(checks[i], u).raw).None?
  }

  /** Files that meet their checks all along are accepted. */
  lemma SteadyFilesPass(callback: Callback, checks: seq<FileCheck>, t: nat)
    requires Steady(callback, checks, t)
    ensures TwoPasses(callback, checks, t).failed.None?
  {
    DecidedPasses(callback, checks, (check: FileCheck) => true, t);
  }

  // ----- Without the assumption -----

  const FIRST := FileCheck("a", "x", 1, None)
  const SECOND := FileCheck("b", "x", 1, None)

  /** One file is right at odd times, the other at even ones. */
  function Right(path: string, t: nat): bool { (t % 2 == 1) == (path == FIRST.path) }

  function Alternating(): Callback {
    Callback((path: string, limit: nat, t: nat) => Read(1, Some(if Right(path, t + 1) then [0] else [1])),
             (raw: seq<byte>) => if raw == [0] then "x" else "y")
  }

  function Alternate(): Digests {
    (path: string) => (t: nat) => Some(if Right(path, t) then "x" else "y")
  }

  lemma AlternatingReads(check: FileCheck, t: nat)
    requires check == FIRST || check == SECOND
    ensures CheckFailure(Alternating(), check, Alternating().ReadOf(check, t).raw).None? <==> Right(check.path, t + 1)
    ensures Alternating().ReadOf(check, t).raw.Some?
    ensures Alternate()(check.path)(t + 1) == Some(Alternating().sha(Alternating().ReadOf(check, t).raw.value))
  {
    var good: seq<byte>, bad: seq<byte> := [0], [1];
    assert good[0] != bad[0] && "x"[0] != "y"[0];
    assert Alternating().ReadOf(check, t) == Read(1, Some(if Right(check.path, t + 1) then good else bad));
  }

  lemma AlternatingIsTruthful(check: FileCheck)
    requires check == FIRST || check == SECOND
    ensures Truthful(Alternating(), check, Alternate()(check.path))
  {
    forall t: nat ensures var read := Alternating().ReadOf(check, t);
                          read.raw.Some? ==> SeenDuring(Alternate()(check.path), Alternating().sha(read.raw.value), t, t + read.elapsed)
    {
      AlternatingReads(check, t);
    }
  }

  lemma NeverPinned(instant: nat)
    ensures !AllPinned(Alternate(), [FIRST, SECOND], instant)
  {
    assert "x"[0] != "y"[0] && FIRST.path[0] != SECOND.path[0];
    assert Right(FIRST.path, instant) != Right(SECOND.path, instant);
    assert [FIRST, SECOND][0] == FIRST && [FIRST, SECOND][1] == SECOND;
  }

  lemma AlternatingPass(t: nat)
    requires t % 2 == 0
    ensures OnePass(Alternating(), [FIRST, SECOND], t) == Ended(t + 2, None)
  {
    var callback := Alternating();
    assert FIRST.path[0] != SECOND.path[0];
    AlternatingReads(FIRST, t);
    AlternatingReads(SECOND, t + 1);
    assert [FIRST, SECOND][1..] == [SECOND] && [SECOND][1..] == [];
    assert OnePass(callback, [], t + 2) == Ended(t + 2, None);
    assert OnePass(callback, [SECOND], t + 1) == Ended(t + 2, None);
  }

  /** Files that are never right together are accepted, though every read is truthful, when each is right whenever it is read. */
  lemma AcceptedApart()
    ensures Truthful(Alternating(), FIRST, Alternate()(FIRST.path)) && Truthful(Alternating(), SECOND, Alternate()(SECOND.path))
    ensures TwoPasses(Alternating(), [FIRST, SECOND], 0).failed.None?
    ensures forall instant :: !AllPinned(Alternate(), [FIRST, SECOND], instant)
  {
    AlternatingIsTruthful(FIRST);
    AlternatingIsTruthful(SECOND);
    AlternatingPass(0);
    AlternatingPass(2);
    forall instant ensures !AllPinned(Alternate(), [FIRST, SECOND], instant) {
      NeverPinned(instant);
    }
  }
}
