/**
 The two observers as a whole: what they report rests on a tool that root owns, and with
 files, properties and process that stay as they are they report exactly when they should.
 */
module StillObservers {
  import opened Common
  import opened Kernel
  import opened OperatorFs
  import opened ProcessSnapshot
  import opened ServiceConfiguration
  import opened ServiceProcess
  import opened Texts
  import OperatorCore
  import ProcStat
  import StillFiles
  import StillProcess

  // ----- The tool -----

  /** At this instant the tool's path led through root's nodes to this content. */
  ghost predicate ToolAt(env: Env, t: nat, data: seq<byte>) {
    PathContent(env, TOOL_PARTS, RootOnly)(t) == Some(data)
  }

  /** Nothing is asked before a tool of root's was read whole, by root, on a platform that is supported. */
  lemma ToolIsRoots(env: Env, host: Host, t: nat) returns (instant: nat)
    requires Identified(env) && NoStampReuse(env) && CheckTool(env, host, t).result.Ok?
    ensures Platform(host).None? && t < instant <= CheckTool(env, host, t).time
    ensures ToolAt(env, instant, CheckTool(env, host, t).result.value)
  {
    instant := RootReadIsSnapshot(env, t, TOOL_PARTS, MAX_TOOL, RootOnly);
  }

  lemma ObservedWithRootsTool(env: Env, host: Host, bus: Bus, t: nat) returns (instant: nat)
    requires Identified(env) && NoStampReuse(env) && Observe(env, host, bus, t).result.Ok?
    ensures Platform(host).None? && CheckTool(env, host, t).result.Ok? && t < instant <= CheckTool(env, host, t).time
    ensures ToolAt(env, instant, CheckTool(env, host, t).result.value)
  {
    instant := ToolIsRoots(env, host, t);
  }

  lemma ProcessObservedWithRootsTool(env: Env, host: Host, bus: Bus, processes: nat -> Procfs, t: nat) returns (instant: nat)
    requires Identified(env) && NoStampReuse(env) && ObserveProcess(env, host, bus, processes, t).result.Ok?
    ensures Platform(host).None? && Identity(host).Ok? && t < instant <= CheckTool(env, host, t).time
    ensures CheckTool(env, host, t).result.Ok? && ToolAt(env, instant, CheckTool(env, host, t).result.value)
  {
    instant := ToolIsRoots(env, host, t);
  }

  /** Files that do not change hold a usable tool, and root asks on a supported platform. */
  ghost predicate ToolHeld(fs: Fs, root: Inode, host: Host) {
    host.supported && host.euid == 0 && exists data :: StillFiles.Holds(fs, root, TOOL_PARTS, MAX_TOOL, RootOnly, data)
  }

  lemma StillToolExactly(env: Env, fs: Fs, host: Host, t: nat)
    requires StillFiles.Still(env, fs, t, CheckTool(env, host, t).time)
    ensures CheckTool(env, host, t).result.Ok? <==> ToolHeld(fs, env.root, host)
  {
    if Platform(host).None? {
      var run := ReadsRoot(env, t, TOOL_PARTS, MAX_TOOL, RootOnly);
      if run.result.Ok? {
        StillFiles.StillReadSucceedsExactly(env, fs, t, TOOL_PARTS, MAX_TOOL, RootOnly, run.result.value.data);
      }
      if ToolHeld(fs, env.root, host) {
        var data :| StillFiles.Holds(fs, env.root, TOOL_PARTS, MAX_TOOL, RootOnly, data);
        StillFiles.StillReadSucceedsExactly(env, fs, t, TOOL_PARTS, MAX_TOOL, RootOnly, data);
      }
    }
  }

  // ----- The configuration -----

  /** With still files and a settled manager, a configuration is reported exactly when the tool is root's and it can be summarised. */
  lemma StillConfigurationExactly(env: Env, fs: Fs, host: Host, bus: Bus, c: Configuration, t: nat, o: Observation)
    requires StillFiles.Still(env, fs, t, CheckTool(env, host, t).time) && Settled(bus, c, t)
    ensures Observe(env, host, bus, t).result == Ok(o) <==> ToolHeld(fs, env.root, host) && Complete(c) && Summarize(c) == Ok(o)
  {
    StillToolExactly(env, fs, host, t);
    if CheckTool(env, host, t).result.Ok? {
      SettledIsReported(env, host, bus, c, t);
    }
  }

  // ----- The process -----

  /** The manager runs the service's main process. */
  ghost predicate Running(c: Configuration) {
    Complete(c) && Summarize(c).Ok? && NotAnchored(c).None?
  }

  /** All that is demanded for an observation of the main process. */
  ghost predicate Observable(fs: Fs, root: Inode, host: Host, c: Configuration, processes: nat -> Procfs, image: StillProcess.Image) {
    && ToolHeld(fs, root, host) && Identity(host).Ok? && Running(c)
    && MainPid(c) >= 0 && StillProcess.Presentable(ProcessOf(processes, MainPid(c)), image, Identity(host).value)
  }

  lemma AnchoredNeedsRunning(bus: Bus, processes: nat -> Procfs, t: nat, identity: (nat, nat), c: Configuration)
    requires Settled(bus, c, t) && Anchored(bus, processes, t, identity).result.Ok?
    ensures Running(c) && MainPid(c) >= 0
  {
    ReadOfSettled(bus, c, t);
  }

  /**
   With still files, a settled manager and a still main process, an observation of the
   process is reported exactly when tool, account, configuration and process are as
   demanded; and it then counts what is in the process's own memory.
   */
  lemma StillProcessExactly(env: Env, fs: Fs, host: Host, bus: Bus, processes: nat -> Procfs, t: nat, c: Configuration,
                            who: nat, image: StillProcess.Image)
    requires StillFiles.Still(env, fs, t, CheckTool(env, host, t).time) && Settled(bus, c, t)
    requires Complete(c) && MainPid(c) >= 0 ==> StillProcess.Still(ProcessOf(processes, MainPid(c)), who, image, t)
    ensures var run := ObserveProcess(env, host, bus, processes, t);
            && (run.result.Ok? <==> Observable(fs, env.root, host, c, processes, image))
            && (run.result.Ok? ==>
                  run.result == Counts(StillProcess.TakenOf(ProcessOf(processes, MainPid(c)), image)))
  {
    StillToolExactly(env, fs, host, t);
    var tool := CheckTool(env, host, t);
    if tool.result.Ok? && Identity(host).Ok? {
      var identity := Identity(host).value;
      if Anchored(bus, processes, tool.time, identity).result.Ok? {
        AnchoredNeedsRunning(bus, processes, tool.time, identity, c);
      }
      if Running(c) && MainPid(c) >= 0 {
        StillProcess.StillObservationExactly(bus, processes, tool.time, identity, c, who, image);
      }
    }
  }

  // ----- What is counted -----

  /** The first part of a NUL-terminated text. */
  lemma FirstPart(entries: seq<string>, w: string)
    requires ProcStat.NulFree(entries) && ProcStat.NUL !in w
    ensures entries[0] == w <==> w + [ProcStat.NUL] <= ProcStat.NulJoin(entries)
  {
    var first, whole := entries[0], ProcStat.NulJoin(entries);
    assert first + [ProcStat.NUL] <= whole by {
      if |entries| > 1 {
        var rest := Join(entries[1..], ProcStat.NUL) + [ProcStat.NUL];
        assert whole == first + [ProcStat.NUL] + rest;
      }
    }
    if w + [ProcStat.NUL] <= whole {
      assert whole[|first|] == ProcStat.NUL && whole[|w|] == ProcStat.NUL;
      assert forall k :: 0 <= k < |first| ==> whole[k] == first[k];
      assert forall k :: 0 <= k < |w| ==> whole[k] == w[k];
      assert |w| == |first|;
      assert w == whole[..|w|] == first;
    }
  }

  /** An entry sets a variable exactly when it starts with its name and an equals sign. */
  lemma SetsExactly(entry: string, name: string)
    requires '=' !in name
    ensures ProcStat.Setting(entry) && ProcStat.NameOf(entry) == name <==> ProcStat.Name(name) && name + "=" <= entry
  {
    var n := ProcStat.Equals(entry);
    if name + "=" <= entry {
      assert entry[|name|] == '=' && forall k :: 0 <= k < |name| ==> entry[k] == name[k];
      assert n == |name|;
      assert entry[..n] == name;
    }
  }

  lemma {:induction false} JoinIsFree(parts: seq<string>, sep: char, c: char)
    requires c != sep && forall i :: 0 <= i < |parts| ==> c !in parts[i]
    ensures c !in Join(parts, sep)
  {
    if |parts| > 1 {
      JoinIsFree(parts[1..], sep, c);
    }
  }

  lemma PathIsNulFree()
    ensures ProcStat.NUL !in NODE
  {
    JoinIsFree(OperatorCore.TOP, '/', ProcStat.NUL);
    JoinIsFree(OperatorCore.NODE_PARTS, '/', ProcStat.NUL);
  }

  lemma RiskNamesArePlain(i: nat)
    requires i < |RISK_NAMES|
    ensures '=' !in RISK_NAMES[i] && ProcStat.Name(RISK_NAMES[i])
  {
  }

  /** The counts are those of the parts of both texts; the two answers can be read off the texts. */
  lemma CountsExactly(taken: Taken, arguments: seq<string>, settings: seq<string>)
    requires ProcStat.Arguments(taken.cmdline) == Ok(arguments) && ProcStat.EnvironmentOf(taken.environment) == Ok(settings)
    ensures Counts(taken).Ok?
    ensures var o := Counts(taken).value;
            && o.argumentCount == |arguments| && o.environmentEntries == |settings|
            && (o.argv0Matches <==> NODE + [ProcStat.NUL] <= taken.cmdline)
            && (o.overrideNamed <==> exists i, k :: 0 <= i < |settings| && 0 <= k < |RISK_NAMES| && RISK_NAMES[k] + "=" <= settings[i])
  {
    PathIsNulFree();
    ProcStat.ArgumentsExactly(taken.cmdline, arguments);
    FirstPart(arguments, NODE);
    ProcStat.EnvironmentExactly(taken.environment, settings);
    assert settings != [] ==> ProcStat.Environment(settings);
    RiskAmong(settings);
  }

  lemma RiskAmong(settings: seq<string>)
    requires forall i :: 0 <= i < |settings| ==> ProcStat.Setting(settings[i])
    ensures NamesRisk(settings) <==>
            exists i, k :: 0 <= i < |settings| && 0 <= k < |RISK_NAMES| && RISK_NAMES[k] + "=" <= settings[i]
  {
    if NamesRisk(settings) {
      var i :| 0 <= i < |settings| && ProcStat.NameOf(settings[i]) in RISK_NAMES;
      var k :| 0 <= k < |RISK_NAMES| && RISK_NAMES[k] == ProcStat.NameOf(settings[i]);
      RiskNamesArePlain(k);
      SetsExactly(settings[i], RISK_NAMES[k]);
    }
    if i, k :| 0 <= i < |settings| && 0 <= k < |RISK_NAMES| && RISK_NAMES[k] + "=" <= settings[i] {
      RiskNamesArePlain(k);
      SetsExactly(settings[i], RISK_NAMES[k]);
    }
  }
}
