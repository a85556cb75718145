/**
 observe_running_process in siem/rbac/broker_tls/operator_process.py: two snapshots of
 the manager's main process, between three reads of the service's configuration.
 */
module ServiceProcess {
  import opened Common
  import opened Kernel
  import opened OperatorFs
  import opened ProcStat
  import opened ProcessSnapshot
  import opened ServiceConfiguration

  /** What is reported of the process; no value of its command line or environment is. */
  datatype ProcessObservation =
    ProcessObservation(argumentCount: nat, argv0Matches: bool, environmentEntries: nat, overrideNamed: bool)

  function MainPid(c: Configuration): int
    requires Complete(c)
  {
    AsNumber(c.service[10])
  }

  /** Why a configuration is not that of a running service of the expected account. */
  function NotAnchored(c: Configuration): Option<string>
    requires Complete(c)
  {
    if AsText(c.unit[2]) != "active" then Some("PROCESS_NOT_RUNNING")
    else if !(1 < MainPid(c) < 0x1_0000_0000) then Some("PROCESS_PID")
    else if AsNumber(c.service[11]) <= 0 then Some("PROCESS_NOT_RUNNING")
    else if AsText(c.service[5]) != SERVICE || AsText(c.service[6]) != SERVICE then Some("PROCESS_IDENTITY")
    else None
  }

  /** `_anchor` */
  function Anchor(bus: Bus, t: nat): (r: Load<Configuration>)
    ensures r.time >= t && (r.result.Ok? ==> Complete(r.result.value) && MainPid(r.result.value) > 1)
  {
    var read := ReadConfiguration(bus, t);
    if read.result.Ok? && NotAnchored(read.result.value).Some? then Load(read.time, Err(NotAnchored(read.result.value).value))
    else read
  }

  /** In this observer every operating-system failure has one code. */
  function Coded(e: Error): string {
    match e
    case Operator(code) => code
    case Os(errno) => "PROCESS_IO"
  }

  /** A snapshot and the anchor after it, which must be the one before it. */
  function Step(bus: Bus, process: Procfs, t: nat, identity: (nat, nat), anchor: Configuration): (r: Load<Taken>)
    ensures r.time >= t
  {
    var snapshot := Snapshot(process, t, identity);
    if snapshot.result.Err? then Load(snapshot.time, Err(Coded(snapshot.result.error)))
    else
      var again := Anchor(bus, snapshot.time);
      if again.result.Err? then Load(again.time, Err(again.result.error))
      else if again.result.value != anchor then Load(again.time, Err("PROCESS_CHANGED"))
      else Load(again.time, Ok(snapshot.result.value))
  }

  function TwoSteps(bus: Bus, process: Procfs, t: nat, identity: (nat, nat), anchor: Configuration): (r: Load<Taken>)
    ensures r.time >= t
  {
    var first := Step(bus, process, t, identity, anchor);
    if first.result.Err? then first
    else
      var second := Step(bus, process, first.time, identity, anchor);
      if second.result.Ok? && second.result.value != first.result.value then Load(second.time, Err("PROCESS_CHANGED"))
      else second
  }

  /** The counts that are reported of a snapshot. */
  function Counts(taken: Taken): Result<ProcessObservation, string> {
    var arguments, environment := Arguments(taken.cmdline), EnvironmentOf(taken.environment);
    if arguments.Err? then Err(arguments.error)
    else if environment.Err? then Err(environment.error)
    else Ok(ProcessObservation(|arguments.value|, arguments.value != [] && arguments.value[0] == NODE,
                               |environment.value|, NamesRisk(environment.value)))
  }

  /** The processes that had a PID, by PID. */
  function ProcessOf(processes: nat -> Procfs, pid: nat): Procfs { processes(pid).(pid := pid) }

  /** What follows the first anchor. */
  function Anchored(bus: Bus, processes: nat -> Procfs, t: nat, identity: (nat, nat)): (r: Load<ProcessObservation>)
    ensures r.time >= t
  {
    var anchor := Anchor(bus, t);
    if anchor.result.Err? then Load(anchor.time, Err(anchor.result.error))
    else
      var c := anchor.result.value;
      var steps := TwoSteps(bus, ProcessOf(processes, MainPid(c)), anchor.time, identity, c);
      Load(steps.time, if steps.result.Err? then Err(steps.result.error) else Counts(steps.result.value))
  }

  function ObserveProcess(env: Env, host: Host, bus: Bus, processes: nat -> Procfs, t: nat): (r: Load<ProcessObservation>)
    ensures r.time >= t
  {
    var tool := CheckTool(env, host, t);
    if tool.result.Err? then Load(tool.time, Err(tool.result.error))
    else if Identity(host).Err? then Load(tool.time, Err(Identity(host).error))
    else Anchored(bus, processes, tool.time, Identity(host).value)
  }

  // ----- The same, step by step -----

  method ReadAnchor(bus: Bus, t: nat) returns (r: Result<Configuration, string>, clock: nat)
    ensures Load(clock, r) == Anchor(bus, t)
  {
    r, clock := ReadProperties(bus, t);
    if r.Ok? {
      var refused := NotAnchored(r.value);
      if refused.Some? {
        r := Err(refused.value);
      }
    }
  }

  /** One turn of the loop. */
  method TakeStep(bus: Bus, process: Procfs, table: Table, t: nat, identity: (nat, nat), anchor: Configuration)
    returns (r: Result<Taken, string>, clock: nat)
    modifies table
    ensures table.open == old(table.open)
    ensures Load(clock, r) == Step(bus, process, t, identity, anchor)
  {
    var taken, again;
    taken, clock := NativeSnapshot(process, table, t, identity);
    if taken.Err? {
      return Err(Coded(taken.error)), clock;
    }
    again, clock := ReadAnchor(bus, clock);
    if again.Err? {
      return Err(again.error), clock;
    }
    r := if again.value != anchor then Err("PROCESS_CHANGED") else Ok(taken.value);
  }

  method TakeSnapshots(bus: Bus, process: Procfs, table: Table, t: nat, identity: (nat, nat), anchor: Configuration)
    returns (r: Result<Taken, string>, clock: nat)
    modifies table
    ensures table.open == old(table.open)
    ensures Load(clock, r) == TwoSteps(bus, process, t, identity, anchor)
  {
    var snapshots: seq<Taken> := [];
    clock := t;
    ghost var middle := Step(bus, process, t, identity, anchor).time;
    for pass := 0 to 2
      invariant |snapshots| == pass && table.open == old(table.open)
      invariant pass == 0 ==> clock == t
      invariant pass >= 1 ==> Step(bus, process, t, identity, anchor) == Load(middle, Ok(snapshots[0]))
      invariant pass == 1 ==> clock == middle
      invariant pass == 2 ==> Step(bus, process, middle, identity, anchor) == Load(clock, Ok(snapshots[1]))
    {
      var taken;
      taken, clock := TakeStep(bus, process, table, clock, identity, anchor);
      if taken.Err? {
        return taken, clock;
      }
      snapshots := snapshots + [taken.value];
    }
    r := if snapshots[0] != snapshots[1] then Err("PROCESS_CHANGED") else Ok(snapshots[1]);
  }

  /** `observe_running_process`: nothing that it opens stays open, however it ends. */
  method ObserveRunningProcess(p: Process, host: Host, bus: Bus, processes: nat -> Procfs, table: Table)
    returns (r: Result<ProcessObservation, string>, clock: nat)
    requires p.Valid()
    modifies p, table
    ensures p.Valid() && p.descriptors == old(p.descriptors) && table.open == old(table.open)
    ensures Load(clock, r) == ObserveProcess(p.env, host, bus, processes, old(p.clock))
  {
    var tool := TrustTool(p, host);
    clock := p.clock;
    if tool.Err? {
      return Err(tool.error), clock;
    }
    var identity := Identity(host);
    if identity.Err? {
      return Err(identity.error), clock;
    }
    var anchor, taken;
    anchor, clock := ReadAnchor(bus, clock);
    if anchor.Err? {
      return Err(anchor.error), clock;
    }
    taken, clock := TakeSnapshots(bus, ProcessOf(processes, MainPid(anchor.value)), table, clock, identity.value, anchor.value);
    r := if taken.Err? then Err(taken.error) else Counts(taken.value);
  }

  // ----- What acceptance means -----

  lemma StepParts(bus: Bus, process: Procfs, t: nat, identity: (nat, nat), anchor: Configuration)
    requires Step(bus, process, t, identity, anchor).result.Ok?
    ensures var snapshot := Snapshot(process, t, identity);
            var again := Anchor(bus, snapshot.time);
            && snapshot.result.Ok? && again.result == Ok(anchor)
            && Step(bus, process, t, identity, anchor) == Load(again.time, Ok(snapshot.result.value))
  {
  }

  lemma StepsParts(bus: Bus, process: Procfs, t: nat, identity: (nat, nat), anchor: Configuration)
    requires TwoSteps(bus, process, t, identity, anchor).result.Ok?
    ensures var first := Step(bus, process, t, identity, anchor);
            var second := Step(bus, process, first.time, identity, anchor);
            first.result.Ok? && second.result == first.result && TwoSteps(bus, process, t, identity, anchor) == second
  {
  }

  lemma AnchorIsRead(bus: Bus, t: nat)
    requires Anchor(bus, t).result.Ok?
    ensures Anchor(bus, t) == ReadConfiguration(bus, t) && NotAnchored(Anchor(bus, t).result.value).None?
  {
  }

  /** In this window the manager's properties do not change. */
  ghost predicate Configured(bus: Bus, c: Configuration, first: nat, last: nat) {
    forall instant :: first <= instant <= last ==> ConfigurationAt(bus, instant) == c
  }

  /**
   If no property goes back to an earlier value and a reused PID gets a later start time,
   then what is reported was counted in the command line and the environment of one
   process instance, and during all that time it had the PID that the manager, whose
   configuration did not change either, gave as the main process of the running service.
   */
  lemma ObservedProcessIsMain(bus: Bus, processes: nat -> Procfs, t: nat, identity: (nat, nat))
    returns (c: Configuration, taken: Taken, who: nat, first: nat, last: nat)
    requires PropertiesNeverReturn(bus)
    requires forall n :: LaterReuse(ProcessOf(processes, n)) && RendersStat(ProcessOf(processes, n))
    requires Anchored(bus, processes, t, identity).result.Ok?
    ensures Complete(c) && MainPid(c) > 1 && NotAnchored(c).None? && Configured(bus, c, first, last)
    ensures BelongsTo(ProcessOf(processes, MainPid(c)), taken, who, first, last)
    ensures t < first && last <= Anchored(bus, processes, t, identity).time
    ensures Anchored(bus, processes, t, identity).result == Counts(taken)
  {
    var anchor := Anchor(bus, t);
    c := anchor.result.value;
    var process := ProcessOf(processes, MainPid(c));
    StepsParts(bus, process, anchor.time, identity, c);
    StepParts(bus, process, anchor.time, identity, c);
    var middle := Step(bus, process, anchor.time, identity, c);
    StepParts(bus, process, middle.time, identity, c);
    var two := Snapshot(process, middle.time, identity);
    taken := two.result.value;
    who, first, last := EqualSnapshotsOneProcess(process, anchor.time, middle.time, identity);
    AnchorIsRead(bus, t);
    AnchorIsRead(bus, two.time);
    forall instant | first <= instant <= last ensures ConfigurationAt(bus, instant) == c {
      ReadsAgree(bus, t, two.time, instant);
    }
  }

  // ----- What is there is reported -----

  /** By the names of the properties: a running service of the expected account with a main process. */
  lemma AnchorsExactly(c: Configuration)
    requires Complete(c)
    ensures NotAnchored(c).None? <==>
            && AsText(UnitValue(c, "ActiveState")) == "active"
            && 1 < AsNumber(ServiceValue(c, "MainPID")) < 0x1_0000_0000
            && AsNumber(ServiceValue(c, "ExecMainStartTimestampMonotonic")) > 0
            && AsText(ServiceValue(c, "User")) == "wazuh-dashboard" && AsText(ServiceValue(c, "Group")) == "wazuh-dashboard"
    ensures MainPid(c) == AsNumber(ServiceValue(c, "MainPID"))
  {
    UnitByName(c);
    ServiceAt(c, 10, "MainPID");
    ServiceAt(c, 11, "ExecMainStartTimestampMonotonic");
    ServiceAt(c, 5, "User");
    ServiceAt(c, 6, "Group");
  }

  /** Both snapshots, wherever they fall, give this. */
  ghost predicate Steady(process: Procfs, identity: (nat, nat), taken: Taken, first: nat) {
    forall t :: first <= t ==> Snapshot(process, t, identity).result == Ok(taken)
  }

  lemma AnchorOfSettled(bus: Bus, c: Configuration, t: nat)
    requires Settled(bus, c, t) && Complete(c) && Summarize(c).Ok? && NotAnchored(c).None?
    ensures Anchor(bus, t).result == Ok(c)
  {
    ReadOfSettled(bus, c, t);
  }

  lemma StepOfSteady(bus: Bus, c: Configuration, process: Procfs, t: nat, identity: (nat, nat), taken: Taken)
    requires Settled(bus, c, t) && Complete(c) && Summarize(c).Ok? && NotAnchored(c).None?
    requires Snapshot(process, t, identity).result == Ok(taken)
    ensures Step(bus, process, t, identity, c).result == Ok(taken)
  {
    AnchorOfSettled(bus, c, Snapshot(process, t, identity).time);
  }

  /** A steady main process of a settled, running service is reported as it is. */
  lemma SteadyIsReported(bus: Bus, processes: nat -> Procfs, t: nat, identity: (nat, nat), c: Configuration, taken: Taken)
    requires Settled(bus, c, t) && Complete(c) && Summarize(c).Ok? && NotAnchored(c).None?
    requires MainPid(c) >= 0 && Steady(ProcessOf(processes, MainPid(c)), identity, taken, t)
    ensures Anchored(bus, processes, t, identity).result == Counts(taken)
  {
    AnchorOfSettled(bus, c, t);
    var process, start := ProcessOf(processes, MainPid(c)), Anchor(bus, t).time;
    StepOfSteady(bus, c, process, start, identity, taken);
    StepOfSteady(bus, c, process, Step(bus, process, start, identity, c).time, identity, taken);
  }
}
