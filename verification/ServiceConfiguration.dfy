/**
 siem/rbac/broker_tls/operator_service.py: the service's properties, as systemd's manager
 reports them. They are asked for one by one, twice over, and may change in between.
 */
module ServiceConfiguration {
  import opened Common
  import opened DoubleCollect
  import opened Kernel
  import opened OperatorFs
  import OperatorCore
  import ProcStat

  const UNIT := "wazuh-dashboard.service"
  const WRAPPER := OperatorCore.BASE + "bin/opensearch-dashboards"
  const DIRECTORY := "/usr/share/wazuh-dashboard"
  const TOOL_PARTS := ["usr", "bin", "busctl"]
  const MAX_TOOL := 16 * 1024 * 1024
  const RISK_NAMES: seq<string> := ["NODE_OPTIONS", "NODE_PATH", "NODE_HOME", "NODE", "LD_PRELOAD", "LD_LIBRARY_PATH", "PATH"]

  const STATES: seq<string> := ["active", "inactive", "failed"]

  // ----- Values and their signatures -----

  /** One row of ExecStartEx: the path, the arguments, the flags and seven numbers. */
  datatype Command = Command(path: string, arguments: seq<string>, flags: seq<string>, numbers: seq<int>)

  /** The `data` of one reply; `Other` is any value that no signature below admits. */
  datatype Value =
    | Text(text: string)
    | Flag(flag: bool)
    | Number(number: int)
    | Texts(texts: seq<string>)
    | Files(files: seq<(string, bool)>)
    | Commands(commands: seq<Command>)
    | Other

  /** `s`, `b`, `u`, `t`, `as`, `a(sb)` and `a(sasasttttuii)`. */
  datatype Signature = S | B | U | T | Strings | Environments | Rows

  /** No control characters. */
  predicate Printable(s: string) { forall i :: 0 <= i < |s| ==> 0x20 <= s[i] as int != 0x7f }

  predicate AllPrintable(texts: seq<string>) { forall i :: 0 <= i < |texts| ==> Printable(texts[i]) }

  predicate Within(n: int, bits: nat, signed: bool)
    requires bits == 32 || bits == 64
  {
    var limit := if bits == 32 then 0x1_0000_0000 else 0x1_0000_0000_0000_0000;
    if signed then -limit <= 2 * n < limit else 0 <= n < limit
  }

  /** `tttt`, `u` and `ii` */
  predicate NumbersFit(numbers: seq<int>) {
    && |numbers| == 7 && (forall i :: 0 <= i < 4 ==> Within(numbers[i], 64, false))
    && Within(numbers[4], 32, false) && Within(numbers[5], 32, true) && Within(numbers[6], 32, true)
  }

  predicate CommandFits(c: Command) {
    Printable(c.path) && AllPrintable(c.arguments) && AllPrintable(c.flags) && NumbersFit(c.numbers)
  }

  /** `_valid` */
  predicate Fits(v: Value, signature: Signature) {
    match signature
    case S => v.Text? && Printable(v.text)
    case B => v.Flag?
    case U => v.Number? && Within(v.number, 32, false)
    case T => v.Number? && Within(v.number, 64, false)
    case Strings => v.Texts? && AllPrintable(v.texts)
    case Environments => v.Files? && forall i :: 0 <= i < |v.files| ==> Printable(v.files[i].0)
    case Rows => v.Commands? && forall i :: 0 <= i < |v.commands| ==> CommandFits(v.commands[i])
  }

  type Group = seq<(string, Signature)>

  const UNIT_GROUP: Group :=
    [("Id", S), ("LoadState", S), ("ActiveState", S), ("FragmentPath", S), ("DropInPaths", Strings), ("NeedDaemonReload", B)]

  const SERVICE_GROUP: Group :=
    [("ExecStartEx", Rows), ("Environment", Strings), ("EnvironmentFiles", Environments), ("PassEnvironment", Strings),
     ("UnsetEnvironment", Strings), ("User", S), ("Group", S), ("WorkingDirectory", S), ("RootDirectory", S),
     ("RootImage", S), ("MainPID", U), ("ExecMainStartTimestampMonotonic", T)]

  predicate AllFit(values: seq<Value>, group: Group) {
    |values| == |group| && forall i :: 0 <= i < |values| ==> Fits(values[i], group[i].1)
  }

  /** The values of both groups. */
  datatype Configuration = Configuration(unit: seq<Value>, service: seq<Value>)

  predicate Complete(c: Configuration) { AllFit(c.unit, UNIT_GROUP) && AllFit(c.service, SERVICE_GROUP) }

  /** What a value that fits its signature holds. */
  function AsText(v: Value): string { if v.Text? then v.text else "" }
  function AsFlag(v: Value): bool { v.Flag? && v.flag }
  function AsNumber(v: Value): int { if v.Number? then v.number else 0 }
  function AsTexts(v: Value): seq<string> { if v.Texts? then v.texts else [] }
  function AsFiles(v: Value): seq<(string, bool)> { if v.Files? then v.files else [] }
  function AsCommands(v: Value): seq<Command> { if v.Commands? then v.commands else [] }

  // ----- _summarize -----

  datatype Kind = PackagedNode | DashboardWrapper | OtherProgram

  datatype Observation = Observation(
    activeState: string, execStarts: nat, configured: Kind, execFlags: bool, environmentEntries: nat, overrideNamed: bool,
    environmentFiles: nat, passEntries: nat, unsetEntries: nat, userMatches: bool, groupMatches: bool, directoryMatches: bool,
    alternateRoot: bool, fragment: bool, dropIns: nat)

  /** Some entry sets a variable that the runtime reacts to. */
  predicate NamesRisk(entries: seq<string>) {
    exists i :: 0 <= i < |entries| && ProcStat.NameOf(entries[i]) in RISK_NAMES
  }

  function KindOf(commands: seq<Command>): Kind {
    if |commands| != 1 then OtherProgram
    else if commands[0].path == OperatorCore.NODE then PackagedNode
    else if commands[0].path == WRAPPER then DashboardWrapper
    else OtherProgram
  }

  predicate HasFlags(commands: seq<Command>) {
    exists i :: 0 <= i < |commands| && commands[i].flags != []
  }

  /** What is reported of accepted values. */
  function Report(u: seq<Value>, s: seq<Value>): Observation
    requires |u| == 6 && |s| == 12
  {
    Observation(AsText(u[2]), |AsCommands(s[0])|, KindOf(AsCommands(s[0])), HasFlags(AsCommands(s[0])),
                |AsTexts(s[1])|, NamesRisk(AsTexts(s[1])), |AsFiles(s[2])|, |AsTexts(s[3])|, |AsTexts(s[4])|,
                AsText(s[5]) == SERVICE, AsText(s[6]) == SERVICE, AsText(s[7]) == DIRECTORY,
                AsText(s[8]) != "" || AsText(s[9]) != "", AsText(u[3]) != "", |AsTexts(u[4])|)
  }

  function Summarize(c: Configuration): Result<Observation, string>
    requires |c.unit| == 6 && |c.service| == 12
  {
    if AsText(c.unit[0]) != UNIT || AsText(c.unit[1]) != "loaded" then Err("SERVICE_IDENTITY")
    else if AsFlag(c.unit[5]) then Err("SERVICE_RELOAD_PENDING")
    else if AsText(c.unit[2]) !in STATES then Err("SERVICE_TRANSITION")
    else if !ProcStat.Environment(AsTexts(c.service[1])) then Err("SERVICE_ENVIRONMENT")
    else Ok(Report(c.unit, c.service))
  }

  /** The loop over the environment: the names, if every entry sets one and none is set twice. */
  method NamesOf(entries: seq<string>) returns (r: Option<set<string>>)
    ensures r.Some? <==> ProcStat.Environment(entries)
    ensures r.Some? ==> Named(r.value, entries)
  {
    var names: set<string> := {};
    for i := 0 to |entries|
      invariant ProcStat.Environment(entries[..i]) && Named(names, entries[..i])
    {
      var entry := entries[i];
      NextEntry(entries, i, names);
      if ProcStat.Equals(entry) == |entry| || !ProcStat.Name(ProcStat.NameOf(entry)) || ProcStat.NameOf(entry) in names {
        return None;
      }
      names := names + {ProcStat.NameOf(entry)};
    }
    assert entries[..|entries|] == entries;
    r := Some(names);
  }

  /** One more entry: it sets a variable that the earlier ones do not. */
  lemma NextEntry(entries: seq<string>, i: nat, names: set<string>)
    requires i < |entries| && ProcStat.Environment(entries[..i]) && Named(names, entries[..i])
    ensures var name := ProcStat.NameOf(entries[i]);
            if ProcStat.Setting(entries[i]) && name !in names
            then ProcStat.Environment(entries[..i + 1]) && Named(names + {name}, entries[..i + 1])
            else !ProcStat.Environment(entries)
  {
    assert entries[..i + 1] == entries[..i] + [entries[i]];
    if ProcStat.Setting(entries[i]) {
      if ProcStat.NameOf(entries[i]) in names {
        NameTwice(entries, i, names);
      } else {
        EnvironmentGrows(names, entries[..i], entries[i]);
        NamesGrow(names, entries[..i], entries[i]);
      }
    }
  }

  lemma EnvironmentGrows(names: set<string>, before: seq<string>, entry: string)
    requires ProcStat.Environment(before) && Named(names, before)
    requires ProcStat.Setting(entry) && ProcStat.NameOf(entry) !in names
    ensures ProcStat.Environment(before + [entry])
  {
  }

  lemma NameTwice(entries: seq<string>, i: nat, names: set<string>)
    requires i < |entries| && Named(names, entries[..i]) && ProcStat.NameOf(entries[i]) in names
    ensures !ProcStat.Environment(entries)
  {
    var k :| 0 <= k < |entries[..i]| && ProcStat.NameOf(entries[..i][k]) == ProcStat.NameOf(entries[i]);
    assert entries[k] == entries[..i][k];
  }

  lemma NamesGrow(names: set<string>, before: seq<string>, entry: string)
    requires Named(names, before) && ProcStat.NameOf(entry) !in names
    ensures Named(names + {ProcStat.NameOf(entry)}, before + [entry])
  {
    var upto := before + [entry];
    assert upto[|before|] == entry;
    forall n ensures n in names + {ProcStat.NameOf(entry)} <==> exists k :: 0 <= k < |upto| && ProcStat.NameOf(upto[k]) == n {
      if n in names {
        var k :| 0 <= k < |before| && ProcStat.NameOf(before[k]) == n;
        assert upto[k] == before[k];
      }
    }
  }

  // ----- Reading the properties -----

  /**
   The manager: each property over time, and what a query that starts at a time fails
   with, if it fails (a limit, a timeout, the tool's exit status, a reply that is not JSON).
   */
  datatype Bus = Bus(property: string -> nat -> Value, gap: nat -> nat, failure: nat -> Option<string>)

  function Registers(bus: Bus, group: Group): (r: seq<nat -> Value>)
    ensures |r| == |group| && forall i :: 0 <= i < |r| ==> r[i] == bus.property(group[i].0)
  {
    if group == [] then [] else [bus.property(group[0].0)] + Registers(bus, group[1..])
  }

  /** `_query` and `parse_properties` */
  function Query(bus: Bus, group: Group, t: nat): (r: Load<seq<Value>>)
    ensures r.time >= t && (r.result.Ok? ==> AllFit(r.result.value, group))
  {
    if bus.failure(t).Some? then Load(t, Err(bus.failure(t).value))
    else
      var pass := Collect(Registers(bus, group), bus.gap, t);
      Load(pass.end, if AllFit(pass.values, group) then Ok(pass.values) else Err("SERVICE_SHAPE"))
  }

  /** `_read_configuration` */
  function ReadConfiguration(bus: Bus, t: nat): (r: Load<Configuration>)
    ensures r.time >= t && (r.result.Ok? ==> Complete(r.result.value))
  {
    var unit := Query(bus, UNIT_GROUP, t);
    if unit.result.Err? then Load(unit.time, Err(unit.result.error))
    else
      var service := Query(bus, SERVICE_GROUP, unit.time);
      if service.result.Err? then Load(service.time, Err(service.result.error))
      else
        var c := Configuration(unit.result.value, service.result.value);
        var summary := Summarize(c);
        Load(service.time, if summary.Err? then Err(summary.error) else Ok(c))
  }

  /** `_check_tool`: root's busctl is read, and only then trusted to be called. */
  function CheckTool(env: Env, host: Host, t: nat): (r: Load<seq<byte>>)
    ensures r.time >= t
  {
    if Platform(host).Some? then Load(t, Err(Platform(host).value))
    else Reported(ReadsRoot(env, t, TOOL_PARTS, MAX_TOOL, RootOnly))
  }

  function RootOnly(parts: seq<string>): set<(nat, nat)> { {(0, 0)} }

  /** `observe_service_configuration` */
  function Observe(env: Env, host: Host, bus: Bus, t: nat): Load<Observation> {
    var tool := CheckTool(env, host, t);
    if tool.result.Err? then Load(tool.time, Err(tool.result.error))
    else
      var first := ReadConfiguration(bus, tool.time);
      if first.result.Err? then Load(first.time, Err(first.result.error))
      else
        var second := ReadConfiguration(bus, first.time);
        if second.result.Err? then Load(second.time, Err(second.result.error))
        else if first.result.value != second.result.value then Load(second.time, Err("SERVICE_CHANGED"))
        else Load(second.time, Summarize(second.result.value))
  }

  method QueryGroup(bus: Bus, group: Group, t: nat) returns (r: Result<seq<Value>, string>, clock: nat)
    ensures Load(clock, r) == Query(bus, group, t)
  {
    clock := t;
    var failed := bus.failure(clock);
    if failed.Some? {
      return Err(failed.value), clock;
    }
    var values;
    values, clock := ObservePass(Registers(bus, group), bus.gap, clock);
    for i := 0 to |values|
      invariant forall k :: 0 <= k < i ==> Fits(values[k], group[k].1)
    {
      if !Fits(values[i], group[i].1) {
        return Err("SERVICE_SHAPE"), clock;
      }
    }
    r := Ok(values);
  }

  method SummarizeValues(c: Configuration) returns (r: Result<Observation, string>)
    requires |c.unit| == 6 && |c.service| == 12
    ensures r == Summarize(c)
  {
    if AsText(c.unit[0]) != UNIT || AsText(c.unit[1]) != "loaded" {
      return Err("SERVICE_IDENTITY");
    }
    if AsFlag(c.unit[5]) {
      return Err("SERVICE_RELOAD_PENDING");
    }
    if AsText(c.unit[2]) !in STATES {
      return Err("SERVICE_TRANSITION");
    }
    var names := NamesOf(AsTexts(c.service[1]));
    if names.None? {
      return Err("SERVICE_ENVIRONMENT");
    }
    var risky := exists n :: n in names.value && n in RISK_NAMES;
    RiskAmongNames(AsTexts(c.service[1]), names.value);
    r := Ok(Report(c.unit, c.service).(environmentEntries := |names.value|, overrideNamed := risky));
  }

  /** The names are those of the entries, each entry's once. */
  ghost predicate Named(names: set<string>, entries: seq<string>) {
    |names| == |entries| && forall n :: n in names <==> exists k :: 0 <= k < |entries| && ProcStat.NameOf(entries[k]) == n
  }

  lemma RiskAmongNames(entries: seq<string>, names: set<string>)
    requires Named(names, entries)
    ensures NamesRisk(entries) <==> exists n :: n in names && n in RISK_NAMES
  {
  }

  method ReadProperties(bus: Bus, t: nat) returns (r: Result<Configuration, string>, clock: nat)
    ensures Load(clock, r) == ReadConfiguration(bus, t)
  {
    var unit, service;
    unit, clock := QueryGroup(bus, UNIT_GROUP, t);
    if unit.Err? {
      return Err(unit.error), clock;
    }
    service, clock := QueryGroup(bus, SERVICE_GROUP, clock);
    if service.Err? {
      return Err(service.error), clock;
    }
    var c := Configuration(unit.value, service.value);
    var summary := SummarizeValues(c);
    r := if summary.Err? then Err(summary.error) else Ok(c);
  }

  method TrustTool(p: Process, host: Host) returns (r: Result<seq<byte>, string>)
    requires p.Valid()
    modifies p
    ensures p.Valid() && p.descriptors == old(p.descriptors)
    ensures Load(p.clock, r) == CheckTool(p.env, host, old(p.clock))
  {
    var refused := Platform(host);
    if refused.Some? {
      return Err(refused.value);
    }
    var raw := ReadRoot(p, TOOL_PARTS, MAX_TOOL, RootOnly);
    r := if raw.Ok? then Ok(raw.value) else Err(Static(raw.error));
  }

  method ObserveServiceConfiguration(p: Process, host: Host, bus: Bus) returns (r: Result<Observation, string>, clock: nat)
    requires p.Valid()
    modifies p
    ensures p.Valid() && p.descriptors == old(p.descriptors)
    ensures Load(clock, r) == Observe(p.env, host, bus, old(p.clock))
  {
    var tool := TrustTool(p, host);
    clock := p.clock;
    if tool.Err? {
      return Err(tool.error), clock;
    }
    ghost var start := clock;
    var snapshots: seq<Configuration> := [];
    for pass := 0 to 2
      invariant |snapshots| == pass && p.Valid() && p.descriptors == old(p.descriptors)
      invariant pass == 0 ==> clock == start
      invariant pass >= 1 ==> ReadConfiguration(bus, start).result == Ok(snapshots[0])
      invariant pass == 1 ==> clock == ReadConfiguration(bus, start).time
      invariant pass == 2 ==> ReadConfiguration(bus, ReadConfiguration(bus, start).time) == Load(clock, Ok(snapshots[1]))
    {
      var c;
      c, clock := ReadProperties(bus, clock);
      if c.Err? {
        return Err(c.error), clock;
      }
      snapshots := snapshots + [c.value];
    }
    if snapshots[0] != snapshots[1] {
      return Err("SERVICE_CHANGED"), clock;
    }
    r := SummarizeValues(snapshots[1]);
  }

  // ----- What acceptance means -----

  function ValuesAt(bus: Bus, group: Group, t: nat): (r: seq<Value>)
    ensures |r| == |group| && forall i :: 0 <= i < |r| ==> r[i] == bus.property(group[i].0)(t)
  {
    seq(|group|, i requires 0 <= i < |group| => bus.property(group[i].0)(t))
  }

  /** All properties at one time. */
  function ConfigurationAt(bus: Bus, t: nat): Configuration {
    Configuration(ValuesAt(bus, UNIT_GROUP, t), ValuesAt(bus, SERVICE_GROUP, t))
  }

  ghost predicate PropertiesNeverReturn(bus: Bus) {
    forall name :: NeverReturns(bus.property(name))
  }

  /** Two queries that end well with equal values show those values at every time between them. */
  lemma QueriesAgree(bus: Bus, group: Group, t: nat, u: nat, instant: nat)
    requires PropertiesNeverReturn(bus) && Query(bus, group, t).result.Ok?
    requires Query(bus, group, u).result == Query(bus, group, t).result
    requires Query(bus, group, t).time <= instant <= u
    ensures ValuesAt(bus, group, instant) == Query(bus, group, t).result.value
  {
    var registers, values := Registers(bus, group), Query(bus, group, t).result.value;
    forall i | 0 <= i < |group| ensures ValuesAt(bus, group, instant)[i] == values[i] {
      var a := ReadDuringPass(registers, bus.gap, t, i);
      var b := ReadDuringPass(registers, bus.gap, u, i);
      HeldBetween(bus.property(group[i].0), a, instant, b);
    }
  }

  /** Two reads of the configuration that agree show it whole at every time between them. */
  lemma ReadsAgree(bus: Bus, t: nat, u: nat, instant: nat)
    requires PropertiesNeverReturn(bus) && ReadConfiguration(bus, t).result.Ok?
    requires ReadConfiguration(bus, u).result == ReadConfiguration(bus, t).result
    requires ReadConfiguration(bus, t).time <= instant <= u
    ensures ConfigurationAt(bus, instant) == ReadConfiguration(bus, t).result.value
  {
    QueriesAgree(bus, UNIT_GROUP, t, u, instant);
    QueriesAgree(bus, SERVICE_GROUP, Query(bus, UNIT_GROUP, t).time, Query(bus, UNIT_GROUP, u).time, instant);
  }

  /**
   If no property goes back to an earlier value, what is reported is the summary of all
   properties as they were together when the first pass ended.
   */
  lemma ObservationIsSnapshot(env: Env, host: Host, bus: Bus, t: nat)
    requires PropertiesNeverReturn(bus) && Observe(env, host, bus, t).result.Ok?
    ensures var instant := ReadConfiguration(bus, CheckTool(env, host, t).time).time;
            && t <= instant <= Observe(env, host, bus, t).time && Complete(ConfigurationAt(bus, instant))
            && Observe(env, host, bus, t).result == Summarize(ConfigurationAt(bus, instant))
  {
    var first := ReadConfiguration(bus, CheckTool(env, host, t).time);
    ReadsAgree(bus, CheckTool(env, host, t).time, first.time, first.time);
  }

  // ----- By the names of the properties -----

  /** The value of a property in a group's reply. */
  function Lookup(values: seq<Value>, group: Group, name: string): Value
    requires |values| == |group|
  {
    if group == [] then Other else if group[0].0 == name then values[0] else Lookup(values[1..], group[1..], name)
  }

  function NamesIn(group: Group): (names: seq<string>)
    ensures |names| == |group| && forall i :: 0 <= i < |group| ==> names[i] == group[i].0
  {
    seq(|group|, i requires 0 <= i < |group| => group[i].0)
  }

  lemma {:induction false} LookupAt(values: seq<Value>, group: Group, i: nat)
    requires |values| == |group| && i < |group| && NoRepeats(NamesIn(group))
    ensures Lookup(values, group, group[i].0) == values[i]
  {
    if i > 0 {
      assert NamesIn(group)[0] != NamesIn(group)[i];
      assert NamesIn(group[1..]) == NamesIn(group)[1..];
      LookupAt(values[1..], group[1..], i - 1);
    }
  }

  lemma UnitNamesDiffer()
    ensures NoRepeats(NamesIn(UNIT_GROUP))
  {
  }

  lemma ServiceNamesDiffer()
    ensures NoRepeats(NamesIn(SERVICE_GROUP))
  {
  }

  function UnitValue(c: Configuration, name: string): Value
    requires |c.unit| == 6
  {
    Lookup(c.unit, UNIT_GROUP, name)
  }

  function ServiceValue(c: Configuration, name: string): Value
    requires |c.service| == 12
  {
    Lookup(c.service, SERVICE_GROUP, name)
  }

  lemma UnitByName(c: Configuration)
    requires |c.unit| == 6
    ensures c.unit == [UnitValue(c, "Id"), UnitValue(c, "LoadState"), UnitValue(c, "ActiveState"), UnitValue(c, "FragmentPath"),
                       UnitValue(c, "DropInPaths"), UnitValue(c, "NeedDaemonReload")]
  {
    UnitNamesDiffer();
    forall i | 0 <= i < 6 ensures Lookup(c.unit, UNIT_GROUP, UNIT_GROUP[i].0) == c.unit[i] {
      LookupAt(c.unit, UNIT_GROUP, i);
    }
    assert UNIT_GROUP[0].0 == "Id" && UNIT_GROUP[1].0 == "LoadState" && UNIT_GROUP[2].0 == "ActiveState";
    assert UNIT_GROUP[3].0 == "FragmentPath" && UNIT_GROUP[4].0 == "DropInPaths" && UNIT_GROUP[5].0 == "NeedDaemonReload";
  }

  /** Which configurations can be reported: the loaded unit, up to date, in a settled state, with a valid environment. */
  lemma SummarizesExactly(c: Configuration)
    requires |c.unit| == 6 && |c.service| == 12
    ensures Summarize(c).Ok? <==>
            && AsText(UnitValue(c, "Id")) == "wazuh-dashboard.service" && AsText(UnitValue(c, "LoadState")) == "loaded"
            && !AsFlag(UnitValue(c, "NeedDaemonReload"))
            && AsText(UnitValue(c, "ActiveState")) in {"active", "inactive", "failed"}
            && ProcStat.Environment(AsTexts(ServiceValue(c, "Environment")))
  {
    UnitByName(c);
    ServiceAt(c, 1, "Environment");
  }

  lemma ServiceAt(c: Configuration, i: nat, name: string)
    requires |c.service| == 12 && i < 12 && SERVICE_GROUP[i].0 == name
    ensures ServiceValue(c, name) == c.service[i]
  {
    ServiceNamesDiffer();
    LookupAt(c.service, SERVICE_GROUP, i);
  }

  /** What is reported of the unit. */
  lemma ReportsTheUnit(c: Configuration)
    requires |c.unit| == 6 && |c.service| == 12 && Summarize(c).Ok?
    ensures var o := Summarize(c).value;
            && o.activeState == AsText(UnitValue(c, "ActiveState"))
            && (o.fragment <==> AsText(UnitValue(c, "FragmentPath")) != "") && o.dropIns == |AsTexts(UnitValue(c, "DropInPaths"))|
  {
    UnitByName(c);
  }

  /** What is reported of the account and the directories. */
  lemma ReportsTheAccount(c: Configuration)
    requires |c.unit| == 6 && |c.service| == 12 && Summarize(c).Ok?
    ensures var o := Summarize(c).value;
            && (o.userMatches <==> AsText(ServiceValue(c, "User")) == "wazuh-dashboard")
            && (o.groupMatches <==> AsText(ServiceValue(c, "Group")) == "wazuh-dashboard")
            && (o.directoryMatches <==> AsText(ServiceValue(c, "WorkingDirectory")) == "/usr/share/wazuh-dashboard")
            && (o.alternateRoot <==> AsText(ServiceValue(c, "RootDirectory")) != "" || AsText(ServiceValue(c, "RootImage")) != "")
  {
    ServiceAt(c, 5, "User");
    ServiceAt(c, 6, "Group");
    ServiceAt(c, 7, "WorkingDirectory");
    ServiceAt(c, 8, "RootDirectory");
    ServiceAt(c, 9, "RootImage");
  }

  /** What is reported of the command. */
  lemma ReportsTheCommand(c: Configuration)
    requires |c.unit| == 6 && |c.service| == 12 && Summarize(c).Ok?
    ensures var o, commands := Summarize(c).value, AsCommands(ServiceValue(c, "ExecStartEx"));
            && o.execStarts == |commands|
            && (o.execFlags <==> exists i :: 0 <= i < |commands| && commands[i].flags != [])
            && (o.configured == PackagedNode <==> |commands| == 1 && commands[0].path == OperatorCore.NODE)
            && (o.configured == DashboardWrapper <==> |commands| == 1 && commands[0].path == WRAPPER)
  {
    ServiceAt(c, 0, "ExecStartEx");
    KindsDiffer(AsCommands(c.service[0]));
  }

  lemma KindsDiffer(commands: seq<Command>)
    ensures KindOf(commands) == PackagedNode <==> |commands| == 1 && commands[0].path == OperatorCore.NODE
    ensures KindOf(commands) == DashboardWrapper <==> |commands| == 1 && commands[0].path == WRAPPER
  {
    ProgramsDiffer();
  }

  /** What is reported of the environment. */
  lemma ReportsTheEnvironment(c: Configuration)
    requires |c.unit| == 6 && |c.service| == 12 && Summarize(c).Ok?
    ensures var o, entries := Summarize(c).value, AsTexts(ServiceValue(c, "Environment"));
            && o.environmentEntries == |entries|
            && (o.overrideNamed <==> exists i :: 0 <= i < |entries| && ProcStat.NameOf(entries[i]) in RISK_NAMES)
  {
    ServiceAt(c, 1, "Environment");
  }

  /** What is reported of the other lists. */
  lemma ReportsTheLists(c: Configuration)
    requires |c.unit| == 6 && |c.service| == 12 && Summarize(c).Ok?
    ensures var o := Summarize(c).value;
            && o.environmentFiles == |AsFiles(ServiceValue(c, "EnvironmentFiles"))|
            && o.passEntries == |AsTexts(ServiceValue(c, "PassEnvironment"))|
            && o.unsetEntries == |AsTexts(ServiceValue(c, "UnsetEnvironment"))|
  {
    ServiceAt(c, 2, "EnvironmentFiles");
    ServiceAt(c, 3, "PassEnvironment");
    ServiceAt(c, 4, "UnsetEnvironment");
  }

  lemma ProgramsDiffer()
    ensures OperatorCore.NODE != WRAPPER
  {
    var base := OperatorCore.BASE;
    OperatorCore.SameSuffix(base, OperatorCore.NODE_NAME, "bin/opensearch-dashboards");
    OperatorCore.PinnedNamesDiffer();
    assert OperatorCore.NODE_NAME[0] == 'n' && "bin/opensearch-dashboards"[0] == 'b';
  }

  // ----- A manager that does not change -----

  /** From this time on every property has one value, and no query fails by itself. */
  ghost predicate Settled(bus: Bus, c: Configuration, first: nat) {
    forall t :: first <= t ==> bus.failure(t).None? && ConfigurationAt(bus, t) == c
  }

  lemma QueryOfSettled(bus: Bus, group: Group, values: seq<Value>, t: nat)
    requires bus.failure(t).None? && forall u :: t <= u ==> ValuesAt(bus, group, u) == values
    ensures Query(bus, group, t).result == if AllFit(values, group) then Ok(values) else Err("SERVICE_SHAPE")
  {
    var pass := Collect(Registers(bus, group), bus.gap, t);
    assert |values| == |group| by { assert ValuesAt(bus, group, t) == values; }
    forall i | 0 <= i < |group| ensures pass.values[i] == values[i] {
      var u := ReadDuringPass(Registers(bus, group), bus.gap, t, i);
      assert ValuesAt(bus, group, u)[i] == values[i];
    }
    assert pass.values == values;
  }

  lemma ReadOfSettled(bus: Bus, c: Configuration, t: nat)
    requires Settled(bus, c, t)
    ensures ReadConfiguration(bus, t).result ==
            if !Complete(c) then Err("SERVICE_SHAPE") else if Summarize(c).Err? then Err(Summarize(c).error) else Ok(c)
  {
    var next := Query(bus, UNIT_GROUP, t).time;
    forall u | t <= u ensures bus.failure(u).None? && ValuesAt(bus, UNIT_GROUP, u) == c.unit && ValuesAt(bus, SERVICE_GROUP, u) == c.service {
      assert ConfigurationAt(bus, u) == c;
    }
    QueryOfSettled(bus, UNIT_GROUP, c.unit, t);
    QueryOfSettled(bus, SERVICE_GROUP, c.service, next);
  }

  /** A settled configuration is reported as it is, once the tool is trusted; what cannot be reported fails with its own code. */
  lemma SettledIsReported(env: Env, host: Host, bus: Bus, c: Configuration, t: nat)
    requires CheckTool(env, host, t).result.Ok? && Settled(bus, c, t)
    ensures Observe(env, host, bus, t).result == if Complete(c) then Summarize(c) else Err("SERVICE_SHAPE")
  {
    var start := CheckTool(env, host, t).time;
    ReadOfSettled(bus, c, start);
    ReadOfSettled(bus, c, ReadConfiguration(bus, start).time);
  }
}
