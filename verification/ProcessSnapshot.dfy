/**
 _native_snapshot in siem/rbac/broker_tls/operator_process.py: one pass over the files
 of /proc/<pid>, between two reads of the start time. Processes may exit, and the PID
 may pass to others, between any two calls.
 */
module ProcessSnapshot {
  import opened Common
  import opened Kernel
  import OperatorCore
  import opened OperatorFs
  import opened ProcStat

  const NODE := OperatorCore.NODE
  const EXE_LIMIT := 100 * 1024 * 1024

  /** What /proc/<pid> holds. `Executable` is the file that the magic link leads to. */
  datatype Entry = Itself | StatFile | StatusFile | Cmdline | Environ | Executable

  /** The directories above it. */
  datatype Above = Root | Proc

  /**
   The kernel, by time of call: which process instance has the PID, when an instance
   was started, and the metadata and text of an instance's entries; which calls fail,
   how much a read returns, and what reading through a descriptor of an instance that
   is gone gives. `sha` is the digest.
   */
  datatype Procfs = Procfs(
    pid: nat,
    gap: nat -> nat,
    fault: nat -> Option<Errno>,
    quota: nat -> nat,
    above: (Above, nat) -> Stat,
    owner: nat -> Option<nat>,
    born: nat -> nat,
    meta: (nat, Entry, nat) -> Stat,
    text: (nat, Entry, nat) -> string,
    link: (nat, nat) -> string,
    stale: nat -> string,
    sha: string -> string,
    pinned: string)

  /** A descriptor stays with the instance that had the PID when it was opened. */
  datatype Fd = Fd(instance: nat, entry: Entry, start: nat)

  const CHANGED := Operator("PROCESS_CHANGED")
  const TOO_LARGE := Operator("PROCESS_SIZE")

  // ----- Calls -----

  function AboveAt(p: Procfs, t: nat, a: Above): Result<Stat, Error> {
    if p.fault(t).Some? then Err(Os(p.fault(t).value)) else Ok(p.above(a, t))
  }

  function NamedAt(p: Procfs, t: nat, e: Entry): Result<Stat, Error> {
    if p.fault(t).Some? then Err(Os(p.fault(t).value))
    else if p.owner(t).None? then Err(Os(ENOENT))
    else Ok(p.meta(p.owner(t).value, e, t))
  }

  function OpenedAt(p: Procfs, t: nat, e: Entry): Result<Fd, Error> {
    if p.fault(t).Some? then Err(Os(p.fault(t).value))
    else if p.owner(t).None? then Err(Os(ENOENT))
    else Ok(Fd(p.owner(t).value, e, t))
  }

  function HeldAt(p: Procfs, t: nat, fd: Fd): Result<Stat, Error> {
    if p.fault(t).Some? then Err(Os(p.fault(t).value)) else Ok(p.meta(fd.instance, fd.entry, t))
  }

  function LinkAt(p: Procfs, t: nat): Result<string, Error> {
    if p.fault(t).Some? then Err(Os(p.fault(t).value))
    else if p.owner(t).None? then Err(Os(ENOENT))
    else Ok(p.link(p.owner(t).value, t))
  }

  /** The kernel writes these once, for the first read through a descriptor. */
  predicate Recorded(e: Entry) { e.StatFile? || e.StatusFile? }

  /** The text that a descriptor shows at a time. */
  function Shown(p: Procfs, t: nat, fd: Fd): string {
    p.text(fd.instance, fd.entry, if Recorded(fd.entry) then fd.start else t)
  }

  function Slice(text: string, pos: nat, amount: nat, quota: nat): (s: string)
    requires amount > 0
    ensures |s| <= amount && (s == "" <==> pos >= |text|)
    ensures pos <= |text| ==> pos + |s| <= |text| && s == text[pos..pos + |s|]
  {
    if pos >= |text| then ""
    else
      var most := if amount < |text| - pos then amount else |text| - pos;
      text[pos..pos + (if quota < 1 then 1 else if quota < most then quota else most)]
  }

  /** A read. Records of a process that is gone cannot be read; its memory reads as anything. */
  function ReadingAt(p: Procfs, t: nat, fd: Fd, pos: nat, amount: nat): (r: Result<string, Error>)
    requires amount > 0
    ensures r.Ok? ==> |r.value| <= amount
  {
    if p.fault(t).Some? then Err(Os(p.fault(t).value))
    else if p.owner(t) == Some(fd.instance) || fd.entry.Executable? then Ok(Slice(Shown(p, t, fd), pos, amount, p.quota(t)))
    else if Recorded(fd.entry) then Err(Os(EIO))
    else Ok(if |p.stale(t)| <= amount then p.stale(t) else p.stale(t)[..amount])
  }

  /** `_key` */
  function KeyOf(st: Stat): (Inode, Kind, bv12, nat, nat) {
    (st.inode, st.kind, st.perm, st.uid, st.gid)
  }

  // ----- The reads -----

  function LimitOf(e: Entry): nat {
    match e
    case StatFile => STAT_LIMIT
    case StatusFile => STATUS_LIMIT
    case Cmdline => CMDLINE_LIMIT
    case Environ => ENVIRON_LIMIT
    case Executable => EXE_LIMIT
    case Itself => 0
  }

  function ReadOn(p: Procfs, t: nat, fd: Fd, data: string, limit: nat): (r: Run<string>)
    ensures r.time >= t
    decreases limit + 1 - |data|
  {
    if |data| > limit then Run(t, Ok(data))
    else
      var t1 := Next(p.gap, t);
      var chunk := ReadingAt(p, t1, fd, |data|, Amount(limit, |data|));
      if chunk.Err? then Run(t1, Err(chunk.error))
      else if chunk.value == "" then Run(t1, Ok(data))
      else ReadOn(p, t1, fd, data + chunk.value, limit)
  }

  /** The entry's metadata, its opening, and its metadata again. */
  function Open(p: Procfs, t: nat, e: Entry, owners: set<(nat, nat)>): (r: Run<(Fd, Stat)>)
    ensures r.time > t
  {
    var t1 := Next(p.gap, t);
    var before := NamedAt(p, t1, e);
    if before.Err? then Run(t1, Err(before.error))
    else if !Trusted(before.value, e.Itself?, owners) then Run(t1, Err(FS_METADATA))
    else
      var t2 := Next(p.gap, t1);
      var fd := OpenedAt(p, t2, e);
      if fd.Err? then Run(t2, Err(fd.error))
      else
        var t3 := Next(p.gap, t2);
        var held := HeldAt(p, t3, fd.value);
        if held.Err? then Run(t3, Err(held.error))
        else if KeyOf(before.value) != KeyOf(held.value) then Run(t3, Err(CHANGED))
        else Run(t3, Ok((fd.value, before.value)))
  }

  /** The descriptor and the name still show what they showed before. */
  function Recheck(p: Procfs, t: nat, fd: Fd, before: Stat): (r: Run<Stat>)
    ensures r.time > t
  {
    var t1 := Next(p.gap, t);
    var held := HeldAt(p, t1, fd);
    if held.Err? then Run(t1, Err(held.error))
    else if KeyOf(before) != KeyOf(held.value) then Run(t1, Err(CHANGED))
    else
      var t2 := Next(p.gap, t1);
      var named := NamedAt(p, t2, fd.entry);
      if named.Err? then Run(t2, Err(named.error))
      else if KeyOf(before) != KeyOf(named.value) then Run(t2, Err(CHANGED))
      else Run(t2, Ok(named.value))
  }

  /** `_read_small` */
  function Small(p: Procfs, t: nat, e: Entry, owners: set<(nat, nat)>): (r: Run<string>)
    ensures r.time > t
  {
    var entered := Open(p, t, e, owners);
    if entered.result.Err? then Run(entered.time, Err(entered.result.error))
    else
      var (fd, before) := entered.result.value;
      var data := ReadOn(p, entered.time, fd, "", LimitOf(e));
      if data.result.Err? then data
      else if |data.result.value| > LimitOf(e) then Run(data.time, Err(TOO_LARGE))
      else
        var same := Recheck(p, data.time, fd, before);
        Run(same.time, if same.result.Err? then Err(same.result.error) else data.result)
  }

  /** The digest of the file behind the link, read between two checks of its stamp. */
  function Digest(p: Procfs, t: nat, fd: Fd, owners: set<(nat, nat)>): (r: Run<Inode>)
    ensures r.time > t
  {
    var t1 := Next(p.gap, t);
    var before := HeldAt(p, t1, fd);
    if before.Err? then Run(t1, Err(before.error))
    else if !Trusted(before.value, false, owners) then Run(t1, Err(FS_METADATA))
    else if !(0 < before.value.size <= EXE_LIMIT) then Run(t1, Err(TOO_LARGE))
    else
      var data := ReadOn(p, t1, fd, "", EXE_LIMIT);
      if data.result.Err? then Run(data.time, Err(data.result.error))
      else if |data.result.value| != before.value.size || |data.result.value| > EXE_LIMIT then Run(data.time, Err(TOO_LARGE))
      else
        var t2 := Next(p.gap, data.time);
        var held := HeldAt(p, t2, fd);
        if held.Err? then Run(t2, Err(held.error))
        else if before.value != held.value then Run(t2, Err(CHANGED))
        else
          var t3 := Next(p.gap, t2);
          var named := NamedAt(p, t3, Executable);
          if named.Err? then Run(t3, Err(named.error))
          else if before.value != named.value then Run(t3, Err(CHANGED))
          else
            var t4 := Next(p.gap, t3);
            var link := LinkAt(p, t4);
            if link.Err? then Run(t4, Err(link.error))
            else if link.value != NODE then Run(t4, Err(CHANGED))
            else if p.sha(data.result.value) != p.pinned then Run(t4, Err(Operator("PROCESS_DIGEST")))
            else Run(t4, Ok(before.value.inode))
  }

  /** `_executable` */
  function Exe(p: Procfs, t: nat, owners: set<(nat, nat)>): (r: Run<Inode>)
    ensures r.time > t
  {
    var t1 := Next(p.gap, t);
    var link := LinkAt(p, t1);
    if link.Err? then Run(t1, Err(link.error))
    else if link.value != NODE then Run(t1, Err(Operator("PROCESS_EXECUTABLE")))
    else
      var t2 := Next(p.gap, t1);
      var fd := OpenedAt(p, t2, Executable);
      if fd.Err? then Run(t2, Err(fd.error)) else Digest(p, t2, fd.value, owners)
  }

  // ----- One pass -----

  /** `_Snapshot` */
  datatype Taken = Taken(start: nat, executable: Inode, cmdline: string, environment: string)

  function Started(p: Procfs, t: nat, owners: set<(nat, nat)>): (r: Run<nat>)
    ensures r.time > t
  {
    var stat := Small(p, t, StatFile, owners);
    if stat.result.Err? then Run(stat.time, Err(stat.result.error))
    else
      var start := StartTime(stat.result.value, p.pid);
      Run(stat.time, if start.Err? then Err(Operator(start.error)) else Ok(start.value))
  }

  function Credible(p: Procfs, t: nat, identity: (nat, nat)): (r: Run<string>)
    ensures r.time > t
  {
    var status := Small(p, t, StatusFile, {(0, 0), identity});
    if status.result.Err? then status
    else if !Credentials(status.result.value, identity) then Run(status.time, Err(Operator("PROCESS_IDENTITY")))
    else status
  }

  /** The command line and the environment, both well formed. */
  function Memory(p: Procfs, t: nat, owners: set<(nat, nat)>): (r: Run<(string, string)>)
    ensures r.time > t
  {
    var cmd := Small(p, t, Cmdline, owners);
    if cmd.result.Err? then Run(cmd.time, Err(cmd.result.error))
    else
      var env := Small(p, cmd.time, Environ, owners);
      if env.result.Err? then Run(env.time, Err(env.result.error))
      else if Arguments(cmd.result.value).Err? then Run(env.time, Err(Operator(Arguments(cmd.result.value).error)))
      else if EnvironmentOf(env.result.value).Err? then Run(env.time, Err(Operator(EnvironmentOf(env.result.value).error)))
      else Run(env.time, Ok((cmd.result.value, env.result.value)))
  }

  /** What is read between the two reads of the start time. */
  function Inside(p: Procfs, t: nat, identity: (nat, nat)): (r: Run<(string, string, Inode)>)
    ensures r.time > t
  {
    var owners := {(0, 0), identity};
    var status := Credible(p, t, identity);
    if status.result.Err? then Run(status.time, Err(status.result.error))
    else
      var memory := Memory(p, status.time, owners);
      if memory.result.Err? then Run(memory.time, Err(memory.result.error))
      else
        var exe := Exe(p, memory.time, owners);
        if exe.result.Err? then Run(exe.time, Err(exe.result.error))
        else
          var again := Credible(p, exe.time, identity);
          if again.result.Err? then Run(again.time, Err(again.result.error))
          else Run(again.time, Ok((memory.result.value.0, memory.result.value.1, exe.result.value)))
  }

  function Bracketed(p: Procfs, t: nat, identity: (nat, nat)): (r: Run<Taken>)
    ensures r.time > t
  {
    var owners := {(0, 0), identity};
    var start := Started(p, t, owners);
    if start.result.Err? then Run(start.time, Err(start.result.error))
    else
      var inside := Inside(p, start.time, identity);
      if inside.result.Err? then Run(inside.time, Err(inside.result.error))
      else
        var again := Started(p, inside.time, owners);
        if again.result.Err? then Run(again.time, Err(again.result.error))
        else if again.result.value != start.result.value then Run(again.time, Err(CHANGED))
        else
          var (cmd, env, exe) := inside.result.value;
          Run(again.time, Ok(Taken(start.result.value, exe, cmd, env)))
  }

  /** The held directories `/` and `/proc`. */
  function OpenAbove(p: Procfs, t: nat): (r: Run<nat>)
    ensures r.time > t
  {
    var t1 := Next(p.gap, t);
    var t2 := Next(p.gap, t1);
    var root := AboveAt(p, t2, Root);
    if p.fault(t1).Some? then Run(t1, Err(Os(p.fault(t1).value)))
    else if root.Err? then Run(t2, Err(root.error))
    else if !Trusted(root.value, true, {(0, 0)}) then Run(t2, Err(FS_METADATA))
    else
      var t3 := Next(p.gap, t2);
      var before := AboveAt(p, t3, Proc);
      if before.Err? then Run(t3, Err(before.error))
      else if !Trusted(before.value, true, {(0, 0)}) then Run(t3, Err(FS_METADATA))
      else
        var t4 := Next(p.gap, t3);
        var t5 := Next(p.gap, t4);
        var held := AboveAt(p, t5, Proc);
        if p.fault(t4).Some? then Run(t4, Err(Os(p.fault(t4).value)))
        else if held.Err? then Run(t5, Err(held.error))
        else if KeyOf(before.value) != KeyOf(held.value) then Run(t5, Err(CHANGED))
        else Run(t5, Ok(t5))
  }

  /** The pass, and then the directory again. */
  function Enclosed(p: Procfs, t: nat, fd: Fd, initial: Stat, identity: (nat, nat)): (r: Run<Taken>)
    ensures r.time > t
  {
    var taken := Bracketed(p, t, identity);
    if taken.result.Err? then taken
    else
      var same := Recheck(p, taken.time, fd, initial);
      Run(same.time, if same.result.Err? then Err(same.result.error) else taken.result)
  }

  /** `_native_snapshot` */
  function Snapshot(p: Procfs, t: nat, identity: (nat, nat)): (r: Run<Taken>)
    ensures r.time >= t
  {
    if !(1 < p.pid < 0x1_0000_0000) then Run(t, Err(Operator("PROCESS_PID")))
    else
      var above := OpenAbove(p, t);
      if above.result.Err? then Run(above.time, Err(above.result.error))
      else
        var directory := Open(p, above.time, Itself, {(0, 0), identity});
        if directory.result.Err? then Run(directory.time, Err(directory.result.error))
        else
          var t1 := Next(p.gap, directory.time);
          var initial := HeldAt(p, t1, directory.result.value.0);
          if initial.Err? then Run(t1, Err(initial.error))
          else Enclosed(p, t1, directory.result.value.0, initial.value, identity)
  }

  // ----- The same, step by step -----

  /** What is open: the two directories above, or something of an instance. */
  datatype Handle = Up(level: Above) | Down(fd: Fd)

  /** The descriptors that this observer has open. */
  class Table {
    var open: multiset<Handle>

    constructor ()
      ensures open == multiset{}
    {
      open := multiset{};
    }

    method Add(h: Handle)
      modifies this
      ensures open == old(open) + multiset{h}
    {
      open := open + multiset{h};
    }

    method Close(h: Handle)
      requires h in open
      modifies this
      ensures open == old(open) - multiset{h}
    {
      open := open - multiset{h};
    }

    /** Leaving a `with` block: the exit stack runs from the top. */
    method CloseAll(stack: seq<Handle>, ghost kept: multiset<Handle>)
      requires open == kept + multiset(stack)
      modifies this
      ensures open == kept
    {
      var k := |stack|;
      assert stack[..k] == stack;
      while k > 0
        invariant 0 <= k <= |stack| && open == kept + multiset(stack[..k])
      {
        TopOfStack(stack, k, kept);
        k := k - 1;
        Close(stack[k]);
      }
    }
  }

  lemma TopOfStack(stack: seq<Handle>, k: nat, kept: multiset<Handle>)
    requires 0 < k <= |stack|
    ensures kept + multiset(stack[..k]) == kept + multiset(stack[..k - 1]) + multiset{stack[k - 1]}
  {
    assert stack[..k] == stack[..k - 1] + [stack[k - 1]];
  }

  /** The body of the `try` block of `_read_small`. */
  function SmallHeld(p: Procfs, t: nat, fd: Fd, before: Stat): (r: Run<string>)
    ensures r.time > t
  {
    var t1 := Next(p.gap, t);
    var held := HeldAt(p, t1, fd);
    if held.Err? then Run(t1, Err(held.error))
    else if KeyOf(before) != KeyOf(held.value) then Run(t1, Err(CHANGED))
    else
      var data := ReadOn(p, t1, fd, "", LimitOf(fd.entry));
      if data.result.Err? then data
      else if |data.result.value| > LimitOf(fd.entry) then Run(data.time, Err(TOO_LARGE))
      else
        var same := Recheck(p, data.time, fd, before);
        Run(same.time, if same.result.Err? then Err(same.result.error) else data.result)
  }

  method ReadHeld(p: Procfs, t: nat, fd: Fd, before: Stat) returns (r: Result<string, Error>, clock: nat)
    ensures Run(clock, r) == SmallHeld(p, t, fd, before)
  {
    clock := Next(p.gap, t);
    var held := HeldAt(p, clock, fd);
    if held.Err? {
      return Err(held.error), clock;
    }
    if KeyOf(before) != KeyOf(held.value) {
      return Err(CHANGED), clock;
    }
    var data, limit := "", LimitOf(fd.entry);
    ghost var start := clock;
    while |data| <= limit
      invariant ReadOn(p, clock, fd, data, limit) == ReadOn(p, start, fd, "", limit)
      decreases limit + 1 - |data|
    {
      clock := Next(p.gap, clock);
      var chunk := ReadingAt(p, clock, fd, |data|, Amount(limit, |data|));
      if chunk.Err? {
        return Err(chunk.error), clock;
      }
      if chunk.value == "" {
        break;
      }
      data := data + chunk.value;
    }
    assert ReadOn(p, start, fd, "", limit) == Run(clock, Ok(data));
    if |data| > limit {
      return Err(TOO_LARGE), clock;
    }
    var same := Recheck(p, clock, fd, before);
    return if same.result.Err? then Err(same.result.error) else Ok(data), same.time;
  }

  /** `_read_small`: on every way out, failures included, the descriptor is closed. */
  method ReadSmall(p: Procfs, table: Table, t: nat, e: Entry, owners: set<(nat, nat)>)
    returns (r: Result<string, Error>, clock: nat)
    modifies table
    ensures table.open == old(table.open)
    ensures Run(clock, r) == Small(p, t, e, owners)
  {
    clock := Next(p.gap, t);
    var before := NamedAt(p, clock, e);
    if before.Err? {
      return Err(before.error), clock;
    }
    if !Trusted(before.value, e.Itself?, owners) {
      return Err(FS_METADATA), clock;
    }
    clock := Next(p.gap, clock);
    var fd := OpenedAt(p, clock, e);
    if fd.Err? {
      return Err(fd.error), clock;
    }
    table.Add(Down(fd.value));
    r, clock := ReadHeld(p, clock, fd.value, before.value);
    table.Close(Down(fd.value));
  }

  /** The loop of `_executable`; `count` and the digest's input grow together. */
  method DigestFile(p: Procfs, t: nat, fd: Fd, owners: set<(nat, nat)>) returns (r: Result<Inode, Error>, clock: nat)
    ensures Run(clock, r) == Digest(p, t, fd, owners)
  {
    clock := Next(p.gap, t);
    var before := HeldAt(p, clock, fd);
    if before.Err? {
      return Err(before.error), clock;
    }
    if !Trusted(before.value, false, owners) {
      return Err(FS_METADATA), clock;
    }
    if !(0 < before.value.size <= EXE_LIMIT) {
      return Err(TOO_LARGE), clock;
    }
    var digested, count := "", 0;
    ghost var start := clock;
    while count <= EXE_LIMIT
      invariant count == |digested|
      invariant ReadOn(p, clock, fd, digested, EXE_LIMIT) == ReadOn(p, start, fd, "", EXE_LIMIT)
      decreases EXE_LIMIT + 1 - count
    {
      clock := Next(p.gap, clock);
      var chunk := ReadingAt(p, clock, fd, count, Amount(EXE_LIMIT, |digested|));
      if chunk.Err? {
        return Err(chunk.error), clock;
      }
      if chunk.value == "" {
        break;
      }
      count := count + |chunk.value|;
      digested := digested + chunk.value;
    }
    assert ReadOn(p, start, fd, "", EXE_LIMIT) == Run(clock, Ok(digested));
    if count != before.value.size || count > EXE_LIMIT {
      return Err(TOO_LARGE), clock;
    }
    clock := Next(p.gap, clock);
    var held := HeldAt(p, clock, fd);
    if held.Err? {
      return Err(held.error), clock;
    }
    if before.value != held.value {
      return Err(CHANGED), clock;
    }
    clock := Next(p.gap, clock);
    var named := NamedAt(p, clock, Executable);
    if named.Err? {
      return Err(named.error), clock;
    }
    if before.value != named.value {
      return Err(CHANGED), clock;
    }
    clock := Next(p.gap, clock);
    var link := LinkAt(p, clock);
    if link.Err? {
      return Err(link.error), clock;
    }
    if link.value != NODE {
      return Err(CHANGED), clock;
    }
    if p.sha(digested) != p.pinned {
      return Err(Operator("PROCESS_DIGEST")), clock;
    }
    r := Ok(before.value.inode);
  }

  /** `_executable`: the link is followed once, and what it leads to is closed on every way out. */
  method Executed(p: Procfs, table: Table, t: nat, owners: set<(nat, nat)>) returns (r: Result<Inode, Error>, clock: nat)
    modifies table
    ensures table.open == old(table.open)
    ensures Run(clock, r) == Exe(p, t, owners)
  {
    clock := Next(p.gap, t);
    var link := LinkAt(p, clock);
    if link.Err? {
      return Err(link.error), clock;
    }
    if link.value != NODE {
      return Err(Operator("PROCESS_EXECUTABLE")), clock;
    }
    clock := Next(p.gap, clock);
    var fd := OpenedAt(p, clock, Executable);
    if fd.Err? {
      return Err(fd.error), clock;
    }
    table.Add(Down(fd.value));
    r, clock := DigestFile(p, clock, fd.value, owners);
    table.Close(Down(fd.value));
  }

  method ReadStart(p: Procfs, table: Table, t: nat, owners: set<(nat, nat)>) returns (r: Result<nat, Error>, clock: nat)
    modifies table
    ensures table.open == old(table.open)
    ensures Run(clock, r) == Started(p, t, owners)
  {
    var stat;
    stat, clock := ReadSmall(p, table, t, StatFile, owners);
    if stat.Err? {
      return Err(stat.error), clock;
    }
    var start := StartTime(stat.value, p.pid);
    r := if start.Err? then Err(Operator(start.error)) else Ok(start.value);
  }

  method CheckCredentials(p: Procfs, table: Table, t: nat, identity: (nat, nat)) returns (r: Result<string, Error>, clock: nat)
    modifies table
    ensures table.open == old(table.open)
    ensures Run(clock, r) == Credible(p, t, identity)
  {
    r, clock := ReadSmall(p, table, t, StatusFile, {(0, 0), identity});
    if r.Ok? && !Credentials(r.value, identity) {
      r := Err(Operator("PROCESS_IDENTITY"));
    }
  }

  method ReadMemory(p: Procfs, table: Table, t: nat, owners: set<(nat, nat)>) returns (r: Result<(string, string), Error>, clock: nat)
    modifies table
    ensures table.open == old(table.open)
    ensures Run(clock, r) == Memory(p, t, owners)
  {
    var cmd, env;
    cmd, clock := ReadSmall(p, table, t, Cmdline, owners);
    if cmd.Err? {
      return Err(cmd.error), clock;
    }
    env, clock := ReadSmall(p, table, clock, Environ, owners);
    if env.Err? {
      return Err(env.error), clock;
    }
    var arguments := Arguments(cmd.value);
    if arguments.Err? {
      return Err(Operator(arguments.error)), clock;
    }
    var environment := EnvironmentOf(env.value);
    if environment.Err? {
      return Err(Operator(environment.error)), clock;
    }
    r := Ok((cmd.value, env.value));
  }

  method ReadInside(p: Procfs, table: Table, t: nat, identity: (nat, nat))
    returns (r: Result<(string, string, Inode), Error>, clock: nat)
    modifies table
    ensures table.open == old(table.open)
    ensures Run(clock, r) == Inside(p, t, identity)
  {
    var owners := {(0, 0), identity};
    var status, memory, executable, again;
    status, clock := CheckCredentials(p, table, t, identity);
    if status.Err? {
      return Err(status.error), clock;
    }
    memory, clock := ReadMemory(p, table, clock, owners);
    if memory.Err? {
      return Err(memory.error), clock;
    }
    executable, clock := Executed(p, table, clock, owners);
    if executable.Err? {
      return Err(executable.error), clock;
    }
    again, clock := CheckCredentials(p, table, clock, identity);
    if again.Err? {
      return Err(again.error), clock;
    }
    r := Ok((memory.value.0, memory.value.1, executable.value));
  }

  method ReadBracketed(p: Procfs, table: Table, t: nat, identity: (nat, nat)) returns (r: Result<Taken, Error>, clock: nat)
    modifies table
    ensures table.open == old(table.open)
    ensures Run(clock, r) == Bracketed(p, t, identity)
  {
    var start, inside, again;
    start, clock := ReadStart(p, table, t, {(0, 0), identity});
    if start.Err? {
      return Err(start.error), clock;
    }
    inside, clock := ReadInside(p, table, clock, identity);
    if inside.Err? {
      return Err(inside.error), clock;
    }
    again, clock := ReadStart(p, table, clock, {(0, 0), identity});
    if again.Err? {
      return Err(again.error), clock;
    }
    if again.value != start.value {
      return Err(CHANGED), clock;
    }
    r := Ok(Taken(start.value, inside.value.2, inside.value.0, inside.value.1));
  }

  /** Opens `/` and `/proc`; the stack holds what is to be closed. */
  method HoldAbove(p: Procfs, table: Table, t: nat) returns (failed: Option<Error>, clock: nat, stack: seq<Handle>)
    modifies table
    ensures table.open == old(table.open) + multiset(stack)
    ensures OpenAbove(p, t) == Run(clock, if failed.Some? then Err(failed.value) else Ok(clock))
  {
    clock, stack := Next(p.gap, t), [];
    if p.fault(clock).Some? {
      return Some(Os(p.fault(clock).value)), clock, stack;
    }
    table.Add(Up(Root));
    stack := [Up(Root)];
    clock := Next(p.gap, clock);
    var root := AboveAt(p, clock, Root);
    if root.Err? {
      return Some(root.error), clock, stack;
    }
    if !Trusted(root.value, true, {(0, 0)}) {
      return Some(FS_METADATA), clock, stack;
    }
    clock := Next(p.gap, clock);
    var before := AboveAt(p, clock, Proc);
    if before.Err? {
      return Some(before.error), clock, stack;
    }
    if !Trusted(before.value, true, {(0, 0)}) {
      return Some(FS_METADATA), clock, stack;
    }
    clock := Next(p.gap, clock);
    if p.fault(clock).Some? {
      return Some(Os(p.fault(clock).value)), clock, stack;
    }
    table.Add(Up(Proc));
    stack := [Up(Root), Up(Proc)];
    clock := Next(p.gap, clock);
    var held := AboveAt(p, clock, Proc);
    if held.Err? {
      return Some(held.error), clock, stack;
    }
    failed := if KeyOf(before.value) != KeyOf(held.value) then Some(CHANGED) else None;
  }

  /** `_open_directory` for the process. */
  method HoldDirectory(p: Procfs, table: Table, t: nat, owners: set<(nat, nat)>)
    returns (r: Result<(Fd, Stat), Error>, clock: nat, stack: seq<Handle>)
    modifies table
    ensures table.open == old(table.open) + multiset(stack)
    ensures Open(p, t, Itself, owners) == Run(clock, r)
  {
    clock, stack := Next(p.gap, t), [];
    var before := NamedAt(p, clock, Itself);
    if before.Err? {
      return Err(before.error), clock, stack;
    }
    if !Trusted(before.value, true, owners) {
      return Err(FS_METADATA), clock, stack;
    }
    clock := Next(p.gap, clock);
    var fd := OpenedAt(p, clock, Itself);
    if fd.Err? {
      return Err(fd.error), clock, stack;
    }
    table.Add(Down(fd.value));
    stack := [Down(fd.value)];
    clock := Next(p.gap, clock);
    var held := HeldAt(p, clock, fd.value);
    if held.Err? {
      return Err(held.error), clock, stack;
    }
    r := if KeyOf(before.value) != KeyOf(held.value) then Err(CHANGED) else Ok((fd.value, before.value));
  }

  /** The body of the `with` block; `stack` holds what the block leaves to be closed. */
  method Guarded(p: Procfs, table: Table, t: nat, identity: (nat, nat))
    returns (r: Result<Taken, Error>, clock: nat, stack: seq<Handle>)
    requires 1 < p.pid < 0x1_0000_0000
    modifies table
    ensures table.open == old(table.open) + multiset(stack)
    ensures Run(clock, r) == Snapshot(p, t, identity)
  {
    var failed, directory, more;
    failed, clock, stack := HoldAbove(p, table, t);
    if failed.Some? {
      return Err(failed.value), clock, stack;
    }
    directory, clock, more := HoldDirectory(p, table, clock, {(0, 0), identity});
    stack := stack + more;
    if directory.Err? {
      return Err(directory.error), clock, stack;
    }
    var fd := directory.value.0;
    clock := Next(p.gap, clock);
    var initial := HeldAt(p, clock, fd);
    if initial.Err? {
      return Err(initial.error), clock, stack;
    }
    r, clock := ReadBracketed(p, table, clock, identity);
    if r.Err? {
      return;
    }
    var same := Recheck(p, clock, fd, initial.value);
    clock := same.time;
    if same.result.Err? {
      r := Err(same.result.error);
    }
  }

  /** `_native_snapshot`: computes `Snapshot`, and closes exactly what it opened, however it ends. */
  method NativeSnapshot(p: Procfs, table: Table, t: nat, identity: (nat, nat)) returns (r: Result<Taken, Error>, clock: nat)
    modifies table
    ensures table.open == old(table.open)
    ensures Run(clock, r) == Snapshot(p, t, identity)
  {
    if !(1 < p.pid < 0x1_0000_0000) {
      return Err(Operator("PROCESS_PID")), t;
    }
    var stack;
    r, clock, stack := Guarded(p, table, t, identity);
    table.CloseAll(stack, old(table.open));
  }

  // ----- What is assumed of the kernel -----

  /** An instance has the PID without interruption, and one that has it later was started later. */
  ghost predicate LaterReuse(p: Procfs) {
    && (forall a, b, c :: a <= b <= c && p.owner(a).Some? && p.owner(a) == p.owner(c) ==> p.owner(b) == p.owner(a))
    && (forall a, b :: a < b && p.owner(a).Some? && p.owner(b).Some? && p.owner(a) != p.owner(b) ==>
                         p.born(p.owner(a).value) < p.born(p.owner(b).value))
  }

  ghost predicate ShowsStart(text: string, pid: nat, start: nat) {
    exists comm, fields, end :: Renders(text, pid, comm, fields, end) && fields[19] == Decimal(start)
  }

  ghost predicate Renders(text: string, pid: nat, comm: string, fields: seq<string>, end: string) {
    text == StatLine(pid, comm, fields, end) && StatFields(fields) && forall i :: 0 <= i < |end| ==> Space(end[i])
  }

  /** `stat` is rendered with the PID and the start time of its instance, and any command name. */
  ghost predicate RendersStat(p: Procfs) {
    forall who, t :: ShowsStart(p.text(who, StatFile, t), p.pid, p.born(who))
  }

  // ----- One snapshot, one process -----

  /** From `first` to `last` the PID belongs to `who`. */
  ghost predicate Holds(p: Procfs, who: nat, first: nat, last: nat) {
    forall t :: first <= t <= last ==> p.owner(t) == Some(who)
  }

  /** Every byte was at its place in the instance's entry at some time in the window, and so was the end. */
  ghost predicate FromEntry(p: Procfs, who: nat, e: Entry, first: nat, last: nat, data: string) {
    && BytesFrom(p, who, e, first, last, data)
    && exists t :: first <= t <= last && |p.text(who, e, t)| <= |data|
  }

  ghost predicate BytesFrom(p: Procfs, who: nat, e: Entry, first: nat, last: nat, data: string) {
    forall i :: 0 <= i < |data| ==> Seen(p, who, e, first, last, i, data[i])
  }

  /** At some time in the window the byte at `i` was `c`. */
  ghost predicate Seen(p: Procfs, who: nat, e: Entry, first: nat, last: nat, i: nat, c: char) {
    exists t :: first <= t <= last && Shows(p, who, e, t, i, c)
  }

  ghost predicate Shows(p: Procfs, who: nat, e: Entry, t: nat, i: nat, c: char) {
    i < |p.text(who, e, t)| && p.text(who, e, t)[i] == c
  }

  /** A record that could be read is the text of the instance that was opened. */
  lemma {:induction false} RecordIsText(p: Procfs, t: nat, fd: Fd, data: string, limit: nat)
    requires Recorded(fd.entry) && data <= p.text(fd.instance, fd.entry, fd.start)
    requires var run := ReadOn(p, t, fd, data, limit); run.result.Ok? && |run.result.value| <= limit
    ensures ReadOn(p, t, fd, data, limit).result.value == p.text(fd.instance, fd.entry, fd.start)
    decreases limit + 1 - |data|
  {
    if |data| <= limit {
      var t1 := Next(p.gap, t);
      var chunk := ReadingAt(p, t1, fd, |data|, Amount(limit, |data|));
      if chunk.Ok? && chunk.value != "" {
        assert data + chunk.value <= p.text(fd.instance, fd.entry, fd.start);
        RecordIsText(p, t1, fd, data + chunk.value, limit);
      }
    }
  }

  /** The start time that a pass reads is that of an instance that had the PID during it. */
  lemma StartedIsBirth(p: Procfs, t: nat, owners: set<(nat, nat)>) returns (seen: nat)
    requires RendersStat(p) && Started(p, t, owners).result.Ok?
    ensures t < seen <= Started(p, t, owners).time && p.owner(seen).Some?
    ensures Started(p, t, owners).result.value == p.born(p.owner(seen).value)
  {
    var entered := Open(p, t, StatFile, owners);
    var fd := entered.result.value.0;
    seen := fd.start;
    RecordIsText(p, entered.time, fd, "", STAT_LIMIT);
    var text := p.text(fd.instance, StatFile, fd.start);
    assert ShowsStart(text, p.pid, p.born(fd.instance));
    var comm, fields, end :| Renders(text, p.pid, comm, fields, end) && fields[19] == Decimal(p.born(fd.instance));
    StartTimeInverts(p.pid, comm, fields, end, p.born(fd.instance));
  }

  /** While the instance has the PID, what is read of its memory is its memory. */
  lemma {:induction false} MemoryReads(p: Procfs, t: nat, fd: Fd, data: string, limit: nat, first: nat)
    requires fd.entry.Cmdline? || fd.entry.Environ?
    requires var run := ReadOn(p, t, fd, data, limit);
             run.result.Ok? && |run.result.value| <= limit && Holds(p, fd.instance, first, run.time)
    requires first <= t && BytesFrom(p, fd.instance, fd.entry, first, t, data)
    ensures var run := ReadOn(p, t, fd, data, limit);
            FromEntry(p, fd.instance, fd.entry, first, run.time, run.result.value)
    decreases limit + 1 - |data|
  {
    if |data| <= limit {
      var run := ReadOn(p, t, fd, data, limit);
      var t1 := Next(p.gap, t);
      var chunk := ReadingAt(p, t1, fd, |data|, Amount(limit, |data|));
      if chunk.Ok? {
        assert p.owner(t1) == Some(fd.instance);
        var text := p.text(fd.instance, fd.entry, t1);
        if chunk.value == "" {
          assert |text| <= |data|;
        } else {
          var grown := data + chunk.value;
          forall i | 0 <= i < |grown| ensures Seen(p, fd.instance, fd.entry, first, t1, i, grown[i]) {
            if i >= |data| {
              assert Shows(p, fd.instance, fd.entry, t1, i, grown[i]);
            } else {
              assert Seen(p, fd.instance, fd.entry, first, t, i, data[i]);
            }
          }
          MemoryReads(p, t1, fd, grown, limit, first);
        }
      }
    }
  }

  lemma SmallReadsMemory(p: Procfs, t: nat, e: Entry, owners: set<(nat, nat)>, who: nat, first: nat, last: nat)
    requires (e.Cmdline? || e.Environ?) && Small(p, t, e, owners).result.Ok?
    requires Holds(p, who, first, last) && first <= t && Small(p, t, e, owners).time <= last
    ensures FromEntry(p, who, e, first, last, Small(p, t, e, owners).result.value)
  {
    var entered := Open(p, t, e, owners);
    var fd := entered.result.value.0;
    assert p.owner(fd.start) == Some(who);
    MemoryReads(p, entered.time, fd, "", LimitOf(e), first);
    var read := ReadOn(p, entered.time, fd, "", LimitOf(e));
    var u :| first <= u <= read.time && |p.text(who, e, u)| <= |read.result.value|;
    assert u <= last;
    WiderWindow(p, who, e, first, read.time, first, last, read.result.value);
  }

  lemma WiderWindow(p: Procfs, who: nat, e: Entry, first: nat, last: nat, earlier: nat, later: nat, data: string)
    requires earlier <= first && last <= later && FromEntry(p, who, e, first, last, data)
    ensures FromEntry(p, who, e, earlier, later, data)
  {
    var u :| first <= u <= last && |p.text(who, e, u)| <= |data|;
    forall i | 0 <= i < |data| ensures Seen(p, who, e, earlier, later, i, data[i]) {
      assert Seen(p, who, e, first, last, i, data[i]);
    }
  }

  /** The executable that `who` ran: the link's file, of the pinned digest, at a time in the window. */
  ghost predicate Runs(p: Procfs, who: nat, first: nat, last: nat, exe: Inode) {
    && (exists t :: first <= t <= last && p.meta(who, Executable, t).inode == exe)
    && (exists t :: first <= t <= last && p.link(who, t) == NODE)
  }

  lemma ExeIsOf(p: Procfs, t: nat, owners: set<(nat, nat)>, who: nat, first: nat, last: nat)
    requires Exe(p, t, owners).result.Ok? && Holds(p, who, first, last) && first <= t && Exe(p, t, owners).time <= last
    ensures Runs(p, who, first, last, Exe(p, t, owners).result.value)
  {
    var t1 := Next(p.gap, t);
    var t2 := Next(p.gap, t1);
    assert p.owner(t1) == Some(who) && p.owner(t2) == Some(who);
    var t3 := Next(p.gap, t2);
    assert p.meta(who, Executable, t3).inode == Exe(p, t, owners).result.value && t3 <= last;
    assert p.link(who, t1) == NODE;
  }

  /** Everything in the snapshot belongs to `who`. */
  ghost predicate BelongsTo(p: Procfs, taken: Taken, who: nat, first: nat, last: nat) {
    && first < last && Holds(p, who, first, last)
    && taken.start == p.born(who)
    && FromEntry(p, who, Cmdline, first, last, taken.cmdline)
    && FromEntry(p, who, Environ, first, last, taken.environment)
    && Runs(p, who, first, last, taken.executable)
  }

  lemma MemoryBelongs(p: Procfs, t: nat, owners: set<(nat, nat)>, who: nat, first: nat, last: nat)
    requires Memory(p, t, owners).result.Ok?
    requires Holds(p, who, first, last) && first <= t && Memory(p, t, owners).time <= last
    ensures var (cmd, env) := Memory(p, t, owners).result.value;
            FromEntry(p, who, Cmdline, first, last, cmd) && FromEntry(p, who, Environ, first, last, env)
  {
    SmallReadsMemory(p, t, Cmdline, owners, who, first, last);
    SmallReadsMemory(p, Small(p, t, Cmdline, owners).time, Environ, owners, who, first, last);
  }

  lemma InsideBelongs(p: Procfs, t: nat, identity: (nat, nat), who: nat, first: nat, last: nat)
    requires Inside(p, t, identity).result.Ok?
    requires Holds(p, who, first, last) && first <= t && Inside(p, t, identity).time <= last
    ensures var (cmd, env, exe) := Inside(p, t, identity).result.value;
            FromEntry(p, who, Cmdline, first, last, cmd) && FromEntry(p, who, Environ, first, last, env)
            && Runs(p, who, first, last, exe)
  {
    var owners := {(0, 0), identity};
    var status := Credible(p, t, identity);
    var memory := Memory(p, status.time, owners);
    MemoryBelongs(p, status.time, owners, who, first, last);
    ExeIsOf(p, memory.time, owners, who, first, last);
  }

  /** The PID had one owner between two times at which its owners were started at the same time. */
  lemma SameStartSameOwner(p: Procfs, a: nat, b: nat)
    requires LaterReuse(p) && a < b && p.owner(a).Some? && p.owner(b).Some?
    requires p.born(p.owner(a).value) == p.born(p.owner(b).value)
    ensures Holds(p, p.owner(a).value, a, b)
  {
    assert p.owner(a) == p.owner(b);
  }

  /** The parts of a pass that gave a snapshot. */
  lemma BracketParts(p: Procfs, t: nat, identity: (nat, nat))
    requires Bracketed(p, t, identity).result.Ok?
    ensures var start := Started(p, t, {(0, 0), identity});
            var inside := Inside(p, start.time, identity);
            var again := Started(p, inside.time, {(0, 0), identity});
            && start.result.Ok? && inside.result.Ok? && again.result == start.result
            && Bracketed(p, t, identity) == Run(again.time, Ok(
                                                  Taken(start.result.value, inside.result.value.2, inside.result.value.0, inside.result.value.1)))
  {
  }

  lemma BracketIsOneProcess(p: Procfs, t: nat, identity: (nat, nat)) returns (who: nat, first: nat, last: nat)
    requires LaterReuse(p) && RendersStat(p) && Bracketed(p, t, identity).result.Ok?
    ensures t < first && last <= Bracketed(p, t, identity).time
    ensures BelongsTo(p, Bracketed(p, t, identity).result.value, who, first, last)
  {
    var owners := {(0, 0), identity};
    BracketParts(p, t, identity);
    var start := Started(p, t, owners);
    var inside := Inside(p, start.time, identity);
    first := StartedIsBirth(p, t, owners);
    last := StartedIsBirth(p, inside.time, owners);
    SameStartSameOwner(p, first, last);
    who := p.owner(first).value;
    InsideBelongs(p, start.time, identity, who, first, last);
  }

  lemma EnclosedIsOneProcess(p: Procfs, t: nat, fd: Fd, initial: Stat, identity: (nat, nat))
    returns (who: nat, first: nat, last: nat)
    requires LaterReuse(p) && RendersStat(p) && Enclosed(p, t, fd, initial, identity).result.Ok?
    ensures t < first && last <= Enclosed(p, t, fd, initial, identity).time
    ensures BelongsTo(p, Enclosed(p, t, fd, initial, identity).result.value, who, first, last)
  {
    who, first, last := BracketIsOneProcess(p, t, identity);
  }

  /** A snapshot is what was read in the held directory. */
  lemma SnapshotParts(p: Procfs, t: nat, identity: (nat, nat)) returns (start: nat, fd: Fd, initial: Stat)
    requires Snapshot(p, t, identity).result.Ok?
    ensures t < start && Snapshot(p, t, identity) == Enclosed(p, start, fd, initial, identity)
  {
    var above := OpenAbove(p, t);
    var directory := Open(p, above.time, Itself, {(0, 0), identity});
    start, fd := Next(p.gap, directory.time), directory.result.value.0;
    initial := HeldAt(p, start, fd).value;
  }

  /**
   If a reused PID always gets a later start time, everything in a returned snapshot
   belongs to one process instance, which had the PID from before the first of its
   reads until after the last, whatever happened between the calls.
   */
  lemma OneSnapshotOneProcess(p: Procfs, t: nat, identity: (nat, nat)) returns (who: nat, first: nat, last: nat)
    requires LaterReuse(p) && RendersStat(p) && Snapshot(p, t, identity).result.Ok?
    ensures t < first && last <= Snapshot(p, t, identity).time
    ensures BelongsTo(p, Snapshot(p, t, identity).result.value, who, first, last)
  {
    var start, fd, initial := SnapshotParts(p, t, identity);
    who, first, last := EnclosedIsOneProcess(p, start, fd, initial, identity);
  }

  /** Two equal snapshots, whatever is done between them, are of one process that had the PID throughout. */
  lemma EqualSnapshotsOneProcess(p: Procfs, t: nat, u: nat, identity: (nat, nat)) returns (who: nat, first: nat, last: nat)
    requires LaterReuse(p) && RendersStat(p) && Snapshot(p, t, identity).result.Ok?
    requires Snapshot(p, t, identity).time <= u && Snapshot(p, t, identity).result == Snapshot(p, u, identity).result
    ensures t < first && last <= Snapshot(p, u, identity).time
    ensures BelongsTo(p, Snapshot(p, u, identity).result.value, who, first, last)
  {
    var who1, first1, last1 := OneSnapshotOneProcess(p, t, identity);
    var who2, first2, last2 := OneSnapshotOneProcess(p, u, identity);
    who, first, last := who1, first1, last2;
    SameStartSameOwner(p, first1, last2);
    var taken := Snapshot(p, u, identity).result.value;
    WiderWindow(p, who, Cmdline, first2, last2, first, last2, taken.cmdline);
    WiderWindow(p, who, Environ, first2, last2, first, last2, taken.environment);
  }

  /** Memory that does not change in the window was returned exactly. */
  lemma SteadyMemory(p: Procfs, who: nat, e: Entry, first: nat, last: nat, data: string, text: string)
    requires FromEntry(p, who, e, first, last, data) && forall t :: first <= t <= last ==> p.text(who, e, t) == text
    ensures data == text
  {
    var u :| first <= u <= last && |p.text(who, e, u)| <= |data|;
    forall i | 0 <= i < |data| ensures i < |text| && data[i] == text[i] {
      assert Seen(p, who, e, first, last, i, data[i]);
    }
    if |data| != 0 {
      var end := data[|data| - 1];
    }
  }

  // ----- A PID that passes on: seen rightly, or mixed when start times are equal -----

  const CALM_DIRECTORY := Stat(Inode(1, 2), Directory, 0x16D, 0, 0, 2, 0, 0, 0)
  const CALM_FILE := Stat(Inode(1, 3), Regular, 0x124, 0, 0, 1, 1, 0, 0)

  /** What the entries of one process hold. */
  datatype Texts = Texts(stat: string, status: string, cmdline: string, environ: string)

  function TextOf(texts: Texts, e: Entry): string {
    match e
    case StatFile => texts.stat
    case StatusFile => texts.status
    case Cmdline => texts.cmdline
    case Environ => texts.environ
    case Executable => "x"
    case Itself => ""
  }

  /** Two processes and their start times; the second gets the PID after the call number `swap`. */
  datatype Handover = Handover(pid: nat, start: nat, later: nat, swap: nat, a: Texts, b: Texts)

  /** What is there for a read that starts at `t`. */
  function Now(h: Handover, t: nat): Texts {
    if t < h.swap then h.a else h.b
  }

  /** A kernel in which nothing else happens. */
  function Calm(h: Handover): Procfs {
    Procfs(h.pid, (t: nat) => 0, (t: nat) => None, (t: nat) => EXE_LIMIT,
           (above: Above, t: nat) => CALM_DIRECTORY,
           (t: nat) => Some(if t <= h.swap then 0 else 1),
           (who: nat) => if who == 0 then h.start else h.later,
           (who: nat, e: Entry, t: nat) => if e.Itself? then CALM_DIRECTORY else CALM_FILE,
           (who: nat, e: Entry, t: nat) => TextOf(if who == 0 then h.a else h.b, e),
           (who: nat, t: nat) => NODE,
           (t: nat) => "", (s: string) => "", "")
  }

  lemma CalmTrust(identity: (nat, nat))
    ensures Trusted(CALM_DIRECTORY, true, {(0, 0)}) && Trusted(CALM_DIRECTORY, true, {(0, 0), identity})
    ensures Trusted(CALM_FILE, false, {(0, 0), identity})
  {
    assert (0x16D as bv12) & 0xC12 == 0 && (0x124 as bv12) & 0xC12 == 0;
  }

  /** A read through a descriptor whose instance keeps the PID takes two calls. */
  lemma CalmRead(h: Handover, t: nat, fd: Fd, limit: nat)
    requires var p := Calm(h);
             var text := p.text(fd.instance, fd.entry, 0);
             && 0 < |text| <= CHUNK && |text| <= limit <= EXE_LIMIT
             && (fd.entry.Executable? || p.owner(t + 1) == p.owner(t + 2) == Some(fd.instance))
    ensures var p := Calm(h);
            ReadOn(p, t, fd, "", limit) == Run(t + 2, Ok(p.text(fd.instance, fd.entry, 0)))
  {
    var p := Calm(h);
    var text := p.text(fd.instance, fd.entry, 0);
    assert Shown(p, t + 1, fd) == text && Shown(p, t + 2, fd) == text;
    assert Next(p.gap, t) == t + 1 && Next(p.gap, t + 1) == t + 2;
    assert ReadingAt(p, t + 1, fd, 0, Amount(limit, 0)) == Ok(text) by {
      assert text[0..|text|] == text;
    }
    assert "" + text == text;
    assert ReadOn(p, t + 1, fd, text, limit) == Run(t + 2, Ok(text));
  }

  /** A small file of the process that has the PID takes seven calls. */
  lemma CalmSmall(h: Handover, t: nat, e: Entry, identity: (nat, nat))
    requires !e.Itself? && !e.Executable? && (t + 7 <= h.swap || h.swap <= t)
    requires var text := TextOf(Now(h, t), e); 0 < |text| <= CHUNK && |text| <= LimitOf(e)
    ensures Small(Calm(h), t, e, {(0, 0), identity}) == Run(t + 7, Ok(TextOf(Now(h, t), e)))
  {
    var p := Calm(h);
    CalmTrust(identity);
    var fd := Fd(if t < h.swap then 0 else 1, e, t + 2);
    assert Open(p, t, e, {(0, 0), identity}) == Run(t + 3, Ok((fd, CALM_FILE)));
    CalmRead(h, t + 3, fd, LimitOf(e));
  }

  lemma ExeText(h: Handover, who: nat)
    ensures Calm(h).text(who, Executable, 0) == TextOf(h.a, Executable) && |TextOf(h.a, Executable)| == 1
  {
    assert TextOf(h.a, Executable) == TextOf(h.b, Executable);
  }

  lemma CalmExe(h: Handover, t: nat, identity: (nat, nat))
    ensures Exe(Calm(h), t, {(0, 0), identity}) == Run(t + 8, Ok(Inode(1, 3)))
  {
    var p, fd := Calm(h), Fd(if t + 2 <= h.swap then 0 else 1, Executable, t + 2);
    CalmTrust(identity);
    ExeText(h, fd.instance);
    CalmRead(h, t + 3, fd, EXE_LIMIT);
    assert Digest(p, t + 2, fd, {(0, 0), identity}) == Run(t + 8, Ok(Inode(1, 3)));
  }

  /** Texts that the parsers accept. */
  ghost predicate Acceptable(texts: Texts, pid: nat, start: nat, identity: (nat, nat)) {
    AcceptableStat(texts, pid, start) && AcceptableStatus(texts, identity) && AcceptableMemory(texts)
  }

  ghost predicate AcceptableStat(texts: Texts, pid: nat, start: nat) {
    StartTime(texts.stat, pid) == Ok(start)
  }

  ghost predicate AcceptableStatus(texts: Texts, identity: (nat, nat)) {
    Credentials(texts.status, identity) && 0 < |texts.status| <= CHUNK
  }

  ghost predicate AcceptableMemory(texts: Texts) {
    && Arguments(texts.cmdline).Ok? && |texts.cmdline| <= CHUNK
    && EnvironmentOf(texts.environ).Ok? && 0 < |texts.environ| <= CHUNK
  }

  lemma CalmCredible(h: Handover, t: nat, identity: (nat, nat))
    requires AcceptableStatus(Now(h, t), identity) && (t + 7 <= h.swap || h.swap <= t)
    ensures Credible(Calm(h), t, identity) == Run(t + 7, Ok(Now(h, t).status))
  {
    CalmSmall(h, t, StatusFile, identity);
  }

  lemma CalmStarted(h: Handover, t: nat, identity: (nat, nat))
    requires AcceptableStat(Now(h, t), h.pid, h.start) && (t + 7 <= h.swap || h.swap <= t)
    ensures Started(Calm(h), t, {(0, 0), identity}) == Run(t + 7, Ok(h.start))
  {
    CalmSmall(h, t, StatFile, identity);
  }

  /** How the results of the parts make up the whole. */
  lemma MemoryOf(p: Procfs, t: nat, owners: set<(nat, nat)>, cmd: Run<string>, env: Run<string>)
    requires Small(p, t, Cmdline, owners) == cmd && cmd.result.Ok? && Arguments(cmd.result.value).Ok?
    requires Small(p, cmd.time, Environ, owners) == env && env.result.Ok? && EnvironmentOf(env.result.value).Ok?
    ensures Memory(p, t, owners) == Run(env.time, Ok((cmd.result.value, env.result.value)))
  {
  }

  lemma InsideOf(p: Procfs, t: nat, identity: (nat, nat), s1: Run<string>, memory: Run<(string, string)>, exe: Run<Inode>, s2: Run<string>)
    requires Credible(p, t, identity) == s1 && s1.result.Ok?
    requires Memory(p, s1.time, {(0, 0), identity}) == memory && memory.result.Ok?
    requires Exe(p, memory.time, {(0, 0), identity}) == exe && exe.result.Ok?
    requires Credible(p, exe.time, identity) == s2 && s2.result.Ok?
    ensures Inside(p, t, identity) == Run(s2.time, Ok((memory.result.value.0, memory.result.value.1, exe.result.value)))
  {
  }

  lemma BracketOf(p: Procfs, t: nat, identity: (nat, nat), s1: Run<nat>, inside: Run<(string, string, Inode)>, s2: Run<nat>)
    requires Started(p, t, {(0, 0), identity}) == s1 && Inside(p, s1.time, identity) == inside && inside.result.Ok?
    requires Started(p, inside.time, {(0, 0), identity}) == s2 && s1.result == s2.result && s1.result.Ok?
    ensures Bracketed(p, t, identity) == Run(s2.time, Ok(
                                               Taken(s1.result.value, inside.result.value.2, inside.result.value.0, inside.result.value.1)))
  {
  }

  lemma SnapshotOf(p: Procfs, t: nat, identity: (nat, nat), above: Run<nat>, directory: Run<(Fd, Stat)>, initial: Stat, taken: Run<Taken>, same: Run<Stat>)
    requires 1 < p.pid < 0x1_0000_0000
    requires OpenAbove(p, t) == above && above.result.Ok?
    requires Open(p, above.time, Itself, {(0, 0), identity}) == directory && directory.result.Ok?
    requires HeldAt(p, Next(p.gap, directory.time), directory.result.value.0) == Ok(initial)
    requires Bracketed(p, Next(p.gap, directory.time), identity) == taken && taken.result.Ok?
    requires Recheck(p, taken.time, directory.result.value.0, initial) == same && same.result.Ok?
    ensures Snapshot(p, t, identity) == Run(same.time, taken.result)
  {
  }

  lemma CalmMemory(h: Handover, identity: (nat, nat))
    requires AcceptableMemory(Now(h, 23)) && AcceptableMemory(Now(h, 30)) && (h.swap == 30 || h.swap >= 37)
    ensures Memory(Calm(h), 23, {(0, 0), identity}) == Run(37, Ok((Now(h, 23).cmdline, Now(h, 30).environ)))
  {
    CalmSmall(h, 23, Cmdline, identity);
    CalmSmall(h, 30, Environ, identity);
    MemoryOf(Calm(h), 23, {(0, 0), identity}, Run(30, Ok(Now(h, 23).cmdline)), Run(37, Ok(Now(h, 30).environ)));
  }

  /** Every text that the pass meets is acceptable, and the handover falls between two of its reads. */
  ghost predicate Ready(h: Handover, identity: (nat, nat)) {
    && (h.swap == 30 || h.swap >= 59)
    && AcceptableStat(Now(h, 9), h.pid, h.start) && AcceptableStat(Now(h, 52), h.pid, h.start)
    && AcceptableStatus(Now(h, 16), identity) && AcceptableStatus(Now(h, 45), identity)
    && AcceptableMemory(Now(h, 23)) && AcceptableMemory(Now(h, 30))
  }

  lemma CalmStatuses(h: Handover, identity: (nat, nat))
    requires Ready(h, identity)
    ensures Credible(Calm(h), 16, identity) == Run(23, Ok(Now(h, 16).status))
    ensures Credible(Calm(h), 45, identity) == Run(52, Ok(Now(h, 45).status))
  {
    CalmCredible(h, 16, identity);
    CalmCredible(h, 45, identity);
  }

  lemma CalmMemories(h: Handover, identity: (nat, nat))
    requires Ready(h, identity)
    ensures Memory(Calm(h), 23, {(0, 0), identity}) == Run(37, Ok((Now(h, 23).cmdline, Now(h, 30).environ)))
  {
    CalmMemory(h, identity);
  }

  lemma CalmInside(h: Handover, identity: (nat, nat))
    requires Ready(h, identity)
    ensures Inside(Calm(h), 16, identity) == Run(52, Ok((Now(h, 23).cmdline, Now(h, 30).environ, Inode(1, 3))))
  {
    CalmStatuses(h, identity);
    CalmMemories(h, identity);
    CalmExe(h, 37, identity);
    InsideOf(Calm(h), 16, identity, Run(23, Ok(Now(h, 16).status)), Run(37, Ok((Now(h, 23).cmdline, Now(h, 30).environ))),
             Run(45, Ok(Inode(1, 3))), Run(52, Ok(Now(h, 45).status)));
  }

  lemma CalmStarts(h: Handover, identity: (nat, nat))
    requires Ready(h, identity)
    ensures Started(Calm(h), 9, {(0, 0), identity}) == Run(16, Ok(h.start))
    ensures Started(Calm(h), 52, {(0, 0), identity}) == Run(59, Ok(h.start))
  {
    CalmStarted(h, 9, identity);
    CalmStarted(h, 52, identity);
  }

  /** The pass when the PID is handed over between command line and environment, or after it. */
  lemma CalmBracket(h: Handover, identity: (nat, nat))
    requires Ready(h, identity)
    ensures Bracketed(Calm(h), 9, identity) == Run(59, Ok(Taken(h.start, Inode(1, 3), Now(h, 23).cmdline, Now(h, 30).environ)))
  {
    CalmStarts(h, identity);
    CalmInside(h, identity);
    BracketOf(Calm(h), 9, identity, Run(16, Ok(h.start)), Run(52, Ok((Now(h, 23).cmdline, Now(h, 30).environ, Inode(1, 3)))),
              Run(59, Ok(h.start)));
  }

  lemma CalmDirectory(h: Handover, identity: (nat, nat))
    ensures var p, fd := Calm(h), Fd(if 7 <= h.swap then 0 else 1, Itself, 7);
            && OpenAbove(p, 0) == Run(5, Ok(5))
            && Open(p, 5, Itself, {(0, 0), identity}) == Run(8, Ok((fd, CALM_DIRECTORY)))
            && Next(p.gap, 8) == 9 && HeldAt(p, 9, fd) == Ok(CALM_DIRECTORY)
            && Recheck(p, 59, fd, CALM_DIRECTORY) == Run(61, Ok(CALM_DIRECTORY))
  {
    CalmTrust(identity);
  }

  lemma CalmSnapshot(h: Handover, identity: (nat, nat))
    requires 1 < h.pid < 0x1_0000_0000 && Ready(h, identity)
    ensures Snapshot(Calm(h), 0, identity) == Run(61, Ok(Taken(h.start, Inode(1, 3), Now(h, 23).cmdline, Now(h, 30).environ)))
  {
    var taken := Taken(h.start, Inode(1, 3), Now(h, 23).cmdline, Now(h, 30).environ);
    CalmBracket(h, identity);
    CalmDirectory(h, identity);
    SnapshotOf(Calm(h), 0, identity, Run(5, Ok(5)), Run(8, Ok((Fd(0, Itself, 7), CALM_DIRECTORY))), CALM_DIRECTORY,
               Run(59, Ok(taken)), Run(61, Ok(CALM_DIRECTORY)));
  }

  lemma CalmAssumptions(h: Handover)
    requires h.start < h.later && ShowsStart(h.a.stat, h.pid, h.start) && ShowsStart(h.b.stat, h.pid, h.later)
    ensures LaterReuse(Calm(h)) && RendersStat(Calm(h))
  {
    var p := Calm(h);
    forall who, t ensures ShowsStart(p.text(who, StatFile, t), p.pid, p.born(who)) {
      assert p.text(who, StatFile, t) == TextOf(if who == 0 then h.a else h.b, StatFile);
    }
  }

  /** A process that keeps the PID is seen as it is, also when a later one gets the PID afterwards. */
  lemma SteadyProcessIsSeen(h: Handover, identity: (nat, nat))
    requires 1 < h.pid < 0x1_0000_0000 && h.swap >= 59 && h.start < h.later
    requires Acceptable(h.a, h.pid, h.start, identity)
    requires ShowsStart(h.a.stat, h.pid, h.start) && ShowsStart(h.b.stat, h.pid, h.later)
    ensures LaterReuse(Calm(h)) && RendersStat(Calm(h))
    ensures Snapshot(Calm(h), 0, identity) == Run(61, Ok(Taken(h.start, Inode(1, 3), h.a.cmdline, h.a.environ)))
  {
    CalmSnapshot(h, identity);
    CalmAssumptions(h);
  }

  /** A mixed snapshot is neither process's. */
  lemma MixedIsNeither(h: Handover, taken: Taken, who: nat, first: nat, last: nat)
    requires h.a.cmdline != h.b.cmdline && h.a.environ != h.b.environ
    requires taken.cmdline == h.a.cmdline && taken.environment == h.b.environ
    ensures !BelongsTo(Calm(h), taken, who, first, last)
  {
    var p := Calm(h);
    if BelongsTo(p, taken, who, first, last) {
      assert forall t :: p.text(who, Environ, t) == TextOf(if who == 0 then h.a else h.b, Environ);
      assert forall t :: p.text(who, Cmdline, t) == TextOf(if who == 0 then h.a else h.b, Cmdline);
      if who == 0 {
        SteadyMemory(p, who, Environ, first, last, h.b.environ, h.a.environ);
      } else {
        SteadyMemory(p, who, Cmdline, first, last, h.a.cmdline, h.b.cmdline);
      }
    }
  }

  /**
   Two processes that differ in command line and environment but were started at the
   same time: every check passes on the command line of one and the environment of
   the other, and the snapshot belongs to neither.
   */
  lemma SameStartMixes(h: Handover, identity: (nat, nat))
    requires 1 < h.pid < 0x1_0000_0000 && h.swap == 30 && h.start == h.later
    requires h.a.cmdline != h.b.cmdline && h.a.environ != h.b.environ
    requires Acceptable(h.a, h.pid, h.start, identity) && Acceptable(h.b, h.pid, h.start, identity)
    ensures Snapshot(Calm(h), 0, identity) == Run(61, Ok(Taken(h.start, Inode(1, 3), h.a.cmdline, h.b.environ)))
    ensures forall who, first, last ::
              !BelongsTo(Calm(h), Taken(h.start, Inode(1, 3), h.a.cmdline, h.b.environ), who, first, last)
  {
    CalmSnapshot(h, identity);
    forall who, first, last
      ensures !BelongsTo(Calm(h), Taken(h.start, Inode(1, 3), h.a.cmdline, h.b.environ), who, first, last)
    {
      MixedIsNeither(h, Taken(h.start, Inode(1, 3), h.a.cmdline, h.b.environ), who, first, last);
    }
  }
}
