/**
 What a returned snapshot vouches for: the instance that it belongs to passed every
 check, at instants that enclose what was read of its memory.
 */
module ProcessChecks {
  import opened Common
  import opened Kernel
  import opened OperatorFs
  import opened ProcStat
  import opened ProcessSnapshot
  import ServiceConfiguration
  import ServiceProcess

  /** Equal stamps of an executable enclose no other content. */
  ghost predicate StampsTell(p: Procfs) {
    forall who, a, u, b :: a <= u <= b && p.meta(who, Executable, a) == p.meta(who, Executable, b)
                           ==> p.text(who, Executable, u) == p.text(who, Executable, a)
  }

  /** At this instant the instance's executable is a trusted file whose content has the pinned digest. */
  ghost predicate RunsPinned(p: Procfs, who: nat, t: nat, owners: set<(nat, nat)>, exe: Inode) {
    var meta, text := p.meta(who, Executable, t), p.text(who, Executable, t);
    && meta.inode == exe && Trusted(meta, false, owners)
    && 0 < meta.size == |text| <= EXE_LIMIT && p.sha(text) == p.pinned
  }

  /** The magic link shows the packaged path. */
  ghost predicate Linked(p: Procfs, who: nat, t: nat) { p.link(who, t) == NODE }

  /** At this instant the instance runs under the service's account. */
  ghost predicate RunsAs(p: Procfs, who: nat, t: nat, identity: (nat, nat)) {
    Credentials(p.text(who, StatusFile, t), identity)
  }

  /** An entry was trusted at one time and had the same key at another. */
  ghost predicate Kept(p: Procfs, who: nat, e: Entry, first: nat, last: nat, owners: set<(nat, nat)>) {
    && first < last && Trusted(p.meta(who, e, first), e.Itself?, owners)
    && KeyOf(p.meta(who, e, first)) == KeyOf(p.meta(who, e, last))
  }

  /** A read of content that does not change returns it. */
  lemma {:induction false} UnchangedRead(p: Procfs, t: nat, fd: Fd, data: string, limit: nat, text: string)
    requires fd.entry.Executable? && data <= text
    requires var run := ReadOn(p, t, fd, data, limit);
             && run.result.Ok? && |run.result.value| <= limit
             && forall u :: t <= u <= run.time ==> p.text(fd.instance, Executable, u) == text
    ensures ReadOn(p, t, fd, data, limit).result.value == text
    decreases limit + 1 - |data|
  {
    if |data| <= limit {
      var t1 := Next(p.gap, t);
      var chunk := ReadingAt(p, t1, fd, |data|, Amount(limit, |data|));
      assert Shown(p, t1, fd) == text;
      if chunk.Ok? && chunk.value != "" {
        assert data + chunk.value <= text;
        UnchangedRead(p, t1, fd, data + chunk.value, limit, text);
      }
    }
  }

  /** The calls of a digest that was given. */
  lemma DigestParts(p: Procfs, t: nat, fd: Fd, owners: set<(nat, nat)>)
    returns (held: nat, data: Run<string>, again: nat, link: nat)
    requires Digest(p, t, fd, owners).result.Ok?
    ensures t < held <= data.time < again < link == Digest(p, t, fd, owners).time
    ensures data == ReadOn(p, held, fd, "", EXE_LIMIT) && data.result.Ok?
    ensures var before := p.meta(fd.instance, fd.entry, held);
            && Trusted(before, false, owners) && 0 < before.size == |data.result.value| <= EXE_LIMIT
            && before == p.meta(fd.instance, fd.entry, again) && Digest(p, t, fd, owners).result.value == before.inode
    ensures LinkAt(p, link) == Ok(NODE) && p.sha(data.result.value) == p.pinned
  {
    held := Next(p.gap, t);
    data := ReadOn(p, held, fd, "", EXE_LIMIT);
    again := Next(p.gap, data.time);
    link := Next(p.gap, Next(p.gap, again));
  }

  lemma ExeIsPinned(p: Procfs, t: nat, owners: set<(nat, nat)>, who: nat, first: nat, last: nat)
    returns (before: nat, held: nat, after: nat)
    requires StampsTell(p) && Exe(p, t, owners).result.Ok?
    requires Holds(p, who, first, last) && first <= t && Exe(p, t, owners).time <= last
    ensures t < before < held < after <= Exe(p, t, owners).time
    ensures Linked(p, who, before) && Linked(p, who, after) && RunsPinned(p, who, held, owners, Exe(p, t, owners).result.value)
  {
    before := Next(p.gap, t);
    var start := Next(p.gap, before);
    var fd := Fd(who, Executable, start);
    assert p.owner(before) == p.owner(start) == Some(who);
    assert Digest(p, start, fd, owners) == Exe(p, t, owners);
    var data, again;
    held, data, again, after := DigestParts(p, start, fd, owners);
    assert p.owner(after) == Some(who);
    UnchangedRead(p, held, fd, "", EXE_LIMIT, p.text(who, Executable, held));
  }

  /** In this window an entry was trusted, and the same afterwards. */
  ghost predicate EntryKept(p: Procfs, who: nat, e: Entry, first: nat, last: nat, owners: set<(nat, nat)>) {
    exists a: nat, b: nat :: first <= a && b <= last && Kept(p, who, e, a, b, owners)
  }

  lemma SmallIsKept(p: Procfs, t: nat, e: Entry, owners: set<(nat, nat)>, who: nat, first: nat, last: nat)
    requires Small(p, t, e, owners).result.Ok?
    requires Holds(p, who, first, last) && first <= t && Small(p, t, e, owners).time <= last
    ensures EntryKept(p, who, e, t, Small(p, t, e, owners).time, owners)
  {
    var before, after := Next(p.gap, t), Small(p, t, e, owners).time;
    var entered := Open(p, t, e, owners);
    assert p.owner(before) == p.owner(after) == Some(who);
    assert Kept(p, who, e, before, after, owners);
  }

  /** The status that was read showed the account while the instance had the PID. */
  lemma CredibleIsOf(p: Procfs, t: nat, identity: (nat, nat), who: nat, first: nat, last: nat) returns (seen: nat)
    requires Credible(p, t, identity).result.Ok?
    requires Holds(p, who, first, last) && first <= t && Credible(p, t, identity).time <= last
    ensures t < seen <= Credible(p, t, identity).time && RunsAs(p, who, seen, identity)
    ensures EntryKept(p, who, StatusFile, t, Credible(p, t, identity).time, {(0, 0), identity})
  {
    var owners := {(0, 0), identity};
    var entered := Open(p, t, StatusFile, owners);
    var fd := entered.result.value.0;
    seen := fd.start;
    assert p.owner(seen) == Some(who);
    RecordIsText(p, entered.time, fd, "", STATUS_LIMIT);
    SmallIsKept(p, t, StatusFile, owners, who, first, last);
  }

  /** The instants of a snapshot: the account, the link, the executable, the link and the account again. */
  datatype Instants = Instants(account: nat, link: nat, exe: nat, relink: nat, reaccount: nat)

  ghost predicate InOrder(i: Instants, first: nat, last: nat) {
    first <= i.account < i.link < i.exe < i.relink < i.reaccount <= last
  }

  /** The instance passed every check, around what was read of it. */
  ghost predicate Vouched(p: Procfs, identity: (nat, nat), who: nat, i: Instants, cmd: string, env: string, exe: Inode) {
    && RunsAs(p, who, i.account, identity) && RunsAs(p, who, i.reaccount, identity)
    && Linked(p, who, i.link) && Linked(p, who, i.relink) && RunsPinned(p, who, i.exe, {(0, 0), identity}, exe)
    && FromEntry(p, who, Cmdline, i.account, i.reaccount, cmd) && Arguments(cmd).Ok?
    && FromEntry(p, who, Environ, i.account, i.reaccount, env) && EnvironmentOf(env).Ok?
    && EntryKept(p, who, Cmdline, i.account, i.reaccount, {(0, 0), identity})
    && EntryKept(p, who, Environ, i.account, i.reaccount, {(0, 0), identity})
  }

  /** The parts of what is read between the two start times. */
  lemma InsideParts(p: Procfs, t: nat, identity: (nat, nat))
    requires Inside(p, t, identity).result.Ok?
    ensures var status := Credible(p, t, identity);
            var memory := Memory(p, status.time, {(0, 0), identity});
            var exe := Exe(p, memory.time, {(0, 0), identity});
            var again := Credible(p, exe.time, identity);
            && status.result.Ok? && memory.result.Ok? && exe.result.Ok? && again.result.Ok?
            && Inside(p, t, identity) == Run(again.time, Ok((memory.result.value.0, memory.result.value.1, exe.result.value)))
  {
  }

  lemma MemoryParses(p: Procfs, t: nat, owners: set<(nat, nat)>, who: nat, first: nat, last: nat)
    requires Memory(p, t, owners).result.Ok?
    requires Holds(p, who, first, last) && first <= t && Memory(p, t, owners).time <= last
    ensures var (cmd, env) := Memory(p, t, owners).result.value; Arguments(cmd).Ok? && EnvironmentOf(env).Ok?
    ensures EntryKept(p, who, Cmdline, first, last, owners) && EntryKept(p, who, Environ, first, last, owners)
  {
    SmallIsKept(p, t, Cmdline, owners, who, first, last);
    SmallIsKept(p, Small(p, t, Cmdline, owners).time, Environ, owners, who, first, last);
  }

  lemma InsideIsVouched(p: Procfs, t: nat, identity: (nat, nat), who: nat, first: nat, last: nat) returns (i: Instants)
    requires StampsTell(p) && Inside(p, t, identity).result.Ok?
    requires Holds(p, who, first, last) && first <= t && Inside(p, t, identity).time <= last
    ensures InOrder(i, t, Inside(p, t, identity).time)
    ensures var (cmd, env, exe) := Inside(p, t, identity).result.value; Vouched(p, identity, who, i, cmd, env, exe)
  {
    var owners := {(0, 0), identity};
    InsideParts(p, t, identity);
    var status := Credible(p, t, identity);
    var memory := Memory(p, status.time, owners);
    var exe := Exe(p, memory.time, owners);
    var account := CredibleIsOf(p, t, identity, who, first, last);
    var link, held, relink := ExeIsPinned(p, memory.time, owners, who, first, last);
    var reaccount := CredibleIsOf(p, exe.time, identity, who, first, last);
    i := Instants(account, link, held, relink, reaccount);
    assert Holds(p, who, account, reaccount);
    MemoryParses(p, status.time, owners, who, account, reaccount);
    MemoryBelongs(p, status.time, owners, who, account, reaccount);
  }

  /** The directory's instance and instants: trusted by its name, held, and shown by its name again. */
  ghost predicate DirectoryKept(p: Procfs, identity: (nat, nat), named: nat, held: nat, again: nat) {
    && p.owner(named).Some? && p.owner(again).Some?
    && Trusted(p.meta(p.owner(named).value, Itself, named), true, {(0, 0), identity})
    && exists dir, o :: named < o < held && p.owner(o) == Some(dir) &&
                        KeyOf(p.meta(dir, Itself, held)) == KeyOf(p.meta(p.owner(again).value, Itself, again))
  }

  /** What the opening of an entry by its name shows. */
  lemma OpenParts(p: Procfs, t: nat, e: Entry, owners: set<(nat, nat)>) returns (named: nat)
    requires Open(p, t, e, owners).result.Ok?
    ensures var (fd, before) := Open(p, t, e, owners).result.value;
            && t < named < fd.start <= Open(p, t, e, owners).time
            && p.owner(named).Some? && Trusted(p.meta(p.owner(named).value, e, named), e.Itself?, owners)
            && fd.entry == e && p.owner(fd.start) == Some(fd.instance)
  {
    named := Next(p.gap, t);
  }

  lemma RecheckParts(p: Procfs, t: nat, fd: Fd, before: Stat)
    requires ProcessSnapshot.Recheck(p, t, fd, before).result.Ok?
    ensures var again := ProcessSnapshot.Recheck(p, t, fd, before).time;
            p.owner(again).Some? && KeyOf(before) == KeyOf(p.meta(p.owner(again).value, fd.entry, again))
  {
  }

  lemma SnapshotCalls(p: Procfs, t: nat, identity: (nat, nat))
    requires Snapshot(p, t, identity).result.Ok?
    ensures 1 < p.pid < 0x1_0000_0000 && OpenAbove(p, t).result.Ok?
    ensures var directory := Open(p, OpenAbove(p, t).time, Itself, {(0, 0), identity});
            && directory.result.Ok?
            && var (held, fd) := (Next(p.gap, directory.time), directory.result.value.0);
            && Snapshot(p, t, identity) == Enclosed(p, held, fd, p.meta(fd.instance, Itself, held), identity)
  {
    var directory := Open(p, OpenAbove(p, t).time, Itself, {(0, 0), identity});
    var named := OpenParts(p, OpenAbove(p, t).time, Itself, {(0, 0), identity});
  }

  lemma EnclosedParts(p: Procfs, t: nat, fd: Fd, initial: Stat, identity: (nat, nat))
    requires Enclosed(p, t, fd, initial, identity).result.Ok?
    ensures var taken := Bracketed(p, t, identity);
            var same := ProcessSnapshot.Recheck(p, taken.time, fd, initial);
            taken.result.Ok? && same.result.Ok? && Enclosed(p, t, fd, initial, identity) == Run(same.time, taken.result)
  {
  }

  lemma DirectoryParts(p: Procfs, t: nat, identity: (nat, nat)) returns (named: nat, held: nat, again: nat)
    requires Snapshot(p, t, identity).result.Ok?
    ensures t < named < held < again == Snapshot(p, t, identity).time && DirectoryKept(p, identity, named, held, again)
    ensures 1 < p.pid < 0x1_0000_0000 && Bracketed(p, held, identity).result == Snapshot(p, t, identity).result
    ensures Bracketed(p, held, identity).time < again
  {
    SnapshotCalls(p, t, identity);
    var above := OpenAbove(p, t).time;
    var directory := Open(p, above, Itself, {(0, 0), identity});
    var fd := directory.result.value.0;
    named := OpenParts(p, above, Itself, {(0, 0), identity});
    held, again := Next(p.gap, directory.time), Snapshot(p, t, identity).time;
    EnclosedParts(p, held, fd, p.meta(fd.instance, Itself, held), identity);
    RecheckParts(p, Bracketed(p, held, identity).time, fd, p.meta(fd.instance, Itself, held));
    assert named < fd.start < held && p.owner(fd.start) == Some(fd.instance);
  }

  /** All of this for one pass. */
  lemma BracketIsVouched(p: Procfs, t: nat, identity: (nat, nat)) returns (who: nat, first: nat, last: nat, i: Instants)
    requires LaterReuse(p) && RendersStat(p) && StampsTell(p) && Bracketed(p, t, identity).result.Ok?
    ensures t < first && last <= Bracketed(p, t, identity).time && InOrder(i, first, last) && Holds(p, who, first, last)
    ensures var taken := Bracketed(p, t, identity).result.value;
            taken.start == p.born(who) && Vouched(p, identity, who, i, taken.cmdline, taken.environment, taken.executable)
  {
    var owners := {(0, 0), identity};
    BracketParts(p, t, identity);
    var start := Started(p, t, owners);
    var inside := Inside(p, start.time, identity);
    first := StartedIsBirth(p, t, owners);
    last := StartedIsBirth(p, inside.time, owners);
    SameStartSameOwner(p, first, last);
    who := p.owner(first).value;
    i := InsideIsVouched(p, start.time, identity, who, first, last);
  }

  /**
   If reused PIDs get later start times and executables do not reuse stamps, a snapshot
   that is returned is of one instance that had the PID from first to last, under the
   service's account before and after its memory and executable were read, linked to the
   packaged path before and after, with a trusted executable of the pinned digest, and
   under one directory.
   */
  lemma SnapshotIsVouched(p: Procfs, t: nat, identity: (nat, nat))
    returns (who: nat, first: nat, last: nat, i: Instants, named: nat, held: nat, again: nat)
    requires LaterReuse(p) && RendersStat(p) && StampsTell(p) && Snapshot(p, t, identity).result.Ok?
    ensures 1 < p.pid < 0x1_0000_0000
    ensures t < named < held < first && last < again == Snapshot(p, t, identity).time
    ensures InOrder(i, first, last) && Holds(p, who, first, last) && DirectoryKept(p, identity, named, held, again)
    ensures var taken := Snapshot(p, t, identity).result.value;
            taken.start == p.born(who) && Vouched(p, identity, who, i, taken.cmdline, taken.environment, taken.executable)
  {
    named, held, again := DirectoryParts(p, t, identity);
    who, first, last, i := BracketIsVouched(p, held, identity);
  }

  /**
   So an observation that is reported rests on a pinned executable, running as the
   service under the manager's main PID, between the observation's start and its end.
   */
  lemma ObservedProcessIsVouched(bus: ServiceConfiguration.Bus, processes: nat -> Procfs, t: nat, identity: (nat, nat))
    returns (c: ServiceConfiguration.Configuration, taken: Taken, who: nat, first: nat, last: nat, i: Instants)
    requires forall n :: var p := ServiceProcess.ProcessOf(processes, n); LaterReuse(p) && RendersStat(p) && StampsTell(p)
    requires ServiceProcess.Anchored(bus, processes, t, identity).result.Ok?
    ensures ServiceConfiguration.Complete(c) && ServiceProcess.MainPid(c) > 1 && ServiceProcess.NotAnchored(c).None?
    ensures t <= first && last <= ServiceProcess.Anchored(bus, processes, t, identity).time && InOrder(i, first, last)
    ensures var p := ServiceProcess.ProcessOf(processes, ServiceProcess.MainPid(c));
            && Holds(p, who, first, last) && taken.start == p.born(who)
            && Vouched(p, identity, who, i, taken.cmdline, taken.environment, taken.executable)
    ensures ServiceProcess.Anchored(bus, processes, t, identity).result == ServiceProcess.Counts(taken)
  {
    var anchor := ServiceProcess.Anchor(bus, t);
    c := anchor.result.value;
    var process := ServiceProcess.ProcessOf(processes, ServiceProcess.MainPid(c));
    ServiceProcess.AnchorIsRead(bus, t);
    ServiceProcess.StepsParts(bus, process, anchor.time, identity, c);
    ServiceProcess.StepParts(bus, process, anchor.time, identity, c);
    taken := Snapshot(process, anchor.time, identity).result.value;
    var named, held, again;
    who, first, last, i, named, held, again := SnapshotIsVouched(process, anchor.time, identity);
  }
}
