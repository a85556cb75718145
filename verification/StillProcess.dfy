/** A process that stays as it is: a snapshot of it succeeds exactly when it should. */
module StillProcess {
  import opened Common
  import opened Kernel
  import opened OperatorFs
  import opened ProcStat
  import opened ProcessSnapshot
  import ServiceConfiguration
  import ServiceProcess

  /** How a process and the directories above it look. */
  datatype Image = Image(stat: Entry -> Stat, text: Entry -> string, link: string, above: Above -> Stat)

  /** From `t` on nothing fails, the PID stays with `who`, and all looks like this. */
  ghost predicate Still(p: Procfs, who: nat, image: Image, t: nat) {
    forall u :: t <= u ==> Looks(p, who, image, u)
  }

  ghost predicate Looks(p: Procfs, who: nat, image: Image, u: nat) {
    && p.fault(u).None? && p.owner(u) == Some(who) && p.link(who, u) == image.link
    && (forall e :: p.meta(who, e, u) == image.stat(e))
    && (forall e :: p.text(who, e, u) == image.text(e))
    && (forall a :: p.above(a, u) == image.above(a))
  }

  /** A read gives the whole text, or more than the limit allows. */
  lemma {:induction false} StillRead(p: Procfs, t: nat, fd: Fd, data: string, limit: nat, who: nat, image: Image, since: nat)
    requires Still(p, who, image, since) && since <= t && since <= fd.start && fd.instance == who
    requires data <= image.text(fd.entry)
    ensures var run, text := ReadOn(p, t, fd, data, limit), image.text(fd.entry);
            run.result.Ok? && if |text| <= limit then run.result.value == text else |run.result.value| > limit
    decreases limit + 1 - |data|
  {
    if |data| <= limit {
      var t1 := Next(p.gap, t);
      assert Looks(p, who, image, t1) && Looks(p, who, image, fd.start);
      assert Shown(p, t1, fd) == image.text(fd.entry);
      var chunk := ReadingAt(p, t1, fd, |data|, Amount(limit, |data|));
      if chunk.value != "" {
        assert data + chunk.value <= image.text(fd.entry);
        StillRead(p, t1, fd, data + chunk.value, limit, who, image, since);
      }
    }
  }

  lemma StillOpen(p: Procfs, t: nat, e: Entry, owners: set<(nat, nat)>, who: nat, image: Image)
    requires Still(p, who, image, t)
    ensures var run := Open(p, t, e, owners);
            && (run.result.Ok? <==> Trusted(image.stat(e), e.Itself?, owners))
            && (run.result.Ok? ==> var (fd, before) := run.result.value;
                                   fd.instance == who && fd.entry == e && t <= fd.start && before == image.stat(e))
  {
    var t1 := Next(p.gap, t);
    var t2 := Next(p.gap, t1);
    var t3 := Next(p.gap, t2);
    assert Looks(p, who, image, t1) && Looks(p, who, image, t2) && Looks(p, who, image, t3);
  }

  lemma StillRecheck(p: Procfs, t: nat, fd: Fd, who: nat, image: Image)
    requires Still(p, who, image, t) && fd.instance == who
    ensures ProcessSnapshot.Recheck(p, t, fd, image.stat(fd.entry)).result.Ok?
  {
    var t1 := Next(p.gap, t);
    var t2 := Next(p.gap, t1);
    assert Looks(p, who, image, t1) && Looks(p, who, image, t2);
  }

  /** A small file can be read. */
  ghost predicate Legible(image: Image, e: Entry, owners: set<(nat, nat)>) {
    Trusted(image.stat(e), e.Itself?, owners) && |image.text(e)| <= LimitOf(e)
  }

  /** The result is this value exactly when the condition holds. */
  ghost predicate Gives<T>(run: Run<T>, condition: bool, value: T) {
    (run.result.Ok? <==> condition) && (condition ==> run.result == Ok(value))
  }

  lemma StillSmall(p: Procfs, t: nat, e: Entry, owners: set<(nat, nat)>, who: nat, image: Image)
    requires Still(p, who, image, t)
    ensures Gives(Small(p, t, e, owners), Legible(image, e, owners), image.text(e))
  {
    StillOpen(p, t, e, owners, who, image);
    var entered := Open(p, t, e, owners);
    if entered.result.Ok? {
      var fd := entered.result.value.0;
      StillRead(p, entered.time, fd, "", LimitOf(e), who, image, t);
      StillRecheck(p, ReadOn(p, entered.time, fd, "", LimitOf(e)).time, fd, who, image);
    }
  }

  /** The executable is the pinned one. */
  ghost predicate Genuine(p: Procfs, image: Image, owners: set<(nat, nat)>) {
    var stat, text := image.stat(Executable), image.text(Executable);
    && image.link == NODE && Trusted(stat, false, owners)
    && 0 < stat.size == |text| <= EXE_LIMIT && p.sha(text) == p.pinned
  }

  lemma StillDigest(p: Procfs, t: nat, fd: Fd, owners: set<(nat, nat)>, who: nat, image: Image)
    requires Still(p, who, image, t) && fd.instance == who && fd.entry == Executable && t <= fd.start && image.link == NODE
    ensures Gives(Digest(p, t, fd, owners), Genuine(p, image, owners), image.stat(Executable).inode)
  {
    var t1 := Next(p.gap, t);
    assert Looks(p, who, image, t1);
    StillRead(p, t1, fd, "", EXE_LIMIT, who, image, t);
    var t2 := Next(p.gap, ReadOn(p, t1, fd, "", EXE_LIMIT).time);
    var t3 := Next(p.gap, t2);
    var t4 := Next(p.gap, t3);
    assert Looks(p, who, image, t2) && Looks(p, who, image, t3) && Looks(p, who, image, t4);
  }

  lemma StillExe(p: Procfs, t: nat, owners: set<(nat, nat)>, who: nat, image: Image)
    requires Still(p, who, image, t)
    ensures Gives(Exe(p, t, owners), Genuine(p, image, owners), image.stat(Executable).inode)
  {
    var t1 := Next(p.gap, t);
    var t2 := Next(p.gap, t1);
    assert Looks(p, who, image, t1) && Looks(p, who, image, t2);
    if image.link == NODE {
      StillDigest(p, t2, Fd(who, Executable, t2), owners, who, image);
    }
  }

  // ----- One pass -----

  ghost predicate StartsAt(image: Image, pid: nat, owners: set<(nat, nat)>) {
    Legible(image, StatFile, owners) && StartTime(image.text(StatFile), pid).Ok?
  }

  function StartOf(image: Image, pid: nat): nat {
    var start := StartTime(image.text(StatFile), pid);
    if start.Ok? then start.value else 0
  }

  lemma StillStarted(p: Procfs, t: nat, owners: set<(nat, nat)>, who: nat, image: Image)
    requires Still(p, who, image, t)
    ensures Gives(Started(p, t, owners), StartsAt(image, p.pid, owners), StartOf(image, p.pid))
  {
    StillSmall(p, t, StatFile, owners, who, image);
  }

  ghost predicate Accounted(image: Image, identity: (nat, nat)) {
    Legible(image, StatusFile, {(0, 0), identity}) && Credentials(image.text(StatusFile), identity)
  }

  lemma StillCredible(p: Procfs, t: nat, identity: (nat, nat), who: nat, image: Image)
    requires Still(p, who, image, t)
    ensures Gives(Credible(p, t, identity), Accounted(image, identity), image.text(StatusFile))
  {
    StillSmall(p, t, StatusFile, {(0, 0), identity}, who, image);
  }

  ghost predicate Parses(image: Image, owners: set<(nat, nat)>) {
    && Legible(image, Cmdline, owners) && Arguments(image.text(Cmdline)).Ok?
    && Legible(image, Environ, owners) && EnvironmentOf(image.text(Environ)).Ok?
  }

  lemma StillMemory(p: Procfs, t: nat, owners: set<(nat, nat)>, who: nat, image: Image)
    requires Still(p, who, image, t)
    ensures Gives(Memory(p, t, owners), Parses(image, owners), (image.text(Cmdline), image.text(Environ)))
  {
    StillSmall(p, t, Cmdline, owners, who, image);
    StillSmall(p, Small(p, t, Cmdline, owners).time, Environ, owners, who, image);
  }

  lemma StillInside(p: Procfs, t: nat, identity: (nat, nat), who: nat, image: Image)
    requires Still(p, who, image, t)
    ensures var owners := {(0, 0), identity};
            Gives(Inside(p, t, identity), Accounted(image, identity) && Parses(image, owners) && Genuine(p, image, owners),
                  (image.text(Cmdline), image.text(Environ), image.stat(Executable).inode))
  {
    var owners := {(0, 0), identity};
    StillCredible(p, t, identity, who, image);
    var status := Credible(p, t, identity);
    StillMemory(p, status.time, owners, who, image);
    var memory := Memory(p, status.time, owners);
    StillExe(p, memory.time, owners, who, image);
    StillCredible(p, Exe(p, memory.time, owners).time, identity, who, image);
  }

  /** All that is demanded of the process. */
  ghost predicate Sound(p: Procfs, image: Image, identity: (nat, nat)) {
    var owners := {(0, 0), identity};
    StartsAt(image, p.pid, owners) && Accounted(image, identity) && Parses(image, owners) && Genuine(p, image, owners)
  }

  /** What a snapshot of it holds. */
  function TakenOf(p: Procfs, image: Image): Taken {
    Taken(StartOf(image, p.pid), image.stat(Executable).inode, image.text(Cmdline), image.text(Environ))
  }

  lemma StillBracket(p: Procfs, t: nat, identity: (nat, nat), who: nat, image: Image)
    requires Still(p, who, image, t)
    ensures Gives(Bracketed(p, t, identity), Sound(p, image, identity), TakenOf(p, image))
  {
    var owners := {(0, 0), identity};
    StillStarted(p, t, owners, who, image);
    var start := Started(p, t, owners);
    StillInside(p, start.time, identity, who, image);
    StillStarted(p, Inside(p, start.time, identity).time, owners, who, image);
  }

  /** The directories above are trusted. */
  ghost predicate AboveTrusted(image: Image) {
    Trusted(image.above(Root), true, {(0, 0)}) && Trusted(image.above(Proc), true, {(0, 0)})
  }

  lemma StillAbove(p: Procfs, t: nat, who: nat, image: Image)
    requires Still(p, who, image, t)
    ensures OpenAbove(p, t).result.Ok? <==> AboveTrusted(image)
  {
    var t1 := Next(p.gap, t);
    var t2 := Next(p.gap, t1);
    var t3 := Next(p.gap, t2);
    var t4 := Next(p.gap, t3);
    var t5 := Next(p.gap, t4);
    assert Looks(p, who, image, t1) && Looks(p, who, image, t2) && Looks(p, who, image, t3) && Looks(p, who, image, t4) && Looks(p, who, image, t5);
  }

  lemma StillEnclosed(p: Procfs, t: nat, fd: Fd, identity: (nat, nat), who: nat, image: Image)
    requires Still(p, who, image, t) && fd.instance == who
    ensures Gives(Enclosed(p, t, fd, image.stat(fd.entry), identity), Sound(p, image, identity), TakenOf(p, image))
  {
    StillBracket(p, t, identity, who, image);
    StillRecheck(p, Bracketed(p, t, identity).time, fd, who, image);
  }

  /** All that is demanded of a process for a snapshot. */
  ghost predicate Presentable(p: Procfs, image: Image, identity: (nat, nat)) {
    && 1 < p.pid < 0x1_0000_0000 && AboveTrusted(image)
    && Trusted(image.stat(Itself), true, {(0, 0), identity}) && Sound(p, image, identity)
  }

  /**
   However the calls are spaced and the reads cut up, a snapshot of a still process
   succeeds exactly when the PID is in range, everything is trusted and within its limit,
   stat line, account, arguments and environment are well formed, and the executable is
   the pinned one; and it then holds what is there.
   */
  lemma StillSnapshotExactly(p: Procfs, t: nat, identity: (nat, nat), who: nat, image: Image)
    requires Still(p, who, image, t)
    ensures Gives(Snapshot(p, t, identity), Presentable(p, image, identity), TakenOf(p, image))
  {
    StillAbove(p, t, who, image);
    var above, owners := OpenAbove(p, t).time, {(0, 0), identity};
    StillOpen(p, above, Itself, owners, who, image);
    var directory := Open(p, above, Itself, owners);
    if directory.result.Ok? {
      var fd, t1 := directory.result.value.0, Next(p.gap, directory.time);
      assert Looks(p, who, image, t1);
      assert HeldAt(p, t1, fd) == Ok(image.stat(Itself));
      StillEnclosed(p, t1, fd, identity, who, image);
    }
  }

  // ----- The observation -----

  lemma StillIsSteady(p: Procfs, t: nat, identity: (nat, nat), who: nat, image: Image)
    requires Still(p, who, image, t) && Presentable(p, image, identity)
    ensures ServiceProcess.Steady(p, identity, TakenOf(p, image), t)
  {
    forall u | t <= u ensures Snapshot(p, u, identity).result == Ok(TakenOf(p, image)) {
      StillSnapshotExactly(p, u, identity, who, image);
    }
  }

  /** A still main process under a settled manager is reported exactly when it is presentable, with its own counts. */
  lemma StillObservationExactly(bus: ServiceConfiguration.Bus, processes: nat -> Procfs, t: nat, identity: (nat, nat),
                                c: ServiceConfiguration.Configuration, who: nat, image: Image)
    requires ServiceConfiguration.Settled(bus, c, t) && ServiceConfiguration.Complete(c)
    requires ServiceConfiguration.Summarize(c).Ok? && ServiceProcess.NotAnchored(c).None?
    requires ServiceProcess.MainPid(c) >= 0 && Still(ServiceProcess.ProcessOf(processes, ServiceProcess.MainPid(c)), who, image, t)
    ensures var p := ServiceProcess.ProcessOf(processes, ServiceProcess.MainPid(c));
            var run := ServiceProcess.Anchored(bus, processes, t, identity);
            && (run.result.Ok? <==> Presentable(p, image, identity))
            && (run.result.Ok? ==> run.result == ServiceProcess.Counts(TakenOf(p, image)))
  {
    var p := ServiceProcess.ProcessOf(processes, ServiceProcess.MainPid(c));
    if Presentable(p, image, identity) {
      StillIsSteady(p, t, identity, who, image);
      ServiceProcess.SteadyIsReported(bus, processes, t, identity, c, TakenOf(p, image));
      CountsOf(p, image, identity);
    } else if ServiceProcess.Anchored(bus, processes, t, identity).result.Ok? {
      ServiceProcess.AnchorOfSettled(bus, c, t);
      var anchor := ServiceProcess.Anchor(bus, t);
      ServiceProcess.StepsParts(bus, p, anchor.time, identity, c);
      ServiceProcess.StepParts(bus, p, anchor.time, identity, c);
      StillSnapshotExactly(p, anchor.time, identity, who, image);
    }
  }

  lemma CountsOf(p: Procfs, image: Image, identity: (nat, nat))
    requires Presentable(p, image, identity)
    ensures ServiceProcess.Counts(TakenOf(p, image)).Ok?
  {
  }
}
