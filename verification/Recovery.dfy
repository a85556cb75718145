/**
 The rollback decision of siem/rbac/broker_tls/operator_core.py, in a world where
 the operator may crash, see only part of the state, or fail to act, and where the
 Dashboard may start whenever startup is not inhibited and, while it runs, change
 the files its own account owns.
 */
module Recovery {
  import opened Common

  const ORIGINAL: string := "d691047acfa9b9a779a94251c6b813e0" + "296eaf53b3b202e89cb56b44eee48afb"
  const CANDIDATE: string := "fe721feb8599293853e10d33823e68ff" + "72df001be00382e3701d5da645aba28f"

  /** `None` is "not observed", never "false". */
  datatype Observation = Observation(
    stopped: Option<bool>, inhibited: Option<bool>, client: Option<string>,
    backup: Option<string>, backupVerified: Option<bool>, metadataRestored: Option<bool>)

  datatype Action = InhibitStartup | StopDashboard | HoldUnknownClient | HoldUnverifiedBackup
                  | RestoreOriginal | RestoreMetadata | RolledBack

  /** `recovery_step` */
  function RecoveryStep(o: Observation): Result<Action, string> {
    if (o.client.Some? && !HexDigest(o.client.value)) || (o.backup.Some? && !HexDigest(o.backup.value)) then
      Err("RECOVERY_OBSERVATION")
    else Ok(
           if o.inhibited != Some(true) then InhibitStartup
           else if o.stopped != Some(true) then StopDashboard
           else if o.client != Some(ORIGINAL) && o.client != Some(CANDIDATE) then HoldUnknownClient
           else if o.backup != Some(ORIGINAL) || o.backupVerified != Some(true) then HoldUnverifiedBackup
           else if o.client == Some(CANDIDATE) then RestoreOriginal
           else if o.metadataRestored != Some(true) then RestoreMetadata
           else RolledBack)
  }

  lemma PinsDiffer()
    ensures ORIGINAL != CANDIDATE
  {
    assert "d691047acfa9b9a779a94251c6b813e0"[0] != "fe721feb8599293853e10d33823e68ff"[0];
    assert ORIGINAL[0] != CANDIDATE[0];
  }

  /** The observation's digests are digests. */
  predicate Readable(o: Observation) {
    (o.client.Some? ==> HexDigest(o.client.value)) && (o.backup.Some? ==> HexDigest(o.backup.value))
  }

  // ----- The world -----

  /** The real state; `client` is `None` when the file is missing. */
  datatype World = World(running: bool, inhibited: bool, client: Option<string>, restored: bool,
                         backup: Option<string>, backupVerified: bool)

  datatype Field = Inhibited | Stopped | Client | Metadata | Backup | BackupMetadata

  /** The world and what the operator has seen of it since it last acted or crashed. */
  datatype State = State(world: World, seen: Observation, looks: nat)

  const NOTHING := Observation(None, None, None, None, None, None)

  datatype Event =
    | Start
    | Halt
    | Rewrite(client: Option<string>, restored: bool)
    | InhibitElsewhere
    | Look(visible: bool)
    | Crash
    | Act(succeeds: bool, keepsMetadata: bool)

  function LookAt(w: World, seen: Observation, field: Field): Observation {
    match field
    case Inhibited => seen.(inhibited := Some(w.inhibited))
    case Stopped => seen.(stopped := Some(!w.running))
    case Client => seen.(client := w.client)
    case Metadata => seen.(metadataRestored := Some(w.restored))
    case Backup => seen.(backup := w.backup)
    case BackupMetadata => seen.(backupVerified := Some(w.backupVerified))
  }

  function Perform(w: World, action: Action, keepsMetadata: bool): World {
    match action
    case InhibitStartup => w.(inhibited := true)
    case StopDashboard => w.(running := false)
    case RestoreOriginal => w.(client := w.backup, restored := keepsMetadata)
    case RestoreMetadata => w.(restored := true)
    case _ => w
  }

  /**
   One step; `None` when it cannot happen. `order` is the order in which the operator
   looks at the six fields. The private backup is never written.
   */
  function Step(order: seq<Field>, s: State, e: Event): Option<State> {
    var w := s.world;
    match e
    case Start => if w.inhibited then None else Some(s.(world := w.(running := true)))
    case Halt => Some(s.(world := w.(running := false)))
    case Rewrite(client, restored) =>
      if w.running then Some(s.(world := w.(client := client, restored := restored))) else None
    case InhibitElsewhere => Some(s.(world := w.(inhibited := true)))
    case Look(visible) =>
      if s.looks >= |order| then None
      else Some(State(w, if visible then LookAt(w, s.seen, order[s.looks]) else s.seen, s.looks + 1))
    case Crash => Some(State(w, NOTHING, 0))
    case Act(succeeds, keepsMetadata) =>
      var answer := RecoveryStep(s.seen);
      Some(State(if succeeds && answer.Ok? then Perform(w, answer.value, keepsMetadata) else w, NOTHING, 0))
  }

  function Run(order: seq<Field>, s: State, events: seq<Event>): Option<State>
    decreases |events|
  {
    if events == [] then Some(s)
    else
      var next := Step(order, s, events[0]);
      if next.None? then None else Run(order, next.value, events[1..])
  }

  /** Startup is looked at before the service, and the service before its files. */
  ghost predicate Ordered(order: seq<Field>) {
    forall i, j :: 0 <= i < j < |order| ==>
                     !(order[i] == Stopped && order[j] == Inhibited)
                     && !(order[i] in {Client, Metadata} && order[j] in {Inhibited, Stopped})
                     && order[i] != order[j]
  }

  // ----- Safety over every run -----

  ghost predicate Looked(order: seq<Field>, looks: nat, field: Field) {
    exists i :: 0 <= i < looks && i < |order| && order[i] == field
  }

  /** What was not looked at is not known. */
  ghost predicate OnlyLooked(order: seq<Field>, s: State) {
    && s.looks <= |order|
    && (s.seen.inhibited.Some? ==> Looked(order, s.looks, Inhibited))
    && (s.seen.stopped.Some? ==> Looked(order, s.looks, Stopped))
    && (s.seen.client.Some? ==> Looked(order, s.looks, Client))
    && (s.seen.metadataRestored.Some? ==> Looked(order, s.looks, Metadata))
  }

  /** What was seen of startup, then of the service and then of its files is true. */
  predicate StillTrue(w: World, seen: Observation) {
    var held := seen.inhibited == Some(true) && seen.stopped == Some(true);
    && (seen.inhibited == Some(true) ==> w.inhibited)
    && (held ==> !w.running)
    && (held && seen.client.Some? ==> w.client == seen.client)
    && (held && seen.metadataRestored.Some? ==> Some(w.restored) == seen.metadataRestored)
    && (seen.backup.Some? ==> w.backup == seen.backup)
    && (seen.backupVerified.Some? ==> Some(w.backupVerified) == seen.backupVerified)
  }

  /** What was seen in order stays true; what was not looked at is not known. */
  ghost predicate SeenHolds(order: seq<Field>, s: State) {
    OnlyLooked(order, s) && StillTrue(s.world, s.seen)
  }

  /** Nothing that depends on a field is known before the field is looked at. */
  predicate InTurn(seen: Observation, field: Field) {
    && (field == Inhibited ==> seen.stopped.None? && seen.client.None? && seen.metadataRestored.None?)
    && (field == Stopped ==> seen.client.None? && seen.metadataRestored.None?)
  }

  lemma NextIsInTurn(order: seq<Field>, s: State)
    requires Ordered(order) && OnlyLooked(order, s) && s.looks < |order|
    ensures InTurn(s.seen, order[s.looks])
  {
  }

  lemma LookStaysTrue(w: World, seen: Observation, field: Field)
    requires StillTrue(w, seen) && InTurn(seen, field)
    ensures StillTrue(w, LookAt(w, seen, field))
  {
  }

  lemma LookedGrows(order: seq<Field>, s: State, visible: bool)
    requires OnlyLooked(order, s) && s.looks < |order|
    ensures OnlyLooked(order, Step(order, s, Look(visible)).value)
  {
    forall field | Looked(order, s.looks, field) ensures Looked(order, s.looks + 1, field) {}
    assert Looked(order, s.looks + 1, order[s.looks]);
  }

  lemma LookKeepsSeen(order: seq<Field>, s: State, visible: bool)
    requires Ordered(order) && SeenHolds(order, s) && s.looks < |order|
    ensures SeenHolds(order, Step(order, s, Look(visible)).value)
  {
    NextIsInTurn(order, s);
    LookStaysTrue(s.world, s.seen, order[s.looks]);
    LookedGrows(order, s, visible);
  }

  lemma StepKeepsSeen(order: seq<Field>, s: State, e: Event)
    requires Ordered(order) && SeenHolds(order, s) && Step(order, s, e).Some?
    ensures SeenHolds(order, Step(order, s, e).value)
  {
    if e.Look? {
      LookKeepsSeen(order, s, e.visible);
    }
  }

  lemma {:induction false} RunKeepsSeen(order: seq<Field>, s: State, events: seq<Event>)
    requires Ordered(order) && SeenHolds(order, s) && Run(order, s, events).Some?
    ensures SeenHolds(order, Run(order, s, events).value)
    decreases |events|
  {
    if events != [] {
      StepKeepsSeen(order, s, events[0]);
      RunKeepsSeen(order, Step(order, s, events[0]).value, events[1..]);
    }
  }

  /** An operator that has seen nothing yet. */
  predicate Fresh(s: State) { s.seen == NOTHING && s.looks == 0 }

  /**
   Whatever happened before, an action changes the client's bytes only while startup
   is inhibited, the Dashboard is stopped and the bytes are the candidate's, and it
   puts the original in their place. Anything else is left as it is.
   */
  lemma RestoresOnlyCandidate(order: seq<Field>, s: State, events: seq<Event>, succeeds: bool, keepsMetadata: bool)
    requires Ordered(order) && Fresh(s) && Run(order, s, events).Some?
    ensures var before := Run(order, s, events).value;
            var after := Step(order, before, Act(succeeds, keepsMetadata)).value;
            before.world.client != after.world.client ==>
              && before.world.inhibited && !before.world.running
              && before.world.client == Some(CANDIDATE) && before.world.backup == Some(ORIGINAL) && before.world.backupVerified
              && after.world == before.world.(client := Some(ORIGINAL), restored := keepsMetadata)
  {
    RunKeepsSeen(order, s, events);
  }

  /** The final answer is true: stopped, inhibited, original bytes, original metadata. */
  predicate IsRolledBack(w: World) {
    w.inhibited && !w.running && w.client == Some(ORIGINAL) && w.restored
  }

  lemma FinalAnswerIsTrue(order: seq<Field>, s: State, events: seq<Event>)
    requires Ordered(order) && Fresh(s) && Run(order, s, events).Some?
    requires RecoveryStep(Run(order, s, events).value.seen) == Ok(RolledBack)
    ensures IsRolledBack(Run(order, s, events).value.world)
  {
    RunKeepsSeen(order, s, events);
  }

  /** Inhibition and, under it, a stop are permanent. */
  lemma {:induction false} StopIsPermanent(order: seq<Field>, s: State, events: seq<Event>)
    requires s.world.inhibited && !s.world.running && Run(order, s, events).Some?
    ensures Run(order, s, events).value.world.inhibited && !Run(order, s, events).value.world.running
    decreases |events|
  {
    if events != [] {
      StopIsPermanent(order, Step(order, s, events[0]).value, events[1..]);
    }
  }

  /**
   A hold is given exactly when startup is seen to be inhibited
   and the service to be stopped, and the client is not seen to be one of the two pinned
   files, or it is and the backup is not seen to be the verified original.
   */
  lemma HoldsExactly(o: Observation)
    ensures var under := Readable(o) && o.inhibited == Some(true) && o.stopped == Some(true);
            var known := o.client in {Some(ORIGINAL), Some(CANDIDATE)};
            var backed := o.backup == Some(ORIGINAL) && o.backupVerified == Some(true);
            && (RecoveryStep(o) == Ok(HoldUnknownClient) <==> under && !known)
            && (RecoveryStep(o) == Ok(HoldUnverifiedBackup) <==> under && known && !backed)
  {
    PinsDiffer();
  }

  /** What is not observed is never taken as done: an unseen field gets the answer of its worst value. */
  lemma UnseenIsNotDone(o: Observation)
    requires Readable(o)
    ensures o.inhibited.None? ==> RecoveryStep(o) == RecoveryStep(o.(inhibited := Some(false)))
    ensures o.stopped.None? ==> RecoveryStep(o) == RecoveryStep(o.(stopped := Some(false)))
    ensures o.backupVerified.None? ==> RecoveryStep(o) == RecoveryStep(o.(backupVerified := Some(false)))
    ensures o.metadataRestored.None? ==> RecoveryStep(o) == RecoveryStep(o.(metadataRestored := Some(false)))
  {
  }

  const WRONG_ORDER: seq<Field> := [Stopped, Inhibited, Client, Metadata, Backup, BackupMetadata]

  const LOOK := Look(true)

  /** After the first look, then a start and, only then, the inhibition. */
  function Misled(): State {
    State(World(true, true, Some(CANDIDATE), false, Some(ORIGINAL), true), NOTHING.(stopped := Some(true)), 1)
  }

  /** The other looks complete the observation of the running Dashboard as stopped. */
  lemma MisledLooks()
    ensures Run(WRONG_ORDER, Misled(), [LOOK, LOOK, LOOK, LOOK, LOOK])
         == Some(State(Misled().world, Observation(Some(true), Some(true), Some(CANDIDATE), Some(ORIGINAL), Some(true), Some(false)), 6))
  {
    var s3 := Misled();
    var s4 := State(s3.world, s3.seen.(inhibited := Some(true)), 2);
    var s5 := State(s3.world, s4.seen.(client := Some(CANDIDATE)), 3);
    var s6 := State(s3.world, s5.seen.(metadataRestored := Some(false)), 4);
    var s7 := State(s3.world, s6.seen.(backup := Some(ORIGINAL)), 5);
    var s8 := State(s3.world, Observation(Some(true), Some(true), Some(CANDIDATE), Some(ORIGINAL), Some(true), Some(false)), 6);
    RunThrough(WRONG_ORDER, s7, [LOOK], s8, []);
    RunThrough(WRONG_ORDER, s6, [LOOK, LOOK], s7, [LOOK]);
    RunThrough(WRONG_ORDER, s5, [LOOK, LOOK, LOOK], s6, [LOOK, LOOK]);
    RunThrough(WRONG_ORDER, s4, [LOOK, LOOK, LOOK, LOOK], s5, [LOOK, LOOK, LOOK]);
    RunThrough(WRONG_ORDER, s3, [LOOK, LOOK, LOOK, LOOK, LOOK], s4, [LOOK, LOOK, LOOK, LOOK]);
  }

  /** Looking at the service before the inhibitor lets a restore hit a running Dashboard. */
  lemma WrongOrderIsUnsafe()
    ensures var idle := State(World(false, false, Some(CANDIDATE), false, Some(ORIGINAL), true), NOTHING, 0);
            var before := Run(WRONG_ORDER, idle, [LOOK, Start, InhibitElsewhere, LOOK, LOOK, LOOK, LOOK, LOOK]);
            before.Some? && before.value.world.running
            && Step(WRONG_ORDER, before.value, Act(true, false)).value.world.client == Some(ORIGINAL) != before.value.world.client
  {
    PinsDiffer();
    HexPins();
    var idle := State(World(false, false, Some(CANDIDATE), false, Some(ORIGINAL), true), NOTHING, 0);
    var rest := [LOOK, LOOK, LOOK, LOOK, LOOK];
    var s1 := State(idle.world, NOTHING.(stopped := Some(true)), 1);
    var s2 := s1.(world := idle.world.(running := true));
    RunThrough(WRONG_ORDER, s2, [InhibitElsewhere] + rest, Misled(), rest);
    RunThrough(WRONG_ORDER, s1, [Start, InhibitElsewhere] + rest, s2, [InhibitElsewhere] + rest);
    RunThrough(WRONG_ORDER, idle, [LOOK, Start, InhibitElsewhere] + rest, s1, [Start, InhibitElsewhere] + rest);
    MisledLooks();
    assert [LOOK, Start, InhibitElsewhere] + rest == [LOOK, Start, InhibitElsewhere, LOOK, LOOK, LOOK, LOOK, LOOK];
  }

  lemma RunThrough(order: seq<Field>, s: State, events: seq<Event>, next: State, rest: seq<Event>)
    requires events != [] && events[1..] == rest && Step(order, s, events[0]) == Some(next)
    ensures Run(order, s, events) == Run(order, next, rest)
  {
  }

  lemma HexPins()
    ensures HexDigest(ORIGINAL) && HexDigest(CANDIDATE)
  {
    OriginalIsHex();
    CandidateIsHex();
  }

  lemma OriginalIsHex()
    ensures AllHex(ORIGINAL)
  {
    OriginalHead();
    assert AllHex("296eaf53b3b202e89cb56b44eee48afb");
  }

  lemma OriginalHead()
    ensures AllHex("d691047acfa9b9a779a94251c6b813e0")
  {
  }

  lemma CandidateIsHex()
    ensures AllHex(CANDIDATE)
  {
    CandidateHead();
    assert AllHex("72df001be00382e3701d5da645aba28f");
  }

  lemma CandidateHead()
    ensures AllHex("fe721feb8599293853e10d33823e68ff")
  {
  }

  // ----- Convergence -----

  /** How many effective actions are left. */
  function Rank(w: World): nat {
    if !w.inhibited then 4
    else if w.running then 3
    else if w.client == Some(CANDIDATE) then 2
    else if w.client == Some(ORIGINAL) && !w.restored then 1
    else 0
  }

  /** During one observation that started at rank `start`. */
  ghost predicate Observing(order: seq<Field>, s: State, start: nat) {
    SeenHolds(order, s) && Rank(s.world) <= start && Explained(s.seen, start)
  }

  /** What was seen to be missing was missing when the observation started. */
  predicate Explained(seen: Observation, start: nat) {
    && (seen.inhibited == Some(false) ==> start == 4)
    && (seen.inhibited == Some(true) && seen.stopped == Some(false) ==> start >= 3)
  }

  lemma LookKeepsRank(w: World, seen: Observation, field: Field, start: nat)
    requires StillTrue(w, seen) && InTurn(seen, field) && Rank(w) <= start <= 4 && Explained(seen, start)
    ensures Explained(LookAt(w, seen, field), start)
  {
    if field == Inhibited {
      assert !w.inhibited ==> Rank(w) == 4;
    } else if field == Stopped {
      assert w.inhibited && w.running ==> Rank(w) == 3;
    }
  }

  /** The operator neither crashes nor acts during a round; others may do anything. */
  predicate Quiet(events: seq<Event>) {
    forall i :: 0 <= i < |events| ==> !events[i].Act? && !events[i].Crash?
  }

  lemma {:induction false} ObservingContinues(order: seq<Field>, s: State, events: seq<Event>, start: nat)
    requires Ordered(order) && Observing(order, s, start) && start <= 4 && Quiet(events) && Run(order, s, events).Some?
    ensures Observing(order, Run(order, s, events).value, start)
    decreases |events|
  {
    if events != [] {
      assert !events[0].Act? && !events[0].Crash?;
      ObservingStep(order, s, events[0], start);
      ObservingContinues(order, Step(order, s, events[0]).value, events[1..], start);
    }
  }

  /** No step of others raises the rank. */
  lemma RankNeverRises(order: seq<Field>, s: State, e: Event)
    requires !e.Act? && Step(order, s, e).Some?
    ensures Rank(Step(order, s, e).value.world) <= Rank(s.world)
  {
    PinsDiffer();
  }

  lemma ObservingStep(order: seq<Field>, s: State, e: Event, start: nat)
    requires Ordered(order) && Observing(order, s, start) && start <= 4 && !e.Act? && !e.Crash? && Step(order, s, e).Some?
    ensures Observing(order, Step(order, s, e).value, start)
  {
    StepKeepsSeen(order, s, e);
    if e.Look? {
      LookContinues(order, s, e.visible, start);
    } else {
      RankNeverRises(order, s, e);
    }
  }

  lemma LookContinues(order: seq<Field>, s: State, visible: bool, start: nat)
    requires Ordered(order) && Observing(order, s, start) && start <= 4 && s.looks < |order|
    requires SeenHolds(order, Step(order, s, Look(visible)).value)
    ensures Observing(order, Step(order, s, Look(visible)).value, start)
  {
    NextIsInTurn(order, s);
    LookKeepsRank(s.world, s.seen, order[s.looks], start);
  }

  /** One round: a complete observation, whatever others do meanwhile, and a successful action. */
  datatype Round = Round(events: seq<Event>, keepsMetadata: bool)

  predicate Complete(o: Observation) {
    o.stopped.Some? && o.inhibited.Some? && o.client.Some? && o.backup.Some? && o.backupVerified.Some? && o.metadataRestored.Some?
  }

  /** The state before the round's action. */
  function Seen(order: seq<Field>, s: State, round: Round): Option<State> {
    Run(order, s, round.events)
  }

  predicate EffectiveRound(order: seq<Field>, s: State, round: Round) {
    var seen := Seen(order, s, round);
    && Quiet(round.events) && seen.Some? && Complete(seen.value.seen)
    && RecoveryStep(seen.value.seen).Ok?
    && RecoveryStep(seen.value.seen).value !in {HoldUnknownClient, HoldUnverifiedBackup}
  }

  function AfterRound(order: seq<Field>, s: State, round: Round): State
    requires EffectiveRound(order, s, round)
  {
    Step(order, Seen(order, s, round).value, Act(true, round.keepsMetadata)).value
  }

  function Answer(order: seq<Field>, s: State, round: Round): Action
    requires EffectiveRound(order, s, round)
  {
    RecoveryStep(Seen(order, s, round).value.seen).value
  }

  /** A round brings the world closer, or finds it rolled back and leaves it so. */
  lemma RoundMakesProgress(order: seq<Field>, s: State, round: Round)
    requires Ordered(order) && Fresh(s) && EffectiveRound(order, s, round)
    ensures Fresh(AfterRound(order, s, round))
    ensures if Answer(order, s, round) == RolledBack then IsRolledBack(AfterRound(order, s, round).world)
            else Rank(AfterRound(order, s, round).world) < Rank(s.world)
  {
    PinsDiffer();
    ObservingContinues(order, s, round.events, Rank(s.world));
    var seen := Seen(order, s, round).value;
    assert Observing(order, seen, Rank(s.world));
    var w, o := seen.world, seen.seen;
    var answer := Answer(order, s, round);
    Decided(o.inhibited);
    Decided(o.stopped);
    Decided(o.metadataRestored);
    assert AfterRound(order, s, round).world == Perform(w, answer, round.keepsMetadata);
    if answer == InhibitStartup {
      assert Rank(s.world) == 4;
    } else if answer == StopDashboard {
      assert Rank(s.world) >= 3 && w.inhibited;
    } else {
      assert w.inhibited && !w.running && w.client == o.client && Some(w.restored) == o.metadataRestored;
      assert w.backup == o.backup;
    }
  }

  lemma Decided(b: Option<bool>)
    requires b.Some?
    ensures b == Some(true) || b == Some(false)
  {
    match b
    case Some(value) => assert value == true || value == false;
  }

  predicate EffectiveRounds(order: seq<Field>, s: State, rounds: seq<Round>)
    decreases |rounds|
  {
    rounds == [] || (EffectiveRound(order, s, rounds[0]) && EffectiveRounds(order, AfterRound(order, s, rounds[0]), rounds[1..]))
  }

  function AfterRounds(order: seq<Field>, s: State, rounds: seq<Round>): State
    requires EffectiveRounds(order, s, rounds)
    decreases |rounds|
  {
    if rounds == [] then s else AfterRounds(order, AfterRound(order, s, rounds[0]), rounds[1..])
  }

  /** The rounds whose answer was to do something. */
  function Actions(order: seq<Field>, s: State, rounds: seq<Round>): nat
    requires EffectiveRounds(order, s, rounds)
    decreases |rounds|
  {
    if rounds == [] then 0
    else (if Answer(order, s, rounds[0]) == RolledBack then 0 else 1)
         + Actions(order, AfterRound(order, s, rounds[0]), rounds[1..])
  }

  lemma {:induction false} RolledBackStays(order: seq<Field>, s: State, rounds: seq<Round>)
    requires Ordered(order) && Fresh(s) && EffectiveRounds(order, s, rounds) && IsRolledBack(s.world)
    ensures Actions(order, s, rounds) == 0 && IsRolledBack(AfterRounds(order, s, rounds).world)
    decreases |rounds|
  {
    if rounds != [] {
      PinsDiffer();
      assert Rank(s.world) == 0;
      RoundMakesProgress(order, s, rounds[0]);
      RolledBackStays(order, AfterRound(order, s, rounds[0]), rounds[1..]);
    }
  }

  /**
   From any world, unless an answer is to hold, at most four actions are taken, and
   five rounds suffice to be rolled back.
   */
  lemma {:induction false} RollbackConverges(order: seq<Field>, s: State, rounds: seq<Round>)
    requires Ordered(order) && Fresh(s) && EffectiveRounds(order, s, rounds)
    ensures Actions(order, s, rounds) <= Rank(s.world) <= 4
    ensures |rounds| > Rank(s.world) ==> IsRolledBack(AfterRounds(order, s, rounds).world)
    decreases |rounds|
  {
    if rounds != [] {
      RoundMakesProgress(order, s, rounds[0]);
      var next := AfterRound(order, s, rounds[0]);
      if Answer(order, s, rounds[0]) == RolledBack {
        RolledBackStays(order, next, rounds[1..]);
      } else {
        RollbackConverges(order, next, rounds[1..]);
      }
    }
  }
}
