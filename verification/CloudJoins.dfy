/** A join and the renames issued before it: which of them can still change the name that the join
    gave, and in which runs. */
module CloudJoins {
  import opened Options
  import opened CloudQueue
  import opened CloudTickets
  import opened CloudRuns
  import opened CloudInbound
  import opened CloudLedger
  import opened CloudPlaces
  import opened CloudSafety
  import opened CloudRemembered
  import opened CloudSequences
  import opened CloudLosses

  // ---- The sequences of renames ----

  predicate Within(low: nat, sequence: nat, c: Core) { low <= sequence < c.nextSequence }

  predicate SendsRename(s: Sys) {
    s.worker.Sending? && s.worker.generation == s.core.generation && s.worker.command.kind.RenameRoom?
  }

  /** An acknowledged rename whose name has not been stored yet, and can be. */
  predicate CommitsRename(s: Sys) {
    s.worker.Renaming? && s.worker.generation == s.core.generation && s.worker.name != "" &&
    |s.worker.name| <= MAX_NAME_BYTES
  }

  predicate CommandsFrom(s: Sys, low: nat) {
    && (forall command | command in s.core.commands :: command.kind.RenameRoom? ==> Within(low, command.sequence, s.core))
    && (SendsRename(s) ==> Within(low, s.worker.command.sequence, s.core))
  }

  predicate AcksFrom(s: Sys, low: nat) {
    && (forall id: nat | id in s.core.acks ::
      s.core.acks[id].kind.RenameRoom? ==> Within(low, s.core.acks[id].commandSequence, s.core))
    && (CommitsRename(s) ==> Within(low, s.worker.sequence, s.core))
  }

  predicate NamesFrom(s: Sys, low: nat) {
    && (forall c | c in s.naming.confirms :: Within(low, c.sequence, s.core))
    && (s.core.desired.Some? && s.core.desired.value.confirmedRenameSequence != 0 ==>
      Within(low, s.core.desired.value.confirmedRenameSequence, s.core))
  }

  /** Every rename of this generation, wherever it is, has a sequence of at least `low`. */
  predicate RenamesFrom(s: Sys, low: nat) {
    low <= s.core.nextSequence && CommandsFrom(s, low) && AcksFrom(s, low) && NamesFrom(s, low)
  }

  // ---- Every step keeps them ----

  /** No rename but one of the queue, of the worker, or issued by this very step. */
  predicate Usual(s: Sys, t: Sys, command: Command) {
    command in s.core.commands || !command.kind.RenameRoom? ||
    (s.worker.Sending? && s.worker.generation == s.core.generation && command == s.worker.command) ||
    s.core.nextSequence <= command.sequence < t.core.nextSequence
  }

  predicate UsualAck(s: Sys, t: Sys, id: nat)
    requires id in t.core.acks
  {
    (id in s.core.acks && t.core.acks[id] == s.core.acks[id]) || !t.core.acks[id].kind.RenameRoom? ||
    (SendsRename(s) && t.core.acks[id].commandSequence == s.worker.command.sequence)
  }

  predicate SameNames(s: Sys, t: Sys) {
    && (t.naming.confirms == s.naming.confirms || t.naming.confirms == [])
    && (t.core.desired.Some? ==> t.core.desired == s.core.desired || t.core.desired.value.confirmedRenameSequence == 0)
  }

  predicate Fewer(s: Sys, t: Sys) {
    && t.core.generation == s.core.generation && s.core.nextSequence <= t.core.nextSequence && SameNames(s, t)
    && (forall command | command in t.core.commands :: Usual(s, t, command))
    && (forall id: nat | id in t.core.acks :: UsualAck(s, t, id))
    && (t.worker.Sending? && t.worker.generation == t.core.generation ==> Usual(s, t, t.worker.command))
    && (t.worker.Renaming? ==> t.worker == s.worker)
  }

  lemma {:induction false} FewerFrom(s: Sys, t: Sys, low: nat)
    requires RenamesFrom(s, low) && Fewer(s, t)
    ensures RenamesFrom(t, low)
  {
  }

  lemma {:induction false} AdmitsUsual(s: Sys, t: Sys, kind: CommandKind)
    requires Admits(s.core, t.core, kind, s.nextTicket) && t.core.nextSequence == s.core.nextSequence + 1
    requires t.core.commands[|t.core.commands| - 1].sequence == s.core.nextSequence
    requires t.core.acks == s.core.acks && t.worker == s.worker && t.core.generation == s.core.generation
    requires SameNames(s, t)
    ensures Fewer(s, t)
  {
  }

  lemma {:induction false} EnqueueFewer(s: Sys, kind: CommandKind, argument: string, secondArgument: string,
    requestId: string, clientRevision: nat, now: int)
    ensures Fewer(s, EnqueueNext(s, kind, argument, secondArgument, requestId, clientRevision, now))
  {
    hide Enqueue, Admits, Within;
    EnqueueEffect(s.core, kind, argument, secondArgument, requestId, clientRevision, now, s.nextTicket);
    EnqueueNumbers(s.core, kind, argument, secondArgument, requestId, clientRevision, now, s.nextTicket);
    var t := EnqueueNext(s, kind, argument, secondArgument, requestId, clientRevision, now);
    if t.nextTicket != s.nextTicket { AdmitsUsual(s, t, kind); }
  }

  lemma {:induction false} JoinRoomFewer(s: Sys, roomId: string, name: string, now: int)
    ensures Fewer(s, JoinRoomNext(s, roomId, name, now))
  {
    hide Enqueue, Admits, Within;
    EnqueueEffect(s.core, JoinRoom, roomId, name, "", 0, now, s.nextTicket);
    EnqueueNumbers(s.core, JoinRoom, roomId, name, "", 0, now, s.nextTicket);
    var t := JoinRoomNext(s, roomId, name, now);
    if t.nextTicket != s.nextTicket {
      AdmitsSame(s.core, Enqueue(s.core, JoinRoom, roomId, name, "", 0, now, s.nextTicket).1, t.core, JoinRoom, s.nextTicket);
      AdmitsUsual(s, t, JoinRoom);
    }
  }

  lemma {:induction false} LeaveRoomFewer(s: Sys, now: int)
    ensures Fewer(s, LeaveRoomNext(s, now))
  {
    hide Enqueue, Admits, Within;
    EnqueueEffect(s.core, LeaveRoom, "", "", "", 0, now, s.nextTicket);
    EnqueueNumbers(s.core, LeaveRoom, "", "", "", 0, now, s.nextTicket);
    var t := LeaveRoomNext(s, now);
    if t.nextTicket != s.nextTicket {
      AdmitsSame(s.core, Enqueue(s.core, LeaveRoom, "", "", "", 0, now, s.nextTicket).1, t.core, LeaveRoom, s.nextTicket);
      AdmitsUsual(s, t, LeaveRoom);
    }
  }

  lemma {:induction false} UploadFewer(s: Sys, generation: nat, clientRevision: nat, jsonText: string)
    ensures Fewer(s, UploadNext(s, generation, clientRevision, jsonText))
    ensures Fewer(s, UploadRejectedNext(s, generation))
  {
    hide Reserve;
    ReserveKeeps(s.core);
  }

  lemma {:induction false} CancelFewer(s: Sys, requestId: string)
    ensures Fewer(s, CancelNext(s, requestId))
  {
    hide KeepCommands, CommandTickets, AckTickets, CancelledAcks;
    KeepKeeps(s.core.commands, NotCancelled(requestId));
  }

  lemma {:induction false} DeliverFewer(s: Sys, i: nat, serialized: string)
    requires i < |s.hand|
    ensures Fewer(s, DeliverNext(s, i, serialized))
  {
    hide Notify, Usual, UsualAck;
    NotifyTouches(s.core, InboundMessage(s.hand[i].generation, s.hand[i].kind, "", serialized, s.feed.nextStamp), true);
    SameTables(s);
    SameWorker(s, DeliverNext(s, i, serialized));
  }

  lemma {:induction false} InboundFewer(s: Sys, m: InboundMessage)
    ensures Fewer(s, NotifyNext(s, m)) && Fewer(s, DispatchNext(s)) && Fewer(s, s.(core := StopBegin(s.core)))
  {
    hide Notify, Usual, UsualAck;
    NotifyTouches(s.core, m, false);
    SameTables(s);
    SameWorker(s, NotifyNext(s, m));
    SameWorker(s, DispatchNext(s));
    SameWorker(s, s.(core := StopBegin(s.core)));
  }

  lemma {:induction false} SupersedeFrom(s: Sys, core: Core, low: nat)
    requires RenamesFrom(s, low) && Located(s) && s.core.generation < core.generation
    requires core.commands == [] && core.acks == map[] && core.nextSequence == s.core.nextSequence && core.desired.None?
    ensures RenamesFrom(Supersede(s, core), low)
  {
    hide Held, CommandsLocated, AcksLocated, HandLocated, TablesBounded;
  }

  lemma {:induction false} TakeFewer(s: Sys)
    requires s.worker.Idle?
    ensures Fewer(s, TakeNext(s))
  {
    hide SkipStale, PoppedStale, CommandTickets, UsualAck;
    SkipFewer(s.core.commands, s.worker.generation);
    SameAcks(s, TakeNext(s));
  }

  lemma {:induction false} SkipFewer(commands: seq<Command>, generation: nat)
    ensures var rest := SkipStale(commands, generation);
      forall i | 0 <= i < |rest| :: rest[i] in commands
    ensures var rest := SkipStale(commands, generation);
      rest != [] ==> forall command | command in rest[1..] :: command in commands
  {
    hide SkipStale, PoppedStale;
    SkipIsSuffix(commands, generation);
  }

  lemma {:induction false} SameAcks(s: Sys, t: Sys)
    requires t.core.acks == s.core.acks
    ensures forall id: nat | id in t.core.acks :: UsualAck(s, t, id)
  {
  }

  lemma {:induction false} PopFewer(s: Sys)
    requires s.worker.Idle?
    ensures Fewer(s, PopRegistrationNext(s))
  {
    hide FirstRegistration, UsualAck;
    FirstRegistrationFinds(s.core.commands, s.worker.generation);
    SameAcks(s, PopRegistrationNext(s));
  }

  lemma {:induction false} IdleFewer(s: Sys, kind: MessageType)
    ensures Fewer(s, LoseWorker(s))
    ensures s.worker.Ticket().Some? ==> Fewer(s, OweWorker(s, kind))
    ensures s.worker.Idle? ==> Fewer(s, s.(worker := Idle(s.core.generation)))
    ensures s.worker.Idle? ==> Fewer(s, s.(core := MarkJoinPending(s.core, s.worker.generation)))
    ensures s.worker.Idle? ==> Fewer(s, TakeSnapshotNext(s))
  {
    hide WorkerTickets, UsualAck, Usual;
    SameTables(s);
  }

  /** Queue and table unchanged hold nothing new. */
  lemma {:induction false} SameTables(s: Sys)
    ensures forall t: Sys | t.core.acks == s.core.acks :: forall id: nat | id in t.core.acks :: UsualAck(s, t, id)
    ensures forall t: Sys | t.core.commands == s.core.commands ::
      forall command | command in t.core.commands :: Usual(s, t, command)
  {
  }

  lemma {:induction false} SameWorker(s: Sys, t: Sys)
    requires t.core.generation == s.core.generation
    requires t.worker.generation == s.worker.generation
    requires t.worker.Sending? ==> s.worker.Sending? && t.worker.command == s.worker.command
    ensures t.worker.Sending? && t.worker.generation == t.core.generation ==> Usual(s, t, t.worker.command)
  {
  }

  lemma {:induction false} AllocateFewer(s: Sys)
    requires s.worker.Sending? || s.worker.Uploading?
    ensures Fewer(s, AllocateAckNext(s))
  {
    hide UsualAck, Usual;
    SameTables(s);
    SameWorker(s, AllocateAckNext(s));
  }

  lemma {:induction false} SendFailFewer(s: Sys)
    requires s.worker.Sending?
    ensures Fewer(s, SendFailNext(s))
  {
    hide WorkerTickets, UsualAck;
    SameAcks(s, SendFailNext(s));
  }

  lemma {:induction false} SnapshotFailFewer(s: Sys)
    requires s.worker.Uploading?
    ensures Fewer(s, SnapshotFailNext(s))
  {
    hide WorkerTickets, UsualAck, Usual;
    SameTables(s);
  }

  lemma {:induction false} CommitFewer(s: Sys, now: int)
    ensures Enabled(s, CommitAckStep(now)) ==> Fewer(s, CommitAckNext(s, now))
    ensures Enabled(s, CommitSnapshotStep(now)) ==> Fewer(s, CommitSnapshotNext(s, now))
  {
  }

  lemma {:induction false} TablesFewer(s: Sys)
    requires s.worker.Idle?
    ensures Fewer(s, FailAcksNext(s)) && Fewer(s, ClearAcksNext(s))
  {
    hide AcksOwed, AckTickets, Usual;
    SameTables(s);
  }

  lemma {:induction false} ExpireFewer(s: Sys, now: int)
    requires s.worker.Idle?
    ensures Fewer(s, ExpireAcksNext(s, now))
  {
    hide AcksOwed, Usual;
    SameTables(s);
  }

  lemma {:induction false} TakeQueuedFewer(s: Sys, selected: Command -> bool)
    requires s.worker.Idle?
    ensures Fewer(s, TakeQueuedNext(s, selected))
  {
    hide CommandsOwed, KeepCommands, UsualAck;
    KeepKeeps(s.core.commands, command => !selected(command));
    SameAcks(s, TakeQueuedNext(s, selected));
  }

  lemma {:induction false} PrepareFewer(s: Sys)
    requires s.worker.Idle?
    ensures Fewer(s, PrepareJoinNext(s))
  {
    hide Reserve, HasJoinCommandOrAck;
    ReserveKeeps(s.core);
  }

  lemma {:induction false} HandleAckFrom(s: Sys, id: nat, confirmed: Option<string>, low: nat)
    requires RenamesFrom(s, low) && s.worker.Idle?
    ensures RenamesFrom(HandleAckNext(s, id, confirmed), low)
  {
    var t := HandleAckNext(s, id, confirmed).(worker := s.worker);
    assert Fewer(s, t);
  }

  lemma {:induction false} CommitRenameFrom(s: Sys, low: nat)
    requires RenamesFrom(s, low) && s.worker.Renaming?
    ensures RenamesFrom(CommitRenameNext(s), low)
  {
  }

  lemma {:induction false} SupersedeStepFrom(s: Sys, step: Step, low: nat)
    requires Inv(s) && RenamesFrom(s, low) && Enabled(s, step) && Supersedes(step)
    ensures RenamesFrom(Next(s, step), low)
  {
    hide Supersede, RenamesFrom, InboundHolds, CommandsLocated, AcksLocated, HandLocated, TablesBounded, Balanced, Conserved;
    SupersedeFrom(s, if step.StopEndStep? then StopEnd(s.core)
      else Configure(s.core, step.serverValid, step.credentialsValid), low);
  }

  lemma {:induction false} UserStepFewer(s: Sys, step: Step)
    requires Enabled(s, step) && IsUserStep(step)
    ensures Fewer(s, Next(s, step))
  {
    hide EnqueueNext, JoinRoomNext, LeaveRoomNext, UploadRejectedNext, UploadNext, CancelNext, DeliverNext, NotifyNext,
      DispatchNext, Fewer;
    match step
    case EnqueueStep(kind, argument, secondArgument, requestId, clientRevision, now) =>
      EnqueueFewer(s, kind, argument, secondArgument, requestId, clientRevision, now);
    case JoinRoomStep(roomId, name, now) => JoinRoomFewer(s, roomId, name, now);
    case LeaveRoomStep(now) => LeaveRoomFewer(s, now);
    case UploadRejectedStep(generation) => UploadFewer(s, generation, 0, "");
    case UploadStep(generation, clientRevision, jsonText) => UploadFewer(s, generation, clientRevision, jsonText);
    case CancelStep(requestId) => CancelFewer(s, requestId);
    case StopBeginStep => InboundFewer(s, InboundMessage(0, CloudError, "", "", 0));
    case DispatchStep => InboundFewer(s, InboundMessage(0, CloudError, "", "", 0));
    case DeliverStep(i, serialized) => DeliverFewer(s, i, serialized);
    case NotifyStep(generation, kind, key, serialized) =>
      InboundFewer(s, InboundMessage(generation, kind, key, serialized, s.feed.nextStamp));
  }

  lemma {:induction false} WorkerStepFewer(s: Sys, step: Step)
    requires Enabled(s, step) && IsWorkerStep(step)
    ensures Fewer(s, Next(s, step))
  {
    hide PopRegistrationNext, OweWorker, LoseWorker, TakeNext, AllocateAckNext, CommitAckNext, SendFailNext, Fewer;
    match step
    case ObserveStep => IdleFewer(s, CloudError);
    case PopRegistrationStep => PopFewer(s);
    case RegisterResultStep(registered) => IdleFewer(s, if registered then DeviceRegistered else DeviceRegistrationError);
    case RegisterSilentStep(_) => IdleFewer(s, CloudError);
    case TakeStep => TakeFewer(s);
    case AbortDropStep => IdleFewer(s, CloudError);
    case AllocateAckStep => AllocateFewer(s);
    case AckTableFullStep => IdleFewer(s, CloudError);
    case CommitAckStep(now) => CommitFewer(s, now);
    case SendFailStep => SendFailFewer(s);
  }

  lemma {:induction false} TableStepFewer(s: Sys, step: Step)
    requires Enabled(s, step) && !IsUserStep(step) && !IsWorkerStep(step) && !Supersedes(step)
    requires !step.HandleAckStep? && !step.CommitRenameStep?
    ensures Fewer(s, Next(s, step))
  {
    hide OweWorker, TakeSnapshotNext, SnapshotFailNext, CommitSnapshotNext, PrepareJoinNext,
      ExpireAcksNext, FailAcksNext, TakeQueuedNext, ClearAcksNext, Fewer;
    match step
    case TakeSnapshotStep => IdleFewer(s, CloudError);
    case SnapshotRejectedStep => IdleFewer(s, SnapshotUploadResult);
    case SnapshotFailStep => SnapshotFailFewer(s);
    case CommitSnapshotStep(now) => CommitFewer(s, now);
    case PrepareJoinStep => PrepareFewer(s);
    case ExpireAcksStep(now) => ExpireFewer(s, now);
    case FailAcksStep => TablesFewer(s);
    case ExpireQueuedStep(now) => TakeQueuedFewer(s, Expiring(s.worker.generation, now));
    case FailQueuedStep => TakeQueuedFewer(s, Failing(s.worker.generation));
    case ClearAcksStep => TablesFewer(s);
    case MarkJoinStep => IdleFewer(s, CloudError);
  }

  lemma {:induction false} StepKeepsFrom(s: Sys, step: Step, low: nat)
    requires Inv(s) && RenamesFrom(s, low) && Enabled(s, step)
    ensures RenamesFrom(Next(s, step), low)
  {
    hide RenamesFrom, Inv, HandleAckNext, CommitRenameNext, Fewer;
    if Supersedes(step) { SupersedeStepFrom(s, step, low); }
    else if step.HandleAckStep? { HandleAckFrom(s, step.id, step.confirmed, low); }
    else if step.CommitRenameStep? { CommitRenameFrom(s, low); }
    else {
      if IsUserStep(step) { UserStepFewer(s, step); }
      else if IsWorkerStep(step) { WorkerStepFewer(s, step); }
      else { TableStepFewer(s, step); }
      FewerFrom(s, Next(s, step), low);
    }
  }

  lemma {:induction false} RunKeepsFrom(s: Sys, steps: seq<Step>, low: nat)
    requires Inv(s) && RenamesFrom(s, low) && CanRun(s, steps)
    ensures Inv(After(s, steps)) && RenamesFrom(After(s, steps), low)
    decreases |steps|
  {
    hide Inv, RenamesFrom, Next, Enabled;
    if steps != [] {
      StepKeepsFrom(s, steps[0], low);
      StepKeepsInvariant(s, steps[0]);
      RunKeepsFrom(Next(s, steps[0]), steps[1..], low);
    }
  }

  lemma {:induction false} ReachableFrom(s: Sys)
    requires Reachable(s)
    ensures Inv(s) && RenamesFrom(s, 1)
  {
    hide Inv;
    InitialInvariant();
    var steps :| CanRun(INITIAL, steps) && After(INITIAL, steps) == s;
    RunKeepsFrom(INITIAL, steps, 1);
  }

  // ---- What a join leaves behind ----

  /** A rename issued earlier that can still be confirmed. */
  predicate RenameOpen(s: Sys) {
    (exists command :: command in s.core.commands && command.kind.RenameRoom?) || RenameUnacknowledged(s) ||
    SendsRename(s) || CommitsRename(s)
  }

  predicate RenameUnacknowledged(s: Sys) { exists id: nat :: id in s.core.acks && s.core.acks[id].kind.RenameRoom? }

  /** The remembered name comes from a rename with a sequence of at most `join`. */
  predicate Overridden(s: Sys, join: nat) {
    s.core.desired.Some? && 0 < s.core.desired.value.confirmedRenameSequence <= join
  }

  predicate Accepts(s: Sys, roomId: string, name: string, now: int) {
    JoinTheRoom(s.core, roomId, name, now, s.nextTicket).0
  }

  /** A join that finds no rename open starts the sequences anew. */
  lemma {:induction false} JoinStartsAnew(s: Sys, roomId: string, name: string, now: int)
    requires Accepts(s, roomId, name, now) && !RenameOpen(s)
    ensures RenamesFrom(JoinRoomNext(s, roomId, name, now), s.core.nextSequence + 1)
  {
    hide Enqueue;
    EnqueueEffect(s.core, JoinRoom, roomId, name, "", 0, now, s.nextTicket);
    EnqueueNumbers(s.core, JoinRoom, roomId, name, "", 0, now, s.nextTicket);
  }

  /** After a join that finds no earlier rename queued, being sent, unacknowledged or about to be
      stored, only renames issued later can ever be confirmed: in every run. */
  lemma {:induction false} JoinedNameStands(s: Sys, roomId: string, name: string, now: int, steps: seq<Step>)
    requires Reachable(s) && Accepts(s, roomId, name, now) && !RenameOpen(s)
    requires CanRun(JoinRoomNext(s, roomId, name, now), steps)
    ensures var t := After(JoinRoomNext(s, roomId, name, now), steps);
      !Overridden(t, s.core.nextSequence) && forall c | c in t.naming.confirms :: c.sequence > s.core.nextSequence
  {
    hide Reachable, RenameOpen, JoinTheRoom, JoinRoomNext, CommandsFrom, AcksFrom;
    var joined := JoinRoomNext(s, roomId, name, now);
    JoinStartsAnew(s, roomId, name, now);
    JoinKeepsInvariant(s, roomId, name, now);
    RunKeepsFrom(joined, steps, s.core.nextSequence + 1);
  }

  lemma {:induction false} JoinKeepsInvariant(s: Sys, roomId: string, name: string, now: int)
    requires Reachable(s)
    ensures Inv(JoinRoomNext(s, roomId, name, now)) && RenamesFrom(JoinRoomNext(s, roomId, name, now), 1)
  {
    hide Reachable, Inv, RenamesFrom, JoinRoomNext;
    ReachableFrom(s);
    StepKeepsInvariant(s, JoinRoomStep(roomId, name, now));
    StepKeepsFrom(s, JoinRoomStep(roomId, name, now), 1);
  }

  // ---- Runs in which an earlier rename overrides the join ----

  /** A step of the worker. */
  predicate Internal(step: Step) { !IsUserStep(step) && !Supersedes(step) }

  predicate InternalRun(steps: seq<Step>) { forall step | step in steps :: Internal(step) }

  ghost predicate CanOverride(s: Sys, join: nat) {
    exists steps :: InternalRun(steps) && CanRun(s, steps) && Overridden(After(s, steps), join)
  }

  lemma {:induction false} OverridesAfter(s: Sys, step: Step, join: nat)
    requires Enabled(s, step) && Internal(step) && CanOverride(Next(s, step), join)
    ensures CanOverride(s, join)
  {
    hide Enabled, Next, Overridden, Internal;
    var rest :| InternalRun(rest) && CanRun(Next(s, step), rest) && Overridden(After(Next(s, step), rest), join);
    var steps := [step] + rest;
    assert steps[0] == step && steps[1..] == rest;
    assert CanRun(s, steps) && After(s, steps) == After(Next(s, step), rest);
    assert InternalRun(steps) by { assert forall x | x in steps :: x == step || x in rest; }
  }

  lemma {:induction false} OverridesNow(s: Sys, join: nat)
    requires Overridden(s, join)
    ensures CanOverride(s, join)
  {
    hide Overridden;
    assert InternalRun([]) && CanRun(s, []) && After(s, []) == s;
  }

  /** The state of affairs since the join: nothing newer has been issued. */
  ghost predicate Since(s: Sys, join: nat) {
    && Inv(s) && RenamesFrom(s, 1) && s.core.nextSequence == join + 1 && !s.core.stopping
    && s.core.configGeneration == s.core.generation && s.core.desired.Some?
    && s.core.desired.value.generation == s.core.generation
  }

  predicate SameFrame(s: Sys, t: Sys) {
    && t.core.nextSequence == s.core.nextSequence && t.core.stopping == s.core.stopping
    && t.core.configGeneration == s.core.configGeneration && t.core.generation == s.core.generation
    && (s.core.desired.Some? ==> t.core.desired.Some? && t.core.desired.value.generation == s.core.desired.value.generation)
  }

  lemma {:induction false} TakeFrame(s: Sys, selected: Command -> bool)
    requires s.worker.Idle?
    ensures SameFrame(s, PopRegistrationNext(s)) && SameFrame(s, TakeNext(s)) && SameFrame(s, TakeSnapshotNext(s))
    ensures SameFrame(s, TakeQueuedNext(s, selected))
  {
    hide CommandTickets, FirstRegistration, PoppedStale, SkipStale, CommandsOwed, KeepCommands;
    FirstRegistrationFinds(s.core.commands, s.worker.generation);
  }

  lemma {:induction false} SendFrame(s: Sys, now: int)
    ensures s.worker.Sending? ==> SameFrame(s, SendFailNext(s))
    ensures s.worker.Uploading? ==> SameFrame(s, SnapshotFailNext(s))
    ensures s.worker.Sending? && s.worker.ack.Some? ==> SameFrame(s, CommitAckNext(s, now))
    ensures s.worker.Uploading? && s.worker.ack.Some? ==> SameFrame(s, CommitSnapshotNext(s, now))
    ensures s.worker.Sending? || s.worker.Uploading? ==> SameFrame(s, AllocateAckNext(s))
  {
    hide WorkerTickets;
  }

  lemma {:induction false} AckFrame(s: Sys, id: nat, confirmed: Option<string>, now: int)
    requires s.worker.Idle?
    ensures SameFrame(s, HandleAckNext(s, id, confirmed)) && SameFrame(s, ExpireAcksNext(s, now))
    ensures SameFrame(s, FailAcksNext(s)) && SameFrame(s, ClearAcksNext(s))
    ensures SameFrame(s, s.(core := MarkJoinPending(s.core, s.worker.generation)))
  {
    hide AcksOwed, AckTickets;
  }

  lemma {:induction false} LeaveFrame(s: Sys, kind: MessageType)
    ensures SameFrame(s, LoseWorker(s)) && (s.worker.Ticket().Some? ==> SameFrame(s, OweWorker(s, kind)))
  {
    hide WorkerTickets;
  }

  lemma {:induction false} WorkerFrame(s: Sys, step: Step)
    requires Enabled(s, step) && IsWorkerStep(step)
    ensures SameFrame(s, Next(s, step))
  {
    hide SameFrame, PopRegistrationNext, TakeNext, OweWorker, LoseWorker, AllocateAckNext, CommitAckNext, SendFailNext;
    match step
    case ObserveStep => ObserveFrame(s);
    case PopRegistrationStep => TakeFrame(s, Failing(0));
    case TakeStep => TakeFrame(s, Failing(0));
    case RegisterResultStep(registered) => LeaveFrame(s, if registered then DeviceRegistered else DeviceRegistrationError);
    case RegisterSilentStep(_) => LeaveFrame(s, CloudError);
    case AbortDropStep => LeaveFrame(s, CloudError);
    case AckTableFullStep => LeaveFrame(s, CloudError);
    case AllocateAckStep => SendFrame(s, 0);
    case CommitAckStep(now) => SendFrame(s, now);
    case SendFailStep => SendFrame(s, 0);
  }

  lemma {:induction false} ObserveFrame(s: Sys)
    ensures SameFrame(s, s.(worker := Idle(s.core.generation)))
  {
  }

  lemma {:induction false} TableFrame(s: Sys, step: Step)
    requires Enabled(s, step) && Internal(step) && !IsWorkerStep(step) && !step.PrepareJoinStep? && !step.CommitRenameStep?
    ensures SameFrame(s, Next(s, step))
  {
    hide SameFrame, OweWorker, TakeSnapshotNext, SnapshotFailNext, CommitSnapshotNext, HandleAckNext, ExpireAcksNext,
      FailAcksNext, TakeQueuedNext, ClearAcksNext;
    match step
    case TakeSnapshotStep => TakeFrame(s, Failing(0));
    case SnapshotRejectedStep => LeaveFrame(s, SnapshotUploadResult);
    case SnapshotFailStep => SendFrame(s, 0);
    case CommitSnapshotStep(now) => SendFrame(s, now);
    case HandleAckStep(id, confirmed) => AckFrame(s, id, confirmed, 0);
    case ExpireAcksStep(now) => AckFrame(s, 0, None, now);
    case FailAcksStep => AckFrame(s, 0, None, 0);
    case ClearAcksStep => AckFrame(s, 0, None, 0);
    case MarkJoinStep => AckFrame(s, 0, None, 0);
    case ExpireQueuedStep(now) => TakeFrame(s, Expiring(s.worker.generation, now));
    case FailQueuedStep => TakeFrame(s, Failing(s.worker.generation));
  }

  lemma {:induction false} RoomFrame(s: Sys, step: Step)
    requires Enabled(s, step) && (step.PrepareJoinStep? || step.CommitRenameStep?)
    ensures SameFrame(s, Next(s, step))
  {
    hide HasJoinCommandOrAck, Reserve;
    ReserveKeeps(s.core);
  }

  lemma {:induction false} InternalFrame(s: Sys, step: Step)
    requires Enabled(s, step) && Internal(step)
    ensures SameFrame(s, Next(s, step))
  {
    hide Enabled, Next, SameFrame;
    if IsWorkerStep(step) { WorkerFrame(s, step); }
    else if step.PrepareJoinStep? || step.CommitRenameStep? { RoomFrame(s, step); }
    else { TableFrame(s, step); }
  }

  lemma {:induction false} SinceAfter(s: Sys, step: Step, join: nat)
    requires Since(s, join) && Enabled(s, step) && Internal(step)
    ensures Since(Next(s, step), join)
  {
    hide Enabled, Next, Internal, Inv, RenamesFrom;
    InternalFrame(s, step);
    StepKeepsInvariant(s, step);
    StepKeepsFrom(s, step, 1);
  }

  lemma {:induction false} FromRenaming(s: Sys, join: nat)
    requires Since(s, join) && CommitsRename(s)
    ensures CanOverride(s, join)
  {
    hide Inv, CommandsFrom;
    OverridesNow(CommitRenameNext(s), join);
    OverridesAfter(s, CommitRenameStep, join);
  }

  lemma {:induction false} FromAck(s: Sys, id: nat, join: nat)
    requires Since(s, join) && s.worker == Idle(s.core.generation)
    requires id in s.core.acks && s.core.acks[id].kind.RenameRoom?
    ensures CanOverride(s, join)
  {
    hide Since, CanOverride;
    var step := HandleAckStep(id, Some("A"));
    assert CommitsRename(Next(s, step)) && s.core.generation == Next(s, step).core.generation;
    SinceAfter(s, step, join);
    FromRenaming(Next(s, step), join);
    OverridesAfter(s, step, join);
  }

  lemma {:induction false} SinceQueue(s: Sys, join: nat)
    requires Since(s, join)
    ensures forall command | command in s.core.commands :: command.generation == s.core.generation && command.reserved
    ensures s.worker.generation <= s.core.generation && |s.core.commands| <= MAX_COMMAND_QUEUE + 1
    ensures s.worker.Sending? ==> s.worker.command.reserved
  {
    hide InboundHolds, Balanced, Conserved, RenamesFrom, AcksLocated, HandLocated;
  }

  /** Take out a registration that stands first. */
  lemma {:induction false} PopFirst(s: Sys)
    requires s.worker == Idle(s.core.generation) && s.core.commands != []
    requires s.core.commands[0].generation == s.core.generation && s.core.commands[0].kind.RegisterDevice?
    ensures var t := Next(Next(s, PopRegistrationStep), RegisterResultStep(true));
      Enabled(Next(s, PopRegistrationStep), RegisterResultStep(true)) && t.worker == s.worker &&
      t.core.generation == s.core.generation &&
      t.core.commands == s.core.commands[1..] && t.core.acks == s.core.acks && t.core.nextAckId == s.core.nextAckId
  {
    assert FirstRegistration(s.core.commands, s.worker.generation) == Some(0);
  }

  /** Send the first command: it then awaits its acknowledgement. */
  lemma {:induction false} SendFirst(s: Sys)
    requires s.worker == Idle(s.core.generation) && s.core.commands != [] && s.core.acks == map[]
    requires s.core.commands[0].generation == s.core.generation && !s.core.commands[0].kind.RegisterDevice?
    requires s.core.nextAckId < LAST_ACK_ID
    ensures var t := Next(s, TakeStep);
      Enabled(t, AllocateAckStep) && Enabled(Next(t, AllocateAckStep), CommitAckStep(0))
    ensures var t := Next(Next(Next(s, TakeStep), AllocateAckStep), CommitAckStep(0));
      t.worker == s.worker && t.core.generation == s.core.generation &&
      t.core.commands == s.core.commands[1..] && t.core.nextAckId == s.core.nextAckId + 1 &&
      s.core.nextAckId in t.core.acks && t.core.acks[s.core.nextAckId].kind == s.core.commands[0].kind
  {
    hide CommandTickets, PoppedStale;
  }

  lemma {:induction false} FailAll(s: Sys)
    requires s.worker == Idle(s.core.generation)
    ensures var t := Next(s, FailAcksStep);
      t.worker == s.worker && t.core.generation == s.core.generation &&
      t.core.commands == s.core.commands && t.core.acks == map[] && t.core.nextAckId == s.core.nextAckId
  {
    hide AcksOwed;
  }

  /** A step of the worker from a state since the join leads to another, and back. */
  lemma {:induction false} Onward(s: Sys, step: Step, join: nat) returns (t: Sys)
    requires Since(s, join) && Enabled(s, step) && Internal(step)
    ensures t == Next(s, step) && Since(t, join)
    ensures CanOverride(t, join) ==> CanOverride(s, join)
  {
    hide Since, CanOverride, Enabled, Next, Internal;
    t := Next(s, step);
    SinceAfter(s, step, join);
    if CanOverride(t, join) { OverridesAfter(s, step, join); }
  }

  lemma {:induction false} Popped(s: Sys, join: nat) returns (t: Sys)
    requires Since(s, join) && s.worker == Idle(s.core.generation) && s.core.commands != []
    requires s.core.commands[0].kind.RegisterDevice?
    ensures Since(t, join) && t.worker == Idle(t.core.generation) && t.core.acks == s.core.acks
    ensures t.core.commands == s.core.commands[1..] && t.core.nextAckId == s.core.nextAckId
    ensures CanOverride(t, join) ==> CanOverride(s, join)
  {
    hide Since, CanOverride, Next;
    SinceQueue(s, join);
    assert s.core.commands[0] in s.core.commands;
    PopFirst(s);
    t := Onward(s, PopRegistrationStep, join);
    t := Onward(t, RegisterResultStep(true), join);
  }

  lemma {:induction false} Sent(s: Sys, join: nat) returns (t: Sys)
    requires Since(s, join) && s.worker == Idle(s.core.generation) && s.core.commands != [] && s.core.acks == map[]
    requires !s.core.commands[0].kind.RegisterDevice? && s.core.nextAckId < LAST_ACK_ID
    ensures Since(t, join) && t.worker == Idle(t.core.generation) && s.core.nextAckId in t.core.acks
    ensures t.core.acks[s.core.nextAckId].kind == s.core.commands[0].kind
    ensures t.core.commands == s.core.commands[1..] && t.core.nextAckId == s.core.nextAckId + 1
    ensures CanOverride(t, join) ==> CanOverride(s, join)
  {
    hide Since, CanOverride, Next;
    SinceQueue(s, join);
    assert s.core.commands[0] in s.core.commands;
    SendFirst(s);
    t := Onward(s, TakeStep, join);
    t := Onward(t, AllocateAckStep, join);
    t := Onward(t, CommitAckStep(0), join);
  }

  lemma {:induction false} Failed(s: Sys, join: nat) returns (t: Sys)
    requires Since(s, join) && s.worker == Idle(s.core.generation)
    ensures Since(t, join) && t.worker == Idle(t.core.generation) && t.core.acks == map[]
    ensures t.core.commands == s.core.commands && t.core.nextAckId == s.core.nextAckId
    ensures CanOverride(t, join) ==> CanOverride(s, join)
  {
    hide Since, CanOverride, Next;
    FailAll(s);
    t := Onward(s, FailAcksStep, join);
  }

  /** What stands before the rename is sent first; then the rename itself. */
  lemma {:induction false} FromQueue(s: Sys, i: nat, join: nat)
    requires Since(s, join) && s.worker == Idle(s.core.generation)
    requires i < |s.core.commands| && s.core.commands[i].kind.RenameRoom? && s.core.nextAckId + i < LAST_ACK_ID
    ensures CanOverride(s, join)
    decreases i
  {
    hide Since, CanOverride;
    var t := Failed(s, join);
    if t.core.commands[0].kind.RegisterDevice? {
      t := Popped(t, join);
      FromQueue(t, i - 1, join);
    } else {
      t := Sent(t, join);
      if i == 0 { FromAck(t, s.core.nextAckId, join); } else { FromQueue(t, i - 1, join); }
    }
  }

  /** The worker finishes or gives up what it holds and reads the configuration anew. */
  lemma {:induction false} FreeWorker(s: Sys, join: nat) returns (t: Sys)
    requires Since(s, join) && !s.worker.Idle? && !CommitsRename(s)
    ensures Since(t, join) && t.worker.Idle? && t.core.acks == s.core.acks && t.core.nextAckId == s.core.nextAckId
    ensures t.core.commands == s.core.commands ||
      (s.worker.Sending? && s.worker.generation == s.core.generation && t.core.commands == [s.worker.command] + s.core.commands)
    ensures SendsRename(s) && !s.worker.remembered ==> t.core.commands == [s.worker.command] + s.core.commands
    ensures CanOverride(t, join) ==> CanOverride(s, join)
  {
    hide Since, CanOverride, CommandTickets;
    SinceQueue(s, join);
    var step := match s.worker
      case Sending(_, _, _, _) => SendFailStep
      case Uploading(_, _, _) => SnapshotFailStep
      case Registering(_, _) => RegisterResultStep(true)
      case _ => CommitRenameStep;
    t := Onward(s, step, join);
  }

  lemma {:induction false} Observed(s: Sys, join: nat) returns (t: Sys)
    requires Since(s, join) && s.worker.Idle?
    ensures Since(t, join) && t.worker == Idle(t.core.generation) && t.core.acks == s.core.acks
    ensures t.core.nextAckId == s.core.nextAckId && t.core.commands == s.core.commands
    ensures CanOverride(t, join) ==> CanOverride(s, join)
  {
    hide CanOverride, Inv, RenamesFrom;
    t := Onward(s, ObserveStep, join);
  }

  predicate IdsRemain(c: Core) { c.nextAckId + MAX_COMMAND_QUEUE + 1 <= LAST_ACK_ID }

  lemma {:induction false} FromIdle(s: Sys, join: nat)
    requires Since(s, join) && s.worker.Idle? && RenameOpen(s) && IdsRemain(s.core)
    ensures CanOverride(s, join)
  {
    hide Since, CanOverride;
    var t := Observed(s, join);
    SinceQueue(t, join);
    if RenameUnacknowledged(t) {
      var id: nat :| id in t.core.acks && t.core.acks[id].kind.RenameRoom?;
      FromAck(t, id, join);
    } else {
      var command :| command in t.core.commands && command.kind.RenameRoom?;
      var i :| 0 <= i < |t.core.commands| && t.core.commands[i] == command;
      FromQueue(t, i, join);
    }
  }

  lemma {:induction false} SinceRemembered(s: Sys)
    requires Reachable(s)
    ensures SendsRename(s) ==> !s.worker.remembered
  {
    hide Reachable, NameHolds, JoinPends;
    ReachableRoom(s);
  }

  lemma {:induction false} FromOpen(s: Sys, join: nat)
    requires Since(s, join) && RenameOpen(s) && IdsRemain(s.core) && (SendsRename(s) ==> !s.worker.remembered)
    ensures CanOverride(s, join)
  {
    hide Since, CanOverride;
    if s.worker.Idle? { FromIdle(s, join); }
    else if CommitsRename(s) { FromRenaming(s, join); }
    else {
      var t := FreeWorker(s, join);
      assert RenameOpen(t) by { StillOpen(s, t); }
      FromIdle(t, join);
    }
  }

  lemma {:induction false} StillOpen(s: Sys, t: Sys)
    requires RenameOpen(s) && !CommitsRename(s) && t.core.acks == s.core.acks
    requires t.core.commands == s.core.commands ||
      (s.worker.Sending? && t.core.commands == [s.worker.command] + s.core.commands)
    requires SendsRename(s) ==> t.core.commands == [s.worker.command] + s.core.commands
    ensures RenameOpen(t)
  {
    if SendsRename(s) { assert t.core.commands[0] in t.core.commands && s.worker.command.kind.RenameRoom?; }
    if command :| command in s.core.commands && command.kind.RenameRoom? { assert command in t.core.commands; }
  }

  // ---- When a join settles the name ----

  lemma {:induction false} JoinIsSince(s: Sys, roomId: string, name: string, now: int)
    requires Reachable(s) && Accepts(s, roomId, name, now)
    ensures Since(JoinRoomNext(s, roomId, name, now), s.core.nextSequence)
    ensures var t := JoinRoomNext(s, roomId, name, now);
      t.worker == s.worker && t.core.generation == s.core.generation && t.core.acks == s.core.acks &&
      t.core.nextAckId == s.core.nextAckId && s.core.commands <= t.core.commands
  {
    hide Reachable, Inv, RenamesFrom, Enqueue;
    JoinKeepsInvariant(s, roomId, name, now);
    EnqueueEffect(s.core, JoinRoom, roomId, name, "", 0, now, s.nextTicket);
    EnqueueNumbers(s.core, JoinRoom, roomId, name, "", 0, now, s.nextTicket);
  }

  /** The name a join gives can be overridden by a rename issued before it, in some run of the worker
      alone, exactly when at the join some such rename is queued, being sent, unacknowledged or about
      to be stored. Acknowledgement numbers for a full command queue must remain for the run. */
  lemma {:induction false} JoinSettlesName(s: Sys, roomId: string, name: string, now: int)
    requires Reachable(s) && Accepts(s, roomId, name, now) && IdsRemain(s.core)
    ensures CanOverride(JoinRoomNext(s, roomId, name, now), s.core.nextSequence) <==> RenameOpen(s)
  {
    hide Reachable, JoinTheRoom, JoinRoomNext, Accepts, Since, Overridden, SendsRename, CommitsRename;
    var t := JoinRoomNext(s, roomId, name, now);
    if RenameOpen(s) {
      JoinIsSince(s, roomId, name, now);
      SinceRemembered(s);
      OpenAfterJoin(s, t);
      FromOpen(t, s.core.nextSequence);
    } else if CanOverride(t, s.core.nextSequence) {
      var steps :| InternalRun(steps) && CanRun(t, steps) && Overridden(After(t, steps), s.core.nextSequence);
      JoinedNameStands(s, roomId, name, now, steps);
    }
  }

  lemma {:induction false} OpenAfterJoin(s: Sys, t: Sys)
    requires RenameOpen(s) && t.worker == s.worker && t.core.generation == s.core.generation
    requires t.core.acks == s.core.acks && s.core.commands <= t.core.commands
    ensures RenameOpen(t) && (SendsRename(t) <==> SendsRename(s))
  {
    if command :| command in s.core.commands && command.kind.RenameRoom? { assert command in t.core.commands; }
  }

  /** The confirmation gave the remembered name. */
  predicate Names(s: Sys, c: Confirmation)
    requires s.core.desired.Some?
  {
    c.name == s.core.desired.value.broadcasterName && c.sequence == s.core.desired.value.confirmedRenameSequence
  }

  /** The remembered name comes from a rename issued before the join exactly in the states so named. */
  lemma {:induction false} OverriddenName(s: Sys, join: nat)
    requires Reachable(s) && s.core.desired.Some?
    ensures Overridden(s, join) ==> exists c :: c in s.naming.confirms && c.sequence <= join && Names(s, c)
    ensures !Overridden(s, join) ==> (s.core.desired.value.broadcasterName == s.naming.joined ||
      exists c :: c in s.naming.confirms && c.sequence > join && Names(s, c))
  {
    hide Reachable, Confirmed, Inv, CommandsFrom, AcksFrom;
    ReachableFrom(s);
    RememberedName(s, s.naming.confirms);
    ConfirmedIsHighest(s.naming.joined, s.naming.confirms);
    if c :| c in s.naming.confirms && Gives(c, Confirmed(s.naming.joined, s.naming.confirms)) {
      assert Within(1, c.sequence, s.core) && Names(s, c);
    }
  }

  // ---- A run ----

  const RENAME_ACK := PendingAck(RenameRoom, "", 0, ACK_TIMEOUT, 1, true, 0)

  /** A rename has been sent and awaits its acknowledgement; no room is remembered yet. */
  predicate Awaiting(s: Sys) {
    && s.core == Core(1, 1, false, true, true, [], None, map[1 := RENAME_ACK], 2, None, None, None, 2, [], 0, 1)
    && s.worker == Idle(1) && s.hand == [] && s.nextTicket == 1
  }

  lemma {:induction false} SendRename(s: Sys)
    requires s.worker == Idle(1) && s.hand == [] && s.nextTicket == 1
    requires s.core == Core(1, 1, false, true, true,
      [Command(RenameRoom, "name", "", "", 1, 1, 0, 0, true, 0)], None, map[], 1, None, None, None, 2, [], 0, 1)
    ensures Awaiting(Next(Next(Next(s, TakeStep), AllocateAckStep), CommitAckStep(0)))
  {
    hide CommandTickets, PoppedStale;
  }

  lemma {:induction false} AwaitingState() returns (s: Sys)
    ensures Reachable(s) && Awaiting(s)
  {
    hide Reachable, Enqueue, TakeNext, AllocateAckNext, CommitAckNext, Awaiting;
    s := ReadyState();
    EnqueueWhenReady(s, RENAME);
    ReachesNext(s, RENAME);
    s := Next(s, RENAME);
    SendRename(s);
    SendFirst(s);
    ReachesNext(s, TakeStep);
    ReachesNext(Next(s, TakeStep), AllocateAckStep);
    ReachesNext(Next(Next(s, TakeStep), AllocateAckStep), CommitAckStep(0));
    s := Next(Next(Next(s, TakeStep), AllocateAckStep), CommitAckStep(0));
  }

  const JOIN := JoinRoomStep("room", "B", 0)
  const JOIN_COMMAND := Command(JoinRoom, "room", "B", "", 1, 2, 0, 0, true, 1)

  /** Generation 1, where the one acknowledgement is pending or not, and the join is queued. */
  predicate Joined(s: Sys, acks: map<nat, PendingAck>) {
    s.core == Core(1, 1, false, true, true, [JOIN_COMMAND], None, acks, 2, Some(DesiredRoom("room", "B", 1, 0)),
      Some(1), None, 3, [], 0, 2) && s.naming.joined == "B"
  }

  lemma {:induction false} JoinWhenQuiet(s: Sys)
    requires s.core == Core(1, 1, false, true, true, [], None, s.core.acks, 2, None, None, None, 2, [], 0, 1)
    requires s.nextTicket == 1
    ensures Joined(Next(s, JOIN), s.core.acks) && Next(s, JOIN).worker == s.worker && Next(s, JOIN).hand == s.hand
  {
  }

  const ACK := HandleAckStep(1, Some("A"))

  /** Taking the acknowledgement and storing the name it confirms, if a room is remembered. */
  lemma {:induction false} AckWhenAwaited(s: Sys)
    requires s.core.generation == 1 && s.core.acks == map[1 := RENAME_ACK] && s.worker == Idle(1)
    requires s.core.desired.Some? ==> s.core.desired.value.generation == 1 && s.core.desired.value.confirmedRenameSequence == 0
    ensures Enabled(Next(s, ACK), CommitRenameStep)
    ensures var t := Next(Next(s, ACK), CommitRenameStep);
      t.hand == s.hand + [Owed(1, CommandKind.RenameRoom.ResultType(), 0)] && t.worker == s.worker &&
      t.nextTicket == s.nextTicket && t.naming.joined == s.naming.joined &&
      t.core == s.core.(acks := map[], desired := if s.core.desired.None? then None
        else Some(s.core.desired.value.(broadcasterName := "A", confirmedRenameSequence := 1)))
  {
    assert s.core.acks - {1} == map[];
  }

  /** The same operations, acknowledged in another order, leave another name: a rename to A that is
      acknowledged before the room is joined as B leaves B, and acknowledged after the join it leaves A. */
  lemma {:induction false} LateConfirmationWins() returns (early: Sys, late: Sys)
    ensures Reachable(early) && Reachable(late) && early.naming.joined == "B" && late.naming.joined == "B"
    ensures early.core.desired == Some(DesiredRoom("room", "B", 1, 0))
    ensures late.core == early.core.(desired := Some(DesiredRoom("room", "A", 1, 1)))
    ensures late.hand == early.hand && late.worker == early.worker
  {
    hide Reachable, Next, Enabled;
    var s := AwaitingState();
    AckOrJoin(s);
    JoinWhenQuiet(s);
    AckOrJoin(Next(s, JOIN));
    AckWhenAwaited(s);
    AckWhenAwaited(Next(s, JOIN));
    ReachesNext(s, ACK);
    ReachesNext(Next(s, ACK), CommitRenameStep);
    early := Next(Next(s, ACK), CommitRenameStep);
    JoinWhenQuiet(early);
    AckOrJoin(early);
    ReachesNext(early, JOIN);
    early := Next(early, JOIN);
    late := Next(s, JOIN);
    ReachesNext(s, JOIN);
    ReachesNext(late, ACK);
    ReachesNext(Next(late, ACK), CommitRenameStep);
    late := Next(Next(late, ACK), CommitRenameStep);
  }

  lemma {:induction false} AckOrJoin(s: Sys)
    ensures Enabled(s, JOIN) && (s.worker.Idle? ==> Enabled(s, ACK))
  {
  }

  // ---- A join in flight without its acknowledgement ----

  lemma {:induction false} JoinWhenReady(s: Sys)
    requires CloudLosses.Ready(s, 1, 1)
    ensures var t := Next(s, JOIN);
      && t.core == s.core.(commands := [JOIN_COMMAND.(sequence := 1, ticket := 0)], nextSequence := 2, reservations := 1,
        desired := Some(DesiredRoom("room", "B", 1, 0)), joinPending := Some(1))
      && t.worker == Idle(1)
  {
  }

  lemma {:induction false} SendJoin(s: Sys)
    requires s.worker == Idle(1) && s.core.generation == 1 && !s.core.stopping && s.core.acks == map[] && s.core.nextAckId == 1
    requires s.core.commands == [JOIN_COMMAND.(sequence := 1, ticket := 0)] && s.core.joinPending == Some(1)
    requires s.core.desired == Some(DesiredRoom("room", "B", 1, 0))
    ensures var t := Next(Next(Next(s, TakeStep), AllocateAckStep), CommitAckStep(0));
      t.worker == Idle(1) && t.core.generation == 1 && !t.core.stopping && t.core.joinInFlight == Some(1)
  {
    hide CommandTickets, PoppedStale;
  }

  lemma {:induction false} StopWhenSent(s: Sys)
    requires s.worker == Idle(1) && !s.core.stopping
    ensures Enabled(s, StopBeginStep) && Enabled(Next(s, StopBeginStep), ClearAcksStep)
    ensures var t := Next(Next(s, StopBeginStep), ClearAcksStep);
      t.core.stopping && t.core.acks == map[] && t.core.joinInFlight == s.core.joinInFlight
  {
    hide AckTickets;
  }

  /** While the client is being stopped a join can be in flight whose acknowledgement is no longer awaited:
      clearing the table does not settle it. */
  lemma {:induction false} JoinLeftInFlight() returns (s: Sys)
    ensures Reachable(s) && s.core.stopping && s.core.joinInFlight == Some(1) && s.core.acks == map[]
  {
    hide Reachable, Next, Enabled;
    s := ReadyState();
    AckOrJoin(s);
    JoinWhenReady(s);
    ReachesNext(s, JOIN);
    s := Next(s, JOIN);
    SendJoin(s);
    assert Enabled(s, TakeStep) && Enabled(Next(s, TakeStep), AllocateAckStep) &&
      Enabled(Next(Next(s, TakeStep), AllocateAckStep), CommitAckStep(0)) by { TakeWhenIdle(s); SendFirst(s); }
    ReachesNext(s, TakeStep);
    ReachesNext(Next(s, TakeStep), AllocateAckStep);
    ReachesNext(Next(Next(s, TakeStep), AllocateAckStep), CommitAckStep(0));
    s := Next(Next(Next(s, TakeStep), AllocateAckStep), CommitAckStep(0));
    StopWhenSent(s);
    ReachesNext(s, StopBeginStep);
    ReachesNext(Next(s, StopBeginStep), ClearAcksStep);
    s := Next(Next(s, StopBeginStep), ClearAcksStep);
  }

  lemma {:induction false} TakeWhenIdle(s: Sys)
    requires s.worker.Idle?
    ensures Enabled(s, TakeStep)
  {
  }
}
