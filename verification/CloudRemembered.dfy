/** The remembered room over whole runs: when it is joined again, and under which name. */
module CloudRemembered {
  import opened Options
  import opened CloudQueue
  import opened CloudTickets
  import opened CloudRuns
  import opened CloudInbound
  import opened CloudLedger
  import opened CloudPlaces
  import opened CloudSafety

  // ---- The name ----

  /** The sequence and name left by a list of confirmations, taken in order: a later one
      replaces an earlier one only if its sequence is higher. */
  function Confirmed(joined: string, confirms: seq<Confirmation>): (nat, string) {
    if confirms == [] then (0, joined)
    else
      var last := confirms[|confirms| - 1];
      var before := Confirmed(joined, confirms[..|confirms| - 1]);
      if last.sequence <= before.0 then before else (last.sequence, last.name)
  }

  predicate Gives(c: Confirmation, outcome: (nat, string)) { (c.sequence, c.name) == outcome }

  /** The name is the one confirmed with the highest sequence; the name of the join if none was. */
  lemma {:induction false} ConfirmedIsHighest(joined: string, confirms: seq<Confirmation>)
    ensures forall c | c in confirms :: c.sequence <= Confirmed(joined, confirms).0
    ensures Confirmed(joined, confirms) == (0, joined) || exists c :: c in confirms && Gives(c, Confirmed(joined, confirms))
  {
    if confirms != [] {
      var front := confirms[..|confirms| - 1];
      var last := confirms[|confirms| - 1];
      ConfirmedIsHighest(joined, front);
      assert confirms == front + [last];
      assert last in confirms && Gives(last, (last.sequence, last.name));
    }
  }

  predicate DistinctSequences(confirms: seq<Confirmation>) {
    forall c, d | c in confirms && d in confirms && c.sequence == d.sequence :: c == d
  }

  /** The order in which confirmations arrive does not matter. */
  lemma {:induction false} ConfirmedIgnoresOrder(joined: string, a: seq<Confirmation>, b: seq<Confirmation>)
    requires forall c :: c in a <==> c in b
    requires DistinctSequences(a) && forall c | c in a :: c.sequence > 0
    ensures Confirmed(joined, a) == Confirmed(joined, b)
  {
    hide Confirmed;
    ConfirmedIsHighest(joined, a);
    ConfirmedIsHighest(joined, b);
  }

  predicate NameHolds(s: Sys) {
    && (forall c | c in s.naming.confirms :: c.sequence > 0)
    && (s.core.desired.Some? ==>
      s.core.desired.value.generation == s.core.generation &&
      (s.core.desired.value.confirmedRenameSequence, s.core.desired.value.broadcasterName) ==
        Confirmed(s.naming.joined, s.naming.confirms))
  }

  // ---- The join ----

  predicate IsJoinAck(acks: map<nat, PendingAck>, id: nat) { id in acks && acks[id].kind.JoinRoom? }

  ghost predicate JoinPends(acks: map<nat, PendingAck>) { exists id: nat :: IsJoinAck(acks, id) }

  ghost predicate JoinHolds(s: Sys) {
    && (s.core.joinPending.Some? ==> s.core.desired.Some? && s.core.joinPending.value == s.core.generation)
    && (s.core.joinInFlight.Some? ==> s.core.joinPending == s.core.joinInFlight)
    && (s.core.joinInFlight.Some? ==> s.core.stopping || JoinPends(s.core.acks))
    && (s.worker.Sending? && s.worker.remembered && s.worker.generation == s.core.generation ==>
      s.worker.command.kind.JoinRoom? && !JoinPends(s.core.acks))
  }

  ghost predicate RoomHolds(s: Sys) { NameHolds(s) && JoinHolds(s) }

  /** Nothing that the remembered room depends on has changed. */
  predicate SameRoom(s: Sys, t: Sys) {
    t.core.desired == s.core.desired && t.core.joinPending == s.core.joinPending &&
    t.core.joinInFlight == s.core.joinInFlight && t.core.generation == s.core.generation &&
    t.naming.joined == s.naming.joined && t.naming.confirms == s.naming.confirms &&
    (s.core.stopping ==> t.core.stopping)
  }

  lemma {:induction false} SameRoomHolds(s: Sys, t: Sys)
    requires RoomHolds(s) && SameRoom(s, t) && (t.core.acks == s.core.acks || s.core.stopping)
    requires t.core.acks == s.core.acks || t.worker.Idle?
    requires t.worker.Sending? && t.worker.remembered ==>
      s.worker.Sending? && s.worker.remembered && t.worker.generation == s.worker.generation &&
      t.worker.command == s.worker.command
    ensures RoomHolds(t)
  {
    hide Confirmed, JoinPends;
  }

  lemma {:induction false} KeptAcksKeepJoins(acks: map<nat, PendingAck>, requestId: string)
    ensures JoinPends(KeptAcks(acks, requestId)) <==> JoinPends(acks)
  {
    if JoinPends(acks) {
      var id: nat :| IsJoinAck(acks, id);
      assert IsJoinAck(KeptAcks(acks, requestId), id);
    }
    if JoinPends(KeptAcks(acks, requestId)) {
      var id: nat :| IsJoinAck(KeptAcks(acks, requestId), id);
      assert IsJoinAck(acks, id);
    }
  }

  lemma {:induction false} CancelRoom(s: Sys, requestId: string)
    requires RoomHolds(s)
    ensures RoomHolds(CancelNext(s, requestId))
  {
    hide Confirmed, JoinPends, KeepCommands, AckTickets, CommandTickets, CancelledAcks;
    KeptAcksKeepJoins(s.core.acks, requestId);
    assert CancelNext(s, requestId).core.acks == KeptAcks(s.core.acks, requestId);
  }

  lemma {:induction false} JoinRoomRoom(s: Sys, roomId: string, name: string, now: int)
    requires RoomHolds(s)
    ensures RoomHolds(JoinRoomNext(s, roomId, name, now))
  {
    hide Enqueue, JoinPends;
    EnqueueEffect(s.core, JoinRoom, roomId, name, "", 0, now, s.nextTicket);
  }

  lemma {:induction false} EnqueueRoom(s: Sys, kind: CommandKind, argument: string, secondArgument: string,
    requestId: string, clientRevision: nat, now: int)
    requires RoomHolds(s)
    ensures RoomHolds(EnqueueNext(s, kind, argument, secondArgument, requestId, clientRevision, now))
  {
    hide Enqueue, RoomHolds;
    EnqueueEffect(s.core, kind, argument, secondArgument, requestId, clientRevision, now, s.nextTicket);
    SameRoomHolds(s, EnqueueNext(s, kind, argument, secondArgument, requestId, clientRevision, now));
  }

  lemma {:induction false} LeaveRoomRoom(s: Sys, now: int)
    requires RoomHolds(s)
    ensures RoomHolds(LeaveRoomNext(s, now))
  {
    hide Enqueue, JoinPends, Confirmed;
    EnqueueEffect(s.core, LeaveRoom, "", "", "", 0, now, s.nextTicket);
  }

  lemma {:induction false} UploadRoom(s: Sys, generation: nat, clientRevision: nat, jsonText: string)
    requires RoomHolds(s)
    ensures RoomHolds(UploadNext(s, generation, clientRevision, jsonText))
    ensures RoomHolds(UploadRejectedNext(s, generation))
  {
    hide Reserve, RoomHolds;
    ReserveKeeps(s.core);
    SameRoomHolds(s, UploadNext(s, generation, clientRevision, jsonText));
    SameRoomHolds(s, UploadRejectedNext(s, generation));
  }

  lemma {:induction false} NotifyTouches(c: Core, m: InboundMessage, reserved: bool)
    ensures var d := Notify(c, m, reserved);
      d == c.(inbound := d.inbound, queued := d.queued, reservations := d.reservations)
  {
    hide DropOldestNotification, LastMatch;
    var fitting := Fitting(m, reserved);
    if fitting.Some? { LastMatchFinds(c.inbound, fitting.value); }
  }

  lemma {:induction false} InboundRoom(s: Sys, i: nat, serialized: string, m: InboundMessage)
    requires RoomHolds(s)
    ensures i < |s.hand| ==> RoomHolds(DeliverNext(s, i, serialized))
    ensures RoomHolds(NotifyNext(s, m))
    ensures RoomHolds(DispatchNext(s))
  {
    hide RoomHolds, Notify;
    NotifyTouches(s.core, m, false);
    SameRoomHolds(s, NotifyNext(s, m));
    SameRoomHolds(s, DispatchNext(s));
    if i < |s.hand| {
      NotifyTouches(s.core, InboundMessage(s.hand[i].generation, s.hand[i].kind, "", serialized, s.feed.nextStamp), true);
      SameRoomHolds(s, DeliverNext(s, i, serialized));
    }
  }

  lemma {:induction false} SupersedeRoom(s: Sys, core: Core)
    requires Located(s) && s.core.generation < core.generation
    requires core.desired.None? && core.joinPending.None? && core.joinInFlight.None?
    ensures RoomHolds(Supersede(s, core))
  {
    hide Held, JoinPends, Confirmed, CommandsLocated, AcksLocated, HandLocated, TablesBounded;
  }

  lemma {:induction false} CommitRoom(s: Sys, now: int)
    requires RoomHolds(s) && Located(s) && Enabled(s, CommitAckStep(now))
    ensures RoomHolds(CommitAckNext(s, now))
  {
    hide Confirmed, CommandsLocated, AcksLocated, HandLocated, TablesBounded;
    var t := CommitAckNext(s, now);
    if JoinPends(s.core.acks) {
      var id: nat :| IsJoinAck(s.core.acks, id);
      assert IsJoinAck(t.core.acks, id);
    }
    if s.worker.command.kind.JoinRoom? { assert IsJoinAck(t.core.acks, s.worker.ack.value); }
  }

  lemma {:induction false} CommitSnapshotRoom(s: Sys, now: int)
    requires RoomHolds(s) && Located(s) && Enabled(s, CommitSnapshotStep(now))
    ensures RoomHolds(CommitSnapshotNext(s, now))
  {
    hide Confirmed, CommandsLocated, AcksLocated, HandLocated, TablesBounded;
    var t := CommitSnapshotNext(s, now);
    if JoinPends(s.core.acks) {
      var id: nat :| IsJoinAck(s.core.acks, id);
      assert IsJoinAck(t.core.acks, id);
    }
  }

  lemma {:induction false} HandleAckRoom(s: Sys, id: nat, confirmed: Option<string>)
    requires RoomHolds(s) && s.worker.Idle?
    ensures RoomHolds(HandleAckNext(s, id, confirmed))
  {
    hide Confirmed;
    var t := HandleAckNext(s, id, confirmed);
    if JoinPends(s.core.acks) && !(s.core.generation == s.worker.generation && IsJoinAck(s.core.acks, id)) {
      var join: nat :| IsJoinAck(s.core.acks, join);
      assert IsJoinAck(t.core.acks, join);
    }
  }

  lemma {:induction false} ExpireRoom(s: Sys, now: int)
    requires RoomHolds(s) && s.worker.Idle?
    ensures RoomHolds(ExpireAcksNext(s, now))
  {
    hide Confirmed, AcksOwed;
    var t := ExpireAcksNext(s, now);
    var (expired, core) := ExpireAcks(s.core, s.worker.generation, now);
    if JoinPends(s.core.acks) {
      var join: nat :| IsJoinAck(s.core.acks, join);
      assert IsJoinAck(t.core.acks, join) || (join in expired && expired[join].kind.JoinRoom?);
    }
  }

  lemma {:induction false} FailRoom(s: Sys)
    requires RoomHolds(s) && Located(s) && s.worker.Idle?
    ensures RoomHolds(FailAcksNext(s))
  {
    hide Confirmed, AcksOwed, JoinPends, CommandsLocated, AcksLocated, HandLocated, TablesBounded;
  }

  lemma {:induction false} ClearRoom(s: Sys)
    requires RoomHolds(s) && Located(s) && Enabled(s, ClearAcksStep)
    ensures RoomHolds(ClearAcksNext(s))
  {
    hide Confirmed, AckTickets, CommandsLocated, AcksLocated, HandLocated, TablesBounded;
  }

  lemma {:induction false} PrepareRoom(s: Sys)
    requires RoomHolds(s) && s.worker.Idle?
    ensures RoomHolds(PrepareJoinNext(s))
  {
    hide Confirmed, Reserve;
    ReserveKeeps(s.core);
    if JoinPends(s.core.acks) {
      var join: nat :| IsJoinAck(s.core.acks, join);
    }
  }

  lemma {:induction false} RenameRoomRoom(s: Sys)
    requires RoomHolds(s) && s.worker.Renaming?
    ensures RoomHolds(CommitRenameNext(s))
  {
    hide JoinPends;
    var confirms := s.naming.confirms + [Confirmation(s.worker.sequence, s.worker.name, s.worker.answered)];
    assert confirms[..|confirms| - 1] == s.naming.confirms;
  }

  lemma {:induction false} MarkRoom(s: Sys)
    requires RoomHolds(s)
    ensures RoomHolds(s.(core := StopBegin(s.core)))
    ensures s.worker.Idle? ==> RoomHolds(s.(core := MarkJoinPending(s.core, s.worker.generation)))
    ensures s.worker.Idle? ==> RoomHolds(s.(worker := Idle(s.core.generation)))
  {
    hide JoinPends, Confirmed;
  }

  lemma {:induction false} TakenRoom(s: Sys)
    requires RoomHolds(s) && s.worker.Idle?
    ensures RoomHolds(PopRegistrationNext(s)) && RoomHolds(TakeNext(s))
  {
    hide RoomHolds, FirstRegistration, CommandTickets, PoppedStale, SkipStale;
    FirstRegistrationFinds(s.core.commands, s.worker.generation);
    SameRoomHolds(s, PopRegistrationNext(s));
    SameRoomHolds(s, TakeNext(s));
  }

  lemma {:induction false} QueueRoom(s: Sys, selected: Command -> bool)
    requires RoomHolds(s) && s.worker.Idle?
    ensures RoomHolds(TakeSnapshotNext(s)) && RoomHolds(TakeQueuedNext(s, selected))
  {
    hide RoomHolds, KeepCommands, CommandsOwed;
    SameRoomHolds(s, TakeSnapshotNext(s));
    SameRoomHolds(s, TakeQueuedNext(s, selected));
  }

  lemma {:induction false} BusyRoom(s: Sys, kind: MessageType)
    requires RoomHolds(s)
    ensures RoomHolds(LoseWorker(s))
    ensures s.worker.Ticket().Some? ==> RoomHolds(OweWorker(s, kind))
    ensures s.worker.Sending? || s.worker.Uploading? ==> RoomHolds(AllocateAckNext(s))
    ensures s.worker.Sending? ==> RoomHolds(SendFailNext(s))
    ensures s.worker.Uploading? ==> RoomHolds(SnapshotFailNext(s))
  {
    hide RoomHolds, WorkerTickets;
    SameRoomHolds(s, LoseWorker(s));
    if s.worker.Ticket().Some? { SameRoomHolds(s, OweWorker(s, kind)); }
    if s.worker.Sending? || s.worker.Uploading? { SameRoomHolds(s, AllocateAckNext(s)); }
    if s.worker.Sending? { SameRoomHolds(s, SendFailNext(s)); }
    if s.worker.Uploading? { SameRoomHolds(s, SnapshotFailNext(s)); }
  }

  lemma {:induction false} UserStepRoom(s: Sys, step: Step)
    requires Inv(s) && RoomHolds(s) && Enabled(s, step) && (IsUserStep(step) || Supersedes(step))
    ensures RoomHolds(Next(s, step))
  {
    hide EnqueueNext, JoinRoomNext, LeaveRoomNext, UploadRejectedNext, UploadNext, CancelNext, DeliverNext, NotifyNext,
      DispatchNext, Supersede, RoomHolds, InboundHolds, CommandsLocated, AcksLocated, WorkerLocated, HandLocated,
      TablesBounded, Balanced, Conserved;
    match step
    case EnqueueStep(kind, argument, secondArgument, requestId, clientRevision, now) =>
      EnqueueRoom(s, kind, argument, secondArgument, requestId, clientRevision, now);
    case JoinRoomStep(roomId, name, now) => JoinRoomRoom(s, roomId, name, now);
    case LeaveRoomStep(now) => LeaveRoomRoom(s, now);
    case UploadRejectedStep(generation) => UploadRoom(s, generation, 0, "");
    case UploadStep(generation, clientRevision, jsonText) => UploadRoom(s, generation, clientRevision, jsonText);
    case CancelStep(requestId) => CancelRoom(s, requestId);
    case StopBeginStep => MarkRoom(s);
    case DispatchStep => InboundRoom(s, 0, "", InboundMessage(0, CloudError, "", "", 0));
    case DeliverStep(i, serialized) => InboundRoom(s, i, serialized, InboundMessage(0, CloudError, "", "", 0));
    case NotifyStep(generation, kind, key, serialized) =>
      InboundRoom(s, 0, "", InboundMessage(generation, kind, key, serialized, s.feed.nextStamp));
    case ConfigureStep(_, _) => SupersedeRoom(s, Configure(s.core, step.serverValid, step.credentialsValid));
    case StopEndStep => SupersedeRoom(s, StopEnd(s.core));
  }

  lemma {:induction false} WorkerStepRoom(s: Sys, step: Step)
    requires Inv(s) && RoomHolds(s) && Enabled(s, step) && IsWorkerStep(step)
    ensures RoomHolds(Next(s, step))
  {
    hide PopRegistrationNext, OweWorker, LoseWorker, TakeNext, AllocateAckNext, CommitAckNext, SendFailNext,
      RoomHolds, InboundHolds, Located, Balanced, Conserved;
    match step
    case ObserveStep => MarkRoom(s);
    case PopRegistrationStep => TakenRoom(s);
    case RegisterResultStep(registered) =>
      BusyRoom(s, if registered then DeviceRegistered else DeviceRegistrationError);
    case RegisterSilentStep(_) => BusyRoom(s, CloudError);
    case TakeStep => TakenRoom(s);
    case AbortDropStep => BusyRoom(s, CloudError);
    case AllocateAckStep => BusyRoom(s, CloudError);
    case AckTableFullStep => BusyRoom(s, CloudError);
    case CommitAckStep(now) => CommitRoom(s, now);
    case SendFailStep => BusyRoom(s, CloudError);
  }

  lemma {:induction false} TableStepRoom(s: Sys, step: Step)
    requires Inv(s) && RoomHolds(s) && Enabled(s, step)
    requires !IsUserStep(step) && !IsWorkerStep(step) && !Supersedes(step)
    ensures RoomHolds(Next(s, step))
  {
    hide OweWorker, TakeSnapshotNext, SnapshotFailNext, CommitSnapshotNext, HandleAckNext, PrepareJoinNext,
      CommitRenameNext, ExpireAcksNext, FailAcksNext, TakeQueuedNext, ClearAcksNext,
      RoomHolds, InboundHolds, Located, Balanced, Conserved;
    match step
    case TakeSnapshotStep => QueueRoom(s, Failing(0));
    case SnapshotRejectedStep => BusyRoom(s, SnapshotUploadResult);
    case SnapshotFailStep => BusyRoom(s, SnapshotUploadResult);
    case CommitSnapshotStep(now) => CommitSnapshotRoom(s, now);
    case HandleAckStep(id, confirmed) => HandleAckRoom(s, id, confirmed);
    case CommitRenameStep => RenameRoomRoom(s);
    case PrepareJoinStep => PrepareRoom(s);
    case ExpireAcksStep(now) => ExpireRoom(s, now);
    case FailAcksStep => FailRoom(s);
    case ExpireQueuedStep(now) => QueueRoom(s, Expiring(s.worker.generation, now));
    case FailQueuedStep => QueueRoom(s, Failing(s.worker.generation));
    case ClearAcksStep => ClearRoom(s);
    case MarkJoinStep => MarkRoom(s);
  }

  lemma {:induction false} StepKeepsRoom(s: Sys, step: Step)
    requires Inv(s) && RoomHolds(s) && Enabled(s, step)
    ensures RoomHolds(Next(s, step))
  {
    hide RoomHolds, Inv, Enabled, Next;
    if IsUserStep(step) || Supersedes(step) { UserStepRoom(s, step); }
    else if IsWorkerStep(step) { WorkerStepRoom(s, step); }
    else { TableStepRoom(s, step); }
  }

  lemma {:induction false} RunKeepsRoom(s: Sys, steps: seq<Step>)
    requires Inv(s) && RoomHolds(s) && CanRun(s, steps)
    ensures RoomHolds(After(s, steps))
    decreases |steps|
  {
    hide Inv, RoomHolds, Next, Enabled;
    if steps != [] {
      StepKeepsRoom(s, steps[0]);
      StepKeepsInvariant(s, steps[0]);
      RunKeepsRoom(Next(s, steps[0]), steps[1..]);
    }
  }

  lemma {:induction false} ReachableRoom(s: Sys)
    requires Reachable(s)
    ensures RoomHolds(s)
  {
    hide Inv;
    InitialInvariant();
    var steps :| CanRun(INITIAL, steps) && After(INITIAL, steps) == s;
    RunKeepsRoom(INITIAL, steps);
  }
}
