/** Which room the client remembers over whole runs, and when it joins that room again. */
module CloudRooms {
  import opened Options
  import opened CloudQueue
  import opened CloudTickets
  import opened CloudRuns
  import opened CloudInbound
  import opened CloudLedger
  import opened CloudPlaces
  import opened CloudSafety
  import opened CloudTheorems
  import opened CloudRemembered

  function RoomOf(c: Core): Option<string> {
    if c.desired.None? then None else Some(c.desired.value.roomId)
  }

  /** The operation of this step was accepted. */
  predicate Accepted(s: Sys, step: Step)
    requires Enabled(s, step)
  {
    Next(s, step).nextTicket > s.nextTicket
  }

  /** The worker is sending a join on its own account. */
  predicate Rejoins(s: Sys) { s.worker.Sending? && s.worker.remembered }

  /** The room, and that no join is pending, stay; and the worker takes up no remembered join. */
  predicate KeepsRoom(s: Sys, t: Sys) {
    && RoomOf(t.core) == RoomOf(s.core)
    && (s.core.joinPending.None? ==> t.core.joinPending.None?)
    && (Rejoins(t) ==> Rejoins(s) && t.worker.command == s.worker.command)
  }

  // ---- The steps ----

  lemma {:induction false} JoinMoves(s: Sys, roomId: string, name: string, now: int)
    ensures var t := JoinRoomNext(s, roomId, name, now);
      if t.nextTicket > s.nextTicket then RoomOf(t.core) == Some(roomId) && t.core.joinPending == Some(s.core.generation)
      else KeepsRoom(s, t)
  {
    hide Enqueue;
    EnqueueEffect(s.core, JoinRoom, roomId, name, "", 0, now, s.nextTicket);
  }

  lemma {:induction false} LeaveMoves(s: Sys, now: int)
    ensures var t := LeaveRoomNext(s, now);
      if t.nextTicket > s.nextTicket then RoomOf(t.core) == None && t.core.joinPending == None && t.worker == s.worker
      else KeepsRoom(s, t)
  {
    hide Enqueue;
    EnqueueEffect(s.core, LeaveRoom, "", "", "", 0, now, s.nextTicket);
  }

  lemma {:induction false} EnqueueKeepsRoom(s: Sys, kind: CommandKind, argument: string, secondArgument: string,
    requestId: string, clientRevision: nat, now: int)
    ensures KeepsRoom(s, EnqueueNext(s, kind, argument, secondArgument, requestId, clientRevision, now))
  {
    hide Enqueue;
    EnqueueEffect(s.core, kind, argument, secondArgument, requestId, clientRevision, now, s.nextTicket);
  }

  lemma {:induction false} InboundKeepsRoom(s: Sys, i: nat, serialized: string, m: InboundMessage)
    ensures i < |s.hand| ==> KeepsRoom(s, DeliverNext(s, i, serialized))
    ensures KeepsRoom(s, NotifyNext(s, m)) && KeepsRoom(s, DispatchNext(s))
  {
    hide Notify;
    NotifyTouches(s.core, m, false);
    if i < |s.hand| {
      NotifyTouches(s.core, InboundMessage(s.hand[i].generation, s.hand[i].kind, "", serialized, s.feed.nextStamp), true);
    }
  }

  lemma {:induction false} UploadKeepsRoom(s: Sys, generation: nat, clientRevision: nat, jsonText: string)
    ensures KeepsRoom(s, UploadNext(s, generation, clientRevision, jsonText))
    ensures KeepsRoom(s, UploadRejectedNext(s, generation))
  {
    hide Reserve;
    ReserveKeeps(s.core);
  }

  lemma {:induction false} OthersKeepRoom(s: Sys, requestId: string)
    ensures KeepsRoom(s, CancelNext(s, requestId)) && KeepsRoom(s, s.(core := StopBegin(s.core)))
    ensures KeepsRoom(s, s.(worker := Idle(s.core.generation)))
  {
    hide KeepCommands, AckTickets, CommandTickets, CancelledAcks;
  }

  lemma {:induction false} UserKeepsRoom(s: Sys, step: Step)
    requires Enabled(s, step) && IsUserStep(step) && !step.JoinRoomStep? && !step.LeaveRoomStep?
    ensures KeepsRoom(s, Next(s, step))
  {
    hide EnqueueNext, JoinRoomNext, LeaveRoomNext, UploadRejectedNext, UploadNext, DeliverNext, NotifyNext, DispatchNext, CancelNext, StopBegin,
      KeepsRoom;
    match step
    case EnqueueStep(kind, argument, secondArgument, requestId, clientRevision, now) =>
      EnqueueKeepsRoom(s, kind, argument, secondArgument, requestId, clientRevision, now);
    case UploadRejectedStep(generation) => UploadKeepsRoom(s, generation, 0, "");
    case UploadStep(generation, clientRevision, jsonText) => UploadKeepsRoom(s, generation, clientRevision, jsonText);
    case CancelStep(_) => OthersKeepRoom(s, step.requestId);
    case StopBeginStep => OthersKeepRoom(s, "");
    case DispatchStep => InboundKeepsRoom(s, 0, "", InboundMessage(0, CloudError, "", "", 0));
    case DeliverStep(i, serialized) => InboundKeepsRoom(s, i, serialized, InboundMessage(0, CloudError, "", "", 0));
    case NotifyStep(generation, kind, key, serialized) =>
      InboundKeepsRoom(s, 0, "", InboundMessage(generation, kind, key, serialized, s.feed.nextStamp));
  }

  lemma {:induction false} TakenKeepsRoom(s: Sys)
    requires s.worker.Idle?
    ensures KeepsRoom(s, PopRegistrationNext(s)) && KeepsRoom(s, TakeNext(s))
  {
    hide FirstRegistration, CommandTickets, PoppedStale, SkipStale;
    FirstRegistrationFinds(s.core.commands, s.worker.generation);
  }

  lemma {:induction false} BusyKeepsRoom(s: Sys, kind: MessageType)
    ensures KeepsRoom(s, LoseWorker(s))
    ensures s.worker.Ticket().Some? ==> KeepsRoom(s, OweWorker(s, kind))
    ensures s.worker.Sending? || s.worker.Uploading? ==> KeepsRoom(s, AllocateAckNext(s))
    ensures s.worker.Sending? ==> KeepsRoom(s, SendFailNext(s))
    ensures s.worker.Uploading? ==> KeepsRoom(s, SnapshotFailNext(s))
  {
    hide WorkerTickets;
  }

  lemma {:induction false} CommitKeepsRoom(s: Sys, now: int)
    requires JoinHolds(s)
    ensures s.worker.Sending? && s.worker.ack.Some? ==> KeepsRoom(s, CommitAckNext(s, now))
    ensures s.worker.Uploading? && s.worker.ack.Some? ==> KeepsRoom(s, CommitSnapshotNext(s, now))
    ensures s.worker.Renaming? ==> KeepsRoom(s, CommitRenameNext(s))
  {
    hide JoinPends;
  }

  lemma {:induction false} WorkerKeepsRoom(s: Sys, step: Step)
    requires Enabled(s, step) && IsWorkerStep(step) && JoinHolds(s)
    ensures KeepsRoom(s, Next(s, step))
  {
    hide PopRegistrationNext, OweWorker, LoseWorker, TakeNext, AllocateAckNext, CommitAckNext, SendFailNext, JoinHolds, KeepsRoom;
    match step
    case ObserveStep => OthersKeepRoom(s, "");
    case PopRegistrationStep => TakenKeepsRoom(s);
    case RegisterResultStep(registered) =>
      BusyKeepsRoom(s, if registered then DeviceRegistered else DeviceRegistrationError);
    case RegisterSilentStep(_) => BusyKeepsRoom(s, CloudError);
    case TakeStep => TakenKeepsRoom(s);
    case AbortDropStep => BusyKeepsRoom(s, CloudError);
    case AllocateAckStep => BusyKeepsRoom(s, CloudError);
    case AckTableFullStep => BusyKeepsRoom(s, CloudError);
    case CommitAckStep(now) => CommitKeepsRoom(s, now);
    case SendFailStep => BusyKeepsRoom(s, CloudError);
  }

  lemma {:induction false} HandleKeepsRoom(s: Sys, id: nat, confirmed: Option<string>)
    requires s.worker.Idle? && JoinHolds(s)
    ensures KeepsRoom(s, HandleAckNext(s, id, confirmed))
  {
    hide JoinPends;
  }

  lemma {:induction false} AcksKeepRoom(s: Sys, now: int)
    requires s.worker.Idle? && JoinHolds(s)
    ensures KeepsRoom(s, ExpireAcksNext(s, now)) && KeepsRoom(s, FailAcksNext(s)) && KeepsRoom(s, ClearAcksNext(s))
  {
    hide AcksOwed, AckTickets, JoinPends;
  }

  lemma {:induction false} QueueKeepsRoom(s: Sys, selected: Command -> bool)
    requires s.worker.Idle?
    ensures KeepsRoom(s, TakeSnapshotNext(s)) && KeepsRoom(s, TakeQueuedNext(s, selected))
  {
    hide KeepCommands, CommandsOwed;
  }

  /** Preparing changes nothing but what the worker holds. */
  lemma {:induction false} PrepareMoves(s: Sys)
    requires s.worker.Idle?
    ensures var t := PrepareJoinNext(s);
      RoomOf(t.core) == RoomOf(s.core) && t.core.joinPending == s.core.joinPending &&
      (Rejoins(t) <==> PrepareJoin(s.core, s.worker.generation, s.nextTicket).0.Ready?)
  {
    hide Reserve, HasJoinCommandOrAck;
    ReserveKeeps(s.core);
  }

  lemma {:induction false} MarkMoves(s: Sys)
    ensures RoomOf(MarkJoinPending(s.core, s.worker.generation)) == RoomOf(s.core)
    ensures RoomOf(s.core).None? ==> MarkJoinPending(s.core, s.worker.generation) == s.core
  {
  }

  lemma {:induction false} TableKeepsRoom(s: Sys, step: Step)
    requires Enabled(s, step) && JoinHolds(s) && !step.PrepareJoinStep? && !step.MarkJoinStep?
    requires !IsUserStep(step) && !IsWorkerStep(step) && !Supersedes(step)
    ensures KeepsRoom(s, Next(s, step))
  {
    hide OweWorker, TakeSnapshotNext, SnapshotFailNext, CommitSnapshotNext, HandleAckNext, CommitRenameNext, ExpireAcksNext,
      FailAcksNext, TakeQueuedNext, ClearAcksNext, JoinHolds, KeepsRoom;
    match step
    case TakeSnapshotStep => QueueKeepsRoom(s, Failing(0));
    case SnapshotRejectedStep => BusyKeepsRoom(s, SnapshotUploadResult);
    case SnapshotFailStep => BusyKeepsRoom(s, SnapshotUploadResult);
    case CommitSnapshotStep(now) => CommitKeepsRoom(s, now);
    case HandleAckStep(id, confirmed) => HandleKeepsRoom(s, id, confirmed);
    case CommitRenameStep => CommitKeepsRoom(s, 0);
    case ExpireAcksStep(now) => AcksKeepRoom(s, now);
    case FailAcksStep => AcksKeepRoom(s, 0);
    case ExpireQueuedStep(now) => QueueKeepsRoom(s, Expiring(s.worker.generation, now));
    case FailQueuedStep => QueueKeepsRoom(s, Failing(s.worker.generation));
    case ClearAcksStep => AcksKeepRoom(s, 0);
  }

  /** The steps that can change what is remembered, each as it does. */
  ghost predicate Moves(s: Sys, step: Step, t: Sys) {
    match step
    case JoinRoomStep(roomId, _, _) =>
      if t.nextTicket > s.nextTicket then RoomOf(t.core) == Some(roomId) && t.core.joinPending == Some(s.core.generation)
      else KeepsRoom(s, t)
    case LeaveRoomStep(_) =>
      if t.nextTicket > s.nextTicket then RoomOf(t.core) == None && t.core.joinPending == None && t.worker == s.worker
      else KeepsRoom(s, t)
    case ConfigureStep(_, _) => RoomOf(t.core) == None && t.core.joinPending == None && t.worker == s.worker
    case StopEndStep => RoomOf(t.core) == None && t.core.joinPending == None && t.worker == s.worker
    case PrepareJoinStep =>
      RoomOf(t.core) == RoomOf(s.core) && t.core.joinPending == s.core.joinPending &&
      (Rejoins(t) <==> PrepareJoin(s.core, s.worker.generation, s.nextTicket).0.Ready?)
    case MarkJoinStep =>
      RoomOf(t.core) == RoomOf(s.core) && (RoomOf(s.core).None? ==> t.core == s.core) && t.worker == s.worker
    case _ => KeepsRoom(s, t)
  }

  lemma {:induction false} StepMovesRoom(s: Sys, step: Step)
    requires Enabled(s, step) && JoinHolds(s)
    ensures Moves(s, step, Next(s, step))
  {
    hide JoinHolds, KeepsRoom, RoomOf, EnqueueNext, JoinRoomNext, LeaveRoomNext, PrepareJoinNext, MarkJoinPending, Held, PrepareJoin, Rejoins;
    if step.JoinRoomStep? { JoinMoves(s, step.roomId, step.name, step.now); }
    else if step.LeaveRoomStep? { LeaveMoves(s, step.now); }
    else if Supersedes(step) { SupersedeMoves(s, step); }
    else if step.PrepareJoinStep? { PrepareMoves(s); }
    else if step.MarkJoinStep? { MarkMoves(s); }
    else if IsUserStep(step) { UserKeepsRoom(s, step); }
    else if IsWorkerStep(step) { WorkerKeepsRoom(s, step); }
    else { TableKeepsRoom(s, step); }
  }

  lemma {:induction false} SupersedeMoves(s: Sys, step: Step)
    requires Enabled(s, step) && Supersedes(step)
    ensures var t := Next(s, step); RoomOf(t.core) == None && t.core.joinPending == None && t.worker == s.worker
  {
    hide Held;
  }

  // ---- Over whole runs ----

  /** The room that a step leaves remembered, told by the operation and whether it was accepted. */
  function RoomAfter(s: Sys, step: Step, room: Option<string>): Option<string>
    requires Enabled(s, step)
  {
    if step.JoinRoomStep? && Accepted(s, step) then Some(step.roomId)
    else if (step.LeaveRoomStep? && Accepted(s, step)) || Supersedes(step) then None
    else room
  }

  ghost function LastRoom(s: Sys, steps: seq<Step>, room: Option<string>): Option<string>
    requires CanRun(s, steps)
    decreases |steps|
  {
    if steps == [] then room else LastRoom(Next(s, steps[0]), steps[1..], RoomAfter(s, steps[0], room))
  }

  lemma {:induction false} RoomFollows(s: Sys, steps: seq<Step>)
    requires Inv(s) && RoomHolds(s) && CanRun(s, steps)
    ensures RoomOf(After(s, steps).core) == LastRoom(s, steps, RoomOf(s.core))
    decreases |steps|
  {
    hide Inv, NameHolds, JoinHolds, Next, Enabled, RoomOf;
    if steps != [] {
      StepMovesRoom(s, steps[0]);
      StepKeepsRoom(s, steps[0]);
      StepKeepsInvariant(s, steps[0]);
      MovesRoom(s, steps[0]);
      RoomFollows(Next(s, steps[0]), steps[1..]);
    }
  }

  lemma {:induction false} MovesRoom(s: Sys, step: Step)
    requires Enabled(s, step) && Moves(s, step, Next(s, step))
    ensures RoomOf(Next(s, step).core) == RoomAfter(s, step, RoomOf(s.core))
  {
    hide Next, Enabled, RoomOf, PrepareJoin, Rejoins;
  }

  /** In every run the remembered room is that of the last accepted join, unless an accepted leave, a new
      configuration or a stop came after it. */
  lemma {:induction false} RoomIsLastJoined(steps: seq<Step>)
    requires CanRun(INITIAL, steps)
    ensures RoomOf(After(INITIAL, steps).core) == LastRoom(INITIAL, steps, None)
  {
    hide Inv, CanRun, After, LastRoom;
    InitialInvariant();
    ReachableInitially();
    RoomFollows(INITIAL, steps);
  }

  lemma {:induction false} ReachableInitially()
    ensures RoomHolds(INITIAL)
  {
  }

  /** No room is joined in the run. */
  ghost predicate WithoutJoin(s: Sys, steps: seq<Step>)
    requires CanRun(s, steps)
    decreases |steps|
  {
    steps != [] ==> !(steps[0].JoinRoomStep? && Accepted(s, steps[0])) && WithoutJoin(Next(s, steps[0]), steps[1..])
  }

  /** No room is remembered, and what the worker sends it sends already: at most the command given. */
  predicate Left(s: Sys, rejoin: Option<Command>) {
    RoomOf(s.core).None? && s.core.joinPending.None? && (Rejoins(s) ==> rejoin == Some(s.worker.command))
  }

  lemma {:induction false} NothingPrepared(c: Core, generation: nat, ticket: nat)
    requires RoomOf(c).None?
    ensures PrepareJoin(c, generation, ticket) == (NoDesired, c)
  {
  }

  lemma {:induction false} StaysLeft(s: Sys, step: Step, rejoin: Option<Command>)
    requires Enabled(s, step) && Moves(s, step, Next(s, step)) && Left(s, rejoin)
    requires !(step.JoinRoomStep? && Accepted(s, step))
    ensures Left(Next(s, step), rejoin)
  {
    hide Next, Enabled, RoomOf, PrepareJoin;
    if step.PrepareJoinStep? { NothingPrepared(s.core, s.worker.generation, s.nextTicket); }
  }

  lemma {:induction false} RunStaysLeft(s: Sys, steps: seq<Step>, rejoin: Option<Command>)
    requires Inv(s) && RoomHolds(s) && CanRun(s, steps) && Left(s, rejoin) && WithoutJoin(s, steps)
    ensures Left(After(s, steps), rejoin)
    decreases |steps|
  {
    hide Inv, NameHolds, JoinHolds, Next, Enabled, Left, Accepted;
    if steps != [] {
      StepMovesRoom(s, steps[0]);
      StepKeepsRoom(s, steps[0]);
      StepKeepsInvariant(s, steps[0]);
      StaysLeft(s, steps[0], rejoin);
      RunStaysLeft(Next(s, steps[0]), steps[1..], rejoin);
    }
  }

  /** From an accepted leave on, until a room is joined again, no room is remembered, no join is ever prepared
      and the worker takes up no remembered one, whatever becomes of the connection. */
  lemma {:induction false} LeavingForgets(s: Sys, now: int, steps: seq<Step>)
    requires Reachable(s) && Enabled(s, LeaveRoomStep(now)) && Accepted(s, LeaveRoomStep(now))
    requires CanRun(Next(s, LeaveRoomStep(now)), steps) && WithoutJoin(Next(s, LeaveRoomStep(now)), steps)
    ensures var t := After(Next(s, LeaveRoomStep(now)), steps);
      && RoomOf(t.core).None?
      && (forall generation, ticket :: PrepareJoin(t.core, generation, ticket).0.NoDesired?)
      && (Rejoins(t) ==> Rejoins(s) && t.worker.command == s.worker.command)
  {
    hide Inv, NameHolds, JoinHolds, Next, Enabled, Reachable, CanRun, WithoutJoin, After, Moves;
    ReachableInvariant(s);
    ReachableRoom(s);
    var step, t := LeaveRoomStep(now), Next(s, LeaveRoomStep(now));
    StepMovesRoom(s, step);
    StepKeepsRoom(s, step);
    StepKeepsInvariant(s, step);
    LeftNow(s, now);
    var rejoin := if Rejoins(s) then Some(s.worker.command) else None;
    RunStaysLeft(t, steps, rejoin);
    var u := After(t, steps);
    forall generation, ticket ensures PrepareJoin(u.core, generation, ticket).0.NoDesired? {
      NothingPrepared(u.core, generation, ticket);
    }
  }

  lemma {:induction false} LeftNow(s: Sys, now: int)
    requires Enabled(s, LeaveRoomStep(now)) && Moves(s, LeaveRoomStep(now), Next(s, LeaveRoomStep(now)))
    requires Accepted(s, LeaveRoomStep(now))
    ensures Left(Next(s, LeaveRoomStep(now)), if Rejoins(s) then Some(s.worker.command) else None)
  {
    hide Next, Enabled, RoomOf;
  }

  // ---- Joining again ----

  /** A join of the remembered room is prepared exactly when one is wanted, none is in flight, queued or
      unacknowledged, and there is room for its acknowledgement and its result. */
  lemma {:induction false} PreparedExactly(s: Sys)
    requires Reachable(s) && s.worker.Idle? && s.worker.generation == s.core.generation
    ensures PrepareJoin(s.core, s.worker.generation, s.nextTicket).0.Ready? <==>
      && s.core.joinPending.Some? && s.core.joinInFlight.None? && !HasJoinCommandOrAck(s.core, s.core.generation)
      && |s.core.acks| < MAX_PENDING_ACKS && s.core.queued + s.core.reservations < MAX_PROTECTED_RESULTS
  {
    hide Reachable, Reserve, HasJoinCommandOrAck, MakeRoom, JoinPends, Confirmed, Enabled;
    ReachableRoom(s);
    CreditIsRefusedOnlyWhenFull(s);
  }

  /** A new connection wants the remembered room again, and only a remembered one. */
  lemma {:induction false} ConnectionWantsRoom(s: Sys)
    requires Reachable(s) && s.worker.Idle? && s.worker.generation == s.core.generation
    ensures var t := Next(s, MarkJoinStep);
      t.core.joinInFlight.None? && (t.core.joinPending.Some? <==> RoomOf(s.core).Some?)
  {
    hide Reachable, JoinPends, Confirmed;
    ReachableRoom(s);
  }

  /** A connection that breaks while a join is in flight leaves it wanted. */
  lemma {:induction false} BrokenJoinIsWanted(s: Sys)
    requires Reachable(s) && s.worker.Idle? && s.worker.generation == s.core.generation
    ensures var t := Next(s, FailAcksStep);
      t.core.joinInFlight.None? && t.core.acks == map[] && t.core.joinPending == s.core.joinPending
  {
    hide Reachable, JoinPends, Confirmed, AcksOwed;
    ReachableRoom(s);
  }

  /** A join that the server has answered is wanted no more. */
  lemma {:induction false} AnsweredJoinIsSettled(s: Sys, id: nat, confirmed: Option<string>)
    requires Reachable(s) && s.worker.Idle? && s.worker.generation == s.core.generation && IsJoinAck(s.core.acks, id)
    ensures HandleAckNext(s, id, confirmed).core.joinPending.None?
  {
    hide Reachable, JoinPends, Confirmed;
    ReachableRoom(s);
  }

  /** Nor is one that was not answered in time. */
  lemma {:induction false} ExpiredJoinIsSettled(s: Sys, id: nat, now: int)
    requires Reachable(s) && s.worker.Idle? && s.worker.generation == s.core.generation && IsJoinAck(s.core.acks, id)
    requires s.core.acks[id].deadline <= now
    ensures ExpireAcksNext(s, now).core.joinPending.None?
  {
    hide Reachable, JoinPends, Confirmed, AcksOwed;
    ReachableRoom(s);
    var expired := ExpireAcks(s.core, s.worker.generation, now).0;
    assert id in expired && expired[id].kind.JoinRoom?;
  }

  /** A join that has been sent is in flight until it is answered. */
  lemma {:induction false} SentJoinIsInFlight(s: Sys, now: int)
    requires Enabled(s, CommitAckStep(now)) && s.worker.command.kind.JoinRoom? && JoinHolds(s)
    requires s.core.joinPending.Some? && s.core.desired.value.generation == s.core.generation
    ensures CommitAckNext(s, now).core.joinInFlight == Some(s.core.generation)
  {
    hide JoinPends;
  }
}
