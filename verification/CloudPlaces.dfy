/** Every step leaves commands, acknowledgements, results and the worker where they belong:
    in the current generation, with a credit, and within the limits of the tables. */
module CloudPlaces {
  import opened Options
  import opened Collections
  import opened CloudQueue
  import opened CloudTickets
  import opened CloudRuns
  import opened CloudInbound
  import opened CloudLedger

  lemma {:induction false} FewerAcks(few: map<nat, PendingAck>, many: map<nat, PendingAck>)
    requires forall id: nat | id in few :: id in many
    ensures |few| <= |many|
  {
    SubsetSize(few.Keys, many.Keys);
  }

  lemma {:induction false} OneMoreAck(acks: map<nat, PendingAck>, id: nat, pending: PendingAck)
    requires id !in acks
    ensures |acks[id := pending]| == |acks| + 1
  {
    assert acks[id := pending].Keys == acks.Keys + {id};
  }

  /** The parts on which location depends, apart from the commands. */
  predicate SameTables(s: Sys, t: Sys) {
    t.core.acks == s.core.acks && t.core.nextAckId == s.core.nextAckId && t.core.generation == s.core.generation &&
    t.core.configGeneration == s.core.configGeneration && t.core.stopping == s.core.stopping && t.worker == s.worker
  }

  lemma {:induction false} AdmittedLocated(s: Sys, t: Sys)
    requires Located(s) && SameTables(s, t) && t.hand == s.hand && t.core.latest == s.core.latest
    requires t.core.commands == s.core.commands || exists kind, ticket :: Admits(s.core, t.core, kind, ticket)
    requires s.worker.Sending? ==> |t.core.commands| <= MAX_COMMAND_QUEUE || t.core.commands == s.core.commands
    ensures Located(t)
  {
  }

  lemma {:induction false} EnqueueLocated(s: Sys, kind: CommandKind, argument: string, secondArgument: string,
    requestId: string, clientRevision: nat, now: int)
    requires Located(s)
    ensures Located(EnqueueNext(s, kind, argument, secondArgument, requestId, clientRevision, now))
  {
    hide Located, Enqueue, Admits;
    EnqueueEffect(s.core, kind, argument, secondArgument, requestId, clientRevision, now, s.nextTicket);
    var t := EnqueueNext(s, kind, argument, secondArgument, requestId, clientRevision, now);
    if t.nextTicket != s.nextTicket { AdmitsOne(s.core, t.core, kind, s.nextTicket); }
    AdmittedLocated(s, t);
  }

  lemma {:induction false} AdmitsOne(c: Core, d: Core, kind: CommandKind, ticket: nat)
    requires Admits(c, d, kind, ticket)
    ensures |d.commands| <= MAX_COMMAND_QUEUE
  {
  }

  lemma {:induction false} JoinRoomLocated(s: Sys, roomId: string, name: string, now: int)
    requires Located(s)
    ensures Located(JoinRoomNext(s, roomId, name, now))
  {
    hide Located, Enqueue, Admits;
    EnqueueEffect(s.core, JoinRoom, roomId, name, "", 0, now, s.nextTicket);
    var q := Enqueue(s.core, JoinRoom, roomId, name, "", 0, now, s.nextTicket).1;
    var t := JoinRoomNext(s, roomId, name, now);
    if t.nextTicket != s.nextTicket {
      AdmitsOne(s.core, q, JoinRoom, s.nextTicket);
      AdmitsSame(s.core, q, t.core, JoinRoom, s.nextTicket);
    }
    AdmittedLocated(s, t);
  }

  lemma {:induction false} AdmitsSame(c: Core, d: Core, e: Core, kind: CommandKind, ticket: nat)
    requires Admits(c, d, kind, ticket) && e.commands == d.commands && e.reservations == d.reservations
    ensures Admits(c, e, kind, ticket)
  {
  }

  lemma {:induction false} LeaveRoomLocated(s: Sys, now: int)
    requires Located(s)
    ensures Located(LeaveRoomNext(s, now))
  {
    hide Located, Enqueue, Admits;
    EnqueueEffect(s.core, LeaveRoom, "", "", "", 0, now, s.nextTicket);
    var q := Enqueue(s.core, LeaveRoom, "", "", "", 0, now, s.nextTicket).1;
    var t := LeaveRoomNext(s, now);
    if t.nextTicket != s.nextTicket {
      AdmitsOne(s.core, q, LeaveRoom, s.nextTicket);
      AdmitsSame(s.core, q, t.core, LeaveRoom, s.nextTicket);
    }
    AdmittedLocated(s, t);
  }

  lemma {:induction false} UploadLocated(s: Sys, generation: nat, clientRevision: nat, jsonText: string)
    requires Located(s)
    ensures Located(UploadNext(s, generation, clientRevision, jsonText))
  {
    hide Reserve;
    ReserveKeeps(s.core);
  }

  lemma {:induction false} UploadRejectedLocated(s: Sys, generation: nat)
    requires Located(s)
    ensures Located(UploadRejectedNext(s, generation))
  {
    hide Reserve;
    ReserveKeeps(s.core);
  }

  lemma {:induction false} CancelLocated(s: Sys, requestId: string)
    requires Located(s)
    ensures Located(CancelNext(s, requestId))
  {
    hide KeepCommands, CommandTickets, AckTickets;
    KeepKeeps(s.core.commands, NotCancelled(requestId));
    FewerAcks(KeptAcks(s.core.acks, requestId), s.core.acks);
    assert CancelNext(s, requestId).core.acks == KeptAcks(s.core.acks, requestId);
  }

  lemma {:induction false} SupersedeLocated(s: Sys, core: Core)
    requires Located(s) && s.core.generation < core.generation && Fenced(core)
    requires core.commands == [] && core.latest.None? && core.acks == map[]
    ensures Located(Supersede(s, core))
  {
    hide Held;
  }

  lemma {:induction false} PopRegistrationLocated(s: Sys)
    requires Located(s) && s.worker.Idle?
    ensures Located(PopRegistrationNext(s))
  {
    hide FirstRegistration;
    FirstRegistrationFinds(s.core.commands, s.worker.generation);
    var found := FirstRegistration(s.core.commands, s.worker.generation);
    if found.Some? {
      assert s.core.commands[found.value] in s.core.commands;
    }
  }

  lemma {:induction false} OweLocated(s: Sys, kind: MessageType)
    requires Located(s) && s.worker.Ticket().Some? && kind.IsProtected()
    ensures Located(OweWorker(s, kind))
  {
  }

  lemma {:induction false} LoseLocated(s: Sys)
    requires Located(s)
    ensures Located(LoseWorker(s))
  {
    hide WorkerTickets;
  }

  lemma {:induction false} FewerCommandsLocated(c: Core, few: seq<Command>)
    requires CommandsLocated(c) && forall command | command in few :: command in c.commands
    ensures CommandsLocated(c.(commands := few))
  {
  }

  /** What stays in the queue, and what the worker takes. */
  lemma {:induction false} TakenLocated(c: Core, generation: nat)
    requires CommandsLocated(c)
    ensures var rest := SkipStale(c.commands, generation);
      |rest| <= |c.commands| && CommandsLocated(c.(commands := rest)) &&
      (rest != [] ==> CommandsLocated(c.(commands := rest[1..])) && generation == c.generation && rest[0].reserved)
  {
    hide PoppedStale, CommandsLocated;
    var rest := SkipStale(c.commands, generation);
    SkipIsSuffix(c.commands, generation);
    FewerCommandsLocated(c, rest);
    if rest != [] {
      FewerCommandsLocated(c, rest[1..]);
      FirstLocated(c, rest[0]);
    }
  }

  lemma {:induction false} FirstLocated(c: Core, command: Command)
    requires CommandsLocated(c) && command in c.commands
    ensures command.generation == c.generation && command.reserved
  {
  }

  lemma {:induction false} TakeLocated(s: Sys)
    requires Located(s) && s.worker.Idle?
    ensures Located(TakeNext(s))
  {
    hide CommandTickets, PoppedStale, CommandsLocated, HandLocated, AcksLocated;
    TakenLocated(s.core, s.worker.generation);
    SkipIsSuffix(s.core.commands, s.worker.generation);
    TakeChanges(s.core, s.worker.generation);
  }

  lemma {:induction false} TakeChanges(c: Core, generation: nat)
    requires CommandsLocated(c.(commands := TakeCommand(c, generation).1.commands))
    ensures CommandsLocated(TakeCommand(c, generation).1)
    ensures AcksLocated(TakeCommand(c, generation).1) == AcksLocated(c)
  {
    hide SkipStale;
  }

  lemma {:induction false} AllocateLocated(s: Sys)
    requires Located(s) && (s.worker.Sending? || s.worker.Uploading?)
    ensures Located(AllocateAckNext(s))
  {
  }

  lemma {:induction false} CommitLocated(s: Sys, now: int)
    requires Located(s) && Enabled(s, CommitAckStep(now))
    ensures Located(CommitAckNext(s, now))
  {
    var command := s.worker.command;
    OneMoreAck(s.core.acks, s.worker.ack.value, PendingAck(command.kind, command.requestId,
      command.clientRevision, now + ACK_TIMEOUT, command.sequence, command.reserved, command.ticket));
  }

  lemma {:induction false} CommitSnapshotLocated(s: Sys, now: int)
    requires Located(s) && Enabled(s, CommitSnapshotStep(now))
    ensures Located(CommitSnapshotNext(s, now))
  {
    var snapshot := s.worker.snapshot;
    OneMoreAck(s.core.acks, s.worker.ack.value, PendingAck(UploadSnapshot, "",
      snapshot.clientRevision, now + ACK_TIMEOUT, 0, snapshot.reserved, snapshot.ticket));
  }

  lemma {:induction false} SendFailLocated(s: Sys)
    requires Located(s) && s.worker.Sending?
    ensures Located(SendFailNext(s))
  {
    hide WorkerTickets;
  }

  lemma {:induction false} TakeSnapshotLocated(s: Sys)
    requires Located(s) && s.worker.Idle?
    ensures Located(TakeSnapshotNext(s))
  {
  }

  lemma {:induction false} SnapshotFailLocated(s: Sys)
    requires Located(s) && s.worker.Uploading?
    ensures Located(SnapshotFailNext(s))
  {
    hide Located;
    if ReturnSnapshot(s.core, s.worker.generation, s.worker.snapshot).0 { OweLocated(s, SnapshotUploadResult); }
    else { ReturnedLocated(s); }
  }

  lemma {:induction false} ReturnedLocated(s: Sys)
    requires Located(s) && s.worker.Uploading?
    requires !ReturnSnapshot(s.core, s.worker.generation, s.worker.snapshot).0
    ensures Located(SnapshotFailNext(s))
  {
  }

  lemma {:induction false} HandleAckLocated(s: Sys, id: nat, confirmed: Option<string>)
    requires Located(s) && s.worker.Idle?
    ensures Located(HandleAckNext(s, id, confirmed))
  {
    hide HandLocated, CommandsLocated, AcksLocated;
    if id in s.core.acks && s.core.generation == s.worker.generation {
      var owed := Owed(s.worker.generation, s.core.acks[id].kind.ResultType(), s.core.acks[id].ticket);
      OwedLocated(owed, s.core.generation);
      AcksTakenLocated(s, HandleAckNext(s, id, confirmed), [owed]);
    }
  }

  lemma {:induction false} OwedLocated(owed: Owed, generation: nat)
    requires owed.generation <= generation && owed.kind.IsProtected()
    ensures HandLocated([owed], generation)
  {
  }

  lemma {:induction false} ToHandLocated(hand: seq<Owed>, more: seq<Owed>, generation: nat)
    requires HandLocated(hand, generation) && HandLocated(more, generation)
    ensures HandLocated(hand + more, generation)
  {
  }

  lemma {:induction false} AcksTakenLocated(s: Sys, t: Sys, more: seq<Owed>)
    requires Located(s) && s.worker.Idle? && HandLocated(more, s.core.generation)
    requires t.core == s.core.(acks := t.core.acks, joinPending := t.core.joinPending, joinInFlight := t.core.joinInFlight)
    requires forall id: nat | id in t.core.acks :: id in s.core.acks && t.core.acks[id] == s.core.acks[id]
    requires t.worker == s.worker || (t.worker.Renaming? && t.worker.generation == s.worker.generation)
    requires t.hand == s.hand + more
    ensures Located(t)
  {
    hide HandLocated;
    FewerAcks(t.core.acks, s.core.acks);
    ToHandLocated(s.hand, more, s.core.generation);
  }

  lemma {:induction false} AcksInHand(s: Sys, taken: map<nat, PendingAck>)
    requires s.worker.generation <= s.core.generation
    ensures HandLocated(AcksOwed(taken, s.core.nextAckId, s.worker.generation), s.core.generation)
  {
    hide AcksOwed;
    AcksOwedAreProtected(taken, s.core.nextAckId, s.worker.generation);
  }

  lemma {:induction false} ExpireAcksLocated(s: Sys, now: int)
    requires Located(s) && s.worker.Idle?
    ensures Located(ExpireAcksNext(s, now))
  {
    hide HandLocated, CommandsLocated, AcksLocated, AcksOwed;
    var (expired, core) := ExpireAcks(s.core, s.worker.generation, now);
    AcksInHand(s, expired);
    AcksTakenLocated(s, ExpireAcksNext(s, now), AcksOwed(expired, s.core.nextAckId, s.worker.generation));
  }

  lemma {:induction false} FailAcksLocated(s: Sys)
    requires Located(s) && s.worker.Idle?
    ensures Located(FailAcksNext(s))
  {
    hide HandLocated, CommandsLocated, AcksLocated, AcksOwed;
    var failed := FailAcks(s.core, s.worker.generation).0;
    AcksInHand(s, failed);
    AcksTakenLocated(s, FailAcksNext(s), AcksOwed(failed, s.core.nextAckId, s.worker.generation));
  }

  lemma {:induction false} TakeQueuedLocated(s: Sys, selected: Command -> bool)
    requires Located(s) && s.worker.Idle?
    ensures Located(TakeQueuedNext(s, selected))
  {
    hide KeepCommands;
    KeepKeeps(s.core.commands, selected);
    KeepKeeps(s.core.commands, command => !selected(command));
  }

  lemma {:induction false} ClearAcksLocated(s: Sys)
    requires Located(s) && s.worker.Idle?
    ensures Located(ClearAcksNext(s))
  {
    hide AckTickets;
  }

  lemma {:induction false} PrepareJoinLocated(s: Sys)
    requires Located(s) && s.worker.Idle?
    ensures Located(PrepareJoinNext(s))
  {
    hide Reserve, HasJoinCommandOrAck;
    ReserveKeeps(s.core);
  }

  lemma {:induction false} DeliverLocated(s: Sys, i: nat, serialized: string)
    requires Located(s) && InboundHolds(s) && i < |s.hand|
    ensures Located(DeliverNext(s, i, serialized))
  {
    hide Notify, InboundHolds;
    assert s.hand[i] in s.hand;
    DeliverCases(s, i, serialized);
  }

  lemma {:induction false} NotifyLocated(s: Sys, m: InboundMessage)
    requires Located(s) && InboundHolds(s) && m.stamp == s.feed.nextStamp && !m.IsProtected()
    ensures Located(NotifyNext(s, m))
  {
    hide Healthy, EnqueueInbound;
    if m.generation != s.core.generation { StaleIsIgnored(s.core, m, false); }
    else { NotificationStaysHealthy(s.core, s.feed, m); }
  }

  lemma {:induction false} OtherLocated(s: Sys)
    requires Located(s)
    ensures Located(DispatchNext(s))
    ensures !s.core.stopping ==> Located(s.(core := StopBegin(s.core)))
  {
  }

  lemma {:induction false} IdleLocated(s: Sys)
    requires Located(s)
    ensures s.worker.Idle? ==> Located(s.(core := MarkJoinPending(s.core, s.worker.generation)))
    ensures s.worker.Idle? ==> Located(s.(worker := Idle(s.core.generation)))
    ensures s.worker.Renaming? ==> Located(CommitRenameNext(s))
  {
  }
}
