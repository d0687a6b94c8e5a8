/** What was asked for under every ticket, over whole runs: it travels unchanged from queue to worker to
    table, and the result is of the type that answers it. */
module CloudOrders {
  import opened Options
  import opened CloudQueue
  import opened CloudTickets
  import opened CloudRuns
  import opened CloudInbound
  import opened CloudLedger
  import opened CloudPlaces
  import opened CloudSafety
  import opened CloudRemembered

  /** An operation as it was asked for. */
  datatype Order = Order(kind: CommandKind, argument: string, secondArgument: string, requestId: string, clientRevision: nat)

  /** The operation whose result a message is. */
  function Answered(m: MessageType): Option<CommandKind> {
    match m
    case DeviceRegistered => Some(RegisterDevice)
    case DeviceRegistrationError => Some(RegisterDevice)
    case RoomJoinResult => Some(JoinRoom)
    case SnapshotUploadResult => Some(UploadSnapshot)
    case RoomRenameResult => Some(RenameRoom)
    case RoomLeaveResult => Some(LeaveRoom)
    case RoomComparisonResult => Some(RequestComparison)
    case SnapshotResult => Some(RequestSnapshot)
    case BroadcasterJoinResult => Some(JoinUnified)
    case BroadcasterRenameResult => Some(RenameUnified)
    case BroadcastersListResult => Some(RequestBroadcasters)
    case BroadcasterSnapshotResult => Some(RequestBroadcasterSnapshot)
    case SyncHistoryResult => Some(RequestSyncHistory)
    case SyncRelationsResult => Some(RequestSyncRelations)
    case SyncRecordResult => Some(RecordSync)
    case RealtimeStartResult => Some(StartRealtime)
    case RealtimeHeartbeatResult => Some(HeartbeatRealtime)
    case RealtimeStopResult => Some(StopRealtime)
    case _ => None
  }

  /** The result type of an operation answers that operation, and results are what is protected. */
  lemma {:induction false} ResultAnswers(kind: CommandKind, m: MessageType)
    ensures Answered(kind.ResultType()) == Some(kind)
    ensures Answered(m).Some? <==> m.IsProtected()
    ensures m.IsCoalescible() <==> Answered(m).None? && m != CloudError
  {
  }

  // ---- The orders of a run ----

  type Orders = map<nat, Order>

  /** What the step asks for, if it is accepted. */
  function OrderOf(s: Sys, step: Step): Order {
    match step
    case EnqueueStep(kind, argument, secondArgument, requestId, clientRevision, _) =>
      Order(kind, argument, secondArgument, requestId, clientRevision)
    case JoinRoomStep(roomId, name, _) => Order(JoinRoom, roomId, name, "", 0)
    case LeaveRoomStep(_) => Order(LeaveRoom, "", "", "", 0)
    case UploadStep(_, clientRevision, jsonText) => Order(UploadSnapshot, jsonText, "", "", clientRevision)
    case PrepareJoinStep =>
      if s.core.desired.None? then Order(JoinRoom, "", "", "", 0)
      else Order(JoinRoom, s.core.desired.value.roomId, s.core.desired.value.broadcasterName, "", 0)
    case _ => Order(UploadSnapshot, "", "", "", 0)
  }

  function OrdersAfter(s: Sys, step: Step, orders: Orders): Orders
    requires Enabled(s, step)
  {
    if Next(s, step).nextTicket > s.nextTicket then orders[s.nextTicket := OrderOf(s, step)] else orders
  }

  ghost function OrdersAlong(s: Sys, steps: seq<Step>, orders: Orders): Orders
    requires CanRun(s, steps)
    decreases |steps|
  {
    if steps == [] then orders else OrdersAlong(Next(s, steps[0]), steps[1..], OrdersAfter(s, steps[0], orders))
  }

  // ---- What fits its order ----

  predicate CommandFits(orders: Orders, c: Command) {
    c.ticket in orders && orders[c.ticket] == Order(c.kind, c.argument, c.secondArgument, c.requestId, c.clientRevision)
  }

  predicate AckFits(orders: Orders, a: PendingAck) {
    a.ticket in orders && orders[a.ticket].kind == a.kind && orders[a.ticket].requestId == a.requestId &&
    orders[a.ticket].clientRevision == a.clientRevision
  }

  predicate SnapshotFits(orders: Orders, p: PendingSnapshot) {
    p.ticket in orders && orders[p.ticket] == Order(UploadSnapshot, p.jsonText, "", "", p.clientRevision)
  }

  predicate OwedFits(orders: Orders, o: Owed) { o.ticket in orders && Answered(o.kind) == Some(orders[o.ticket].kind) }

  predicate WorkerFits(orders: Orders, w: Worker) {
    match w
    case Sending(_, command, _, _) => CommandFits(orders, command)
    case Registering(_, command) => CommandFits(orders, command) && command.kind.RegisterDevice?
    case Uploading(_, snapshot, _) => SnapshotFits(orders, snapshot)
    case Renaming(_, _, _, answered) => answered in orders && orders[answered].kind.RenameRoom?
    case _ => true
  }

  predicate OrdersHold(s: Sys, orders: Orders) {
    && (forall ticket | ticket in orders :: ticket < s.nextTicket)
    && (forall c | c in s.core.commands :: CommandFits(orders, c))
    && (forall id: nat | id in s.core.acks :: AckFits(orders, s.core.acks[id]))
    && (s.core.latest.Some? ==> SnapshotFits(orders, s.core.latest.value))
    && (forall o | o in s.hand :: OwedFits(orders, o))
    && (forall c | c in s.naming.confirms :: Renames(orders, c))
    && WorkerFits(orders, s.worker)
  }

  predicate Renames(orders: Orders, c: Confirmation) { c.ticket in orders && orders[c.ticket].kind.RenameRoom? }

  /** Nothing is in t that was not in s, but results of what was. */
  predicate Fewer(s: Sys, t: Sys) {
    && t.nextTicket == s.nextTicket
    && (forall c | c in t.core.commands :: c in s.core.commands || (s.worker.Sending? && c == s.worker.command))
    && (forall id: nat | id in t.core.acks :: id in s.core.acks && t.core.acks[id] == s.core.acks[id])
    && (t.core.latest.Some? ==> t.core.latest == s.core.latest || (s.worker.Uploading? && t.core.latest.value == s.worker.snapshot))
  }

  lemma {:induction false} FewerHold(s: Sys, t: Sys, orders: Orders)
    requires OrdersHold(s, orders) && Fewer(s, t)
    requires forall o | o in t.hand :: o in s.hand || OwedFits(orders, o)
    requires forall c | c in t.naming.confirms :: c in s.naming.confirms || Renames(orders, c)
    requires t.worker.Idle? || WorkerFits(orders, t.worker)
    ensures OrdersHold(t, orders)
  {
    hide CommandFits, AckFits, SnapshotFits, OwedFits;
  }

  /** The operation just accepted is the one entry more. */
  lemma {:induction false} OneMoreHolds(s: Sys, t: Sys, orders: Orders, order: Order)
    requires OrdersHold(s, orders) && t.nextTicket == s.nextTicket + 1
    requires forall c | c in t.core.commands :: c in s.core.commands || CommandFits(orders[s.nextTicket := order], c)
    requires t.core.acks == s.core.acks
    requires t.core.latest == s.core.latest || (t.core.latest.Some? && SnapshotFits(orders[s.nextTicket := order], t.core.latest.value))
    requires forall o | o in t.hand :: o in s.hand || OwedFits(orders[s.nextTicket := order], o)
    requires forall c | c in t.naming.confirms :: c in s.naming.confirms
    requires t.worker == s.worker || WorkerFits(orders[s.nextTicket := order], t.worker)
    ensures OrdersHold(t, orders[s.nextTicket := order])
  {
  }

  // ---- The steps ----

  lemma {:induction false} EnqueueContents(c: Core, kind: CommandKind, argument: string, secondArgument: string,
    requestId: string, clientRevision: nat, now: int, ticket: nat)
    ensures var (ok, d) := Enqueue(c, kind, argument, secondArgument, requestId, clientRevision, now, ticket);
      ok ==> exists added ::
        (d.commands == c.commands + [added] && added.ticket == ticket && added.kind == kind && added.argument == argument &&
        added.secondArgument == secondArgument && added.requestId == requestId && added.clientRevision == clientRevision)
  {
    hide Reserve;
    ReserveKeeps(c);
  }

  lemma {:induction false} EnqueueOrders(s: Sys, kind: CommandKind, argument: string, secondArgument: string,
    requestId: string, clientRevision: nat, now: int, orders: Orders)
    requires OrdersHold(s, orders)
    ensures var t := EnqueueNext(s, kind, argument, secondArgument, requestId, clientRevision, now);
      OrdersHold(t, if t.nextTicket > s.nextTicket
        then orders[s.nextTicket := Order(kind, argument, secondArgument, requestId, clientRevision)] else orders)
  {
    hide Enqueue, OrdersHold;
    var t := EnqueueNext(s, kind, argument, secondArgument, requestId, clientRevision, now);
    EnqueueEffect(s.core, kind, argument, secondArgument, requestId, clientRevision, now, s.nextTicket);
    EnqueueContents(s.core, kind, argument, secondArgument, requestId, clientRevision, now, s.nextTicket);
    WorkerHolds(s, orders);
    if t.nextTicket > s.nextTicket { OneMoreHolds(s, t, orders, Order(kind, argument, secondArgument, requestId, clientRevision)); }
    else { FewerHold(s, t, orders); }
  }

  lemma {:induction false} WorkerHolds(s: Sys, orders: Orders)
    requires OrdersHold(s, orders)
    ensures WorkerFits(orders, s.worker)
  {
  }

  lemma {:induction false} JoinRoomOrders(s: Sys, roomId: string, name: string, now: int, orders: Orders)
    requires OrdersHold(s, orders)
    ensures var t := JoinRoomNext(s, roomId, name, now);
      OrdersHold(t, if t.nextTicket > s.nextTicket then orders[s.nextTicket := Order(JoinRoom, roomId, name, "", 0)] else orders)
  {
    hide Enqueue, OrdersHold;
    var t := JoinRoomNext(s, roomId, name, now);
    EnqueueEffect(s.core, JoinRoom, roomId, name, "", 0, now, s.nextTicket);
    EnqueueContents(s.core, JoinRoom, roomId, name, "", 0, now, s.nextTicket);
    WorkerHolds(s, orders);
    if t.nextTicket > s.nextTicket { OneMoreHolds(s, t, orders, Order(JoinRoom, roomId, name, "", 0)); }
    else { FewerHold(s, t, orders); }
  }

  lemma {:induction false} LeaveRoomOrders(s: Sys, now: int, orders: Orders)
    requires OrdersHold(s, orders)
    ensures var t := LeaveRoomNext(s, now);
      OrdersHold(t, if t.nextTicket > s.nextTicket then orders[s.nextTicket := Order(LeaveRoom, "", "", "", 0)] else orders)
  {
    hide Enqueue, OrdersHold;
    var t := LeaveRoomNext(s, now);
    EnqueueEffect(s.core, LeaveRoom, "", "", "", 0, now, s.nextTicket);
    EnqueueContents(s.core, LeaveRoom, "", "", "", 0, now, s.nextTicket);
    WorkerHolds(s, orders);
    if t.nextTicket > s.nextTicket { OneMoreHolds(s, t, orders, Order(LeaveRoom, "", "", "", 0)); }
    else { FewerHold(s, t, orders); }
  }

  /** A snapshot that replaces another leaves that one owed a result. */
  lemma {:induction false} ReplacedIsOwed(s: Sys, orders: Orders, more: Orders)
    requires OrdersHold(s, orders) && (forall ticket | ticket in orders :: ticket in more && more[ticket] == orders[ticket])
    ensures s.core.latest.Some? ==>
      OwedFits(more, Owed(s.core.latest.value.generation, SnapshotUploadResult, s.core.latest.value.ticket))
  {
  }

  lemma {:induction false} UploadOrders(s: Sys, generation: nat, clientRevision: nat, jsonText: string, orders: Orders)
    requires OrdersHold(s, orders)
    ensures var t := UploadNext(s, generation, clientRevision, jsonText);
      OrdersHold(t, if t.nextTicket > s.nextTicket
        then orders[s.nextTicket := Order(UploadSnapshot, jsonText, "", "", clientRevision)] else orders)
  {
    hide Reserve, OrdersHold;
    var t, order := UploadNext(s, generation, clientRevision, jsonText), Order(UploadSnapshot, jsonText, "", "", clientRevision);
    ReserveKeeps(s.core);
    WorkerHolds(s, orders);
    if t.nextTicket > s.nextTicket {
      TicketsBelow(s, orders);
      ReplacedIsOwed(s, orders, orders[s.nextTicket := order]);
      OneMoreHolds(s, t, orders, order);
    } else {
      FewerHold(s, t, orders);
    }
  }

  lemma {:induction false} TicketsBelow(s: Sys, orders: Orders)
    requires OrdersHold(s, orders)
    ensures forall ticket | ticket in orders :: ticket < s.nextTicket
  {
  }

  lemma {:induction false} UploadRejectedOrders(s: Sys, generation: nat, orders: Orders)
    requires OrdersHold(s, orders)
    ensures var t := UploadRejectedNext(s, generation);
      OrdersHold(t, if t.nextTicket > s.nextTicket then orders[s.nextTicket := Order(UploadSnapshot, "", "", "", 0)] else orders)
  {
    hide Reserve, OrdersHold;
    var t := UploadRejectedNext(s, generation);
    ReserveKeeps(s.core);
    WorkerHolds(s, orders);
    if t.nextTicket > s.nextTicket { OneMoreHolds(s, t, orders, Order(UploadSnapshot, "", "", "", 0)); }
    else { FewerHold(s, t, orders); }
  }

  lemma {:induction false} CancelOrders(s: Sys, requestId: string, orders: Orders)
    requires OrdersHold(s, orders)
    ensures OrdersHold(CancelNext(s, requestId), orders)
  {
    hide OrdersHold, KeepCommands, AckTickets, CommandTickets, CancelledAcks;
    KeepKeeps(s.core.commands, NotCancelled(requestId));
    WorkerHolds(s, orders);
    FewerHold(s, CancelNext(s, requestId), orders);
  }

  lemma {:induction false} InboundOrders(s: Sys, i: nat, serialized: string, m: InboundMessage, orders: Orders)
    requires OrdersHold(s, orders)
    ensures i < |s.hand| ==> OrdersHold(DeliverNext(s, i, serialized), orders)
    ensures OrdersHold(NotifyNext(s, m), orders) && OrdersHold(DispatchNext(s), orders)
    ensures OrdersHold(s.(core := StopBegin(s.core)), orders)
    ensures OrdersHold(s.(core := MarkJoinPending(s.core, s.worker.generation)), orders)
  {
    hide OrdersHold, Notify;
    WorkerHolds(s, orders);
    NotifyTouches(s.core, m, false);
    FewerHold(s, NotifyNext(s, m), orders);
    FewerHold(s, DispatchNext(s), orders);
    FewerHold(s, s.(core := StopBegin(s.core)), orders);
    FewerHold(s, s.(core := MarkJoinPending(s.core, s.worker.generation)), orders);
    if i < |s.hand| {
      NotifyTouches(s.core, InboundMessage(s.hand[i].generation, s.hand[i].kind, "", serialized, s.feed.nextStamp), true);
      FewerHold(s, DeliverNext(s, i, serialized), orders);
    }
  }

  lemma {:induction false} SupersedeOrders(s: Sys, core: Core, orders: Orders)
    requires OrdersHold(s, orders) && core.commands == [] && core.latest.None? && core.acks == map[]
    ensures OrdersHold(Supersede(s, core), orders)
  {
    hide OrdersHold, Held;
    WorkerHolds(s, orders);
    FewerHold(s, Supersede(s, core), orders);
  }

  lemma {:induction false} CommandHolds(s: Sys, orders: Orders, c: Command)
    requires OrdersHold(s, orders) && c in s.core.commands
    ensures CommandFits(orders, c)
  {
  }

  lemma {:induction false} PoppedOrders(s: Sys, orders: Orders)
    requires OrdersHold(s, orders) && s.worker.Idle?
    ensures OrdersHold(PopRegistrationNext(s), orders)
  {
    hide FirstRegistration, CommandFits, AckFits, SnapshotFits, OwedFits;
    FirstRegistrationFinds(s.core.commands, s.worker.generation);
    FewerHold(s, PopRegistrationNext(s), orders);
  }

  lemma {:induction false} TakenOrders(s: Sys, orders: Orders)
    requires OrdersHold(s, orders) && s.worker.Idle?
    ensures OrdersHold(TakeNext(s), orders)
  {
    hide SkipStale, PoppedStale, CommandTickets, OrdersHold, CommandFits;
    var rest := SkipStale(s.core.commands, s.worker.generation);
    SkipIsSuffix(s.core.commands, s.worker.generation);
    assert forall command | command in rest :: command in s.core.commands;
    if rest != [] {
      assert rest[0] in rest && forall command | command in rest[1..] :: command in rest;
      CommandHolds(s, orders, rest[0]);
    }
    FewerHold(s, TakeNext(s), orders);
  }

  lemma {:induction false} BusyOrders(s: Sys, kind: MessageType, orders: Orders)
    requires OrdersHold(s, orders)
    ensures OrdersHold(LoseWorker(s), orders)
    ensures s.worker.Registering? && (kind == DeviceRegistered || kind == DeviceRegistrationError) ==> OrdersHold(OweWorker(s, kind), orders)
    ensures s.worker.Uploading? && kind == SnapshotUploadResult ==> OrdersHold(OweWorker(s, kind), orders)
    ensures s.worker.Sending? || s.worker.Uploading? ==> OrdersHold(AllocateAckNext(s), orders)
    ensures s.worker.Idle? ==> OrdersHold(s.(worker := Idle(s.core.generation)), orders)
  {
    hide OrdersHold, WorkerTickets, CommandFits, SnapshotFits;
    WorkerHolds(s, orders);
    FewerHold(s, LoseWorker(s), orders);
    OwesItsResult(s, orders);
    if s.worker.Ticket().Some? && OwedFits(orders, Owed(s.worker.generation, kind, s.worker.Ticket().value)) {
      FewerHold(s, OweWorker(s, kind), orders);
    }
    if s.worker.Sending? || s.worker.Uploading? { FewerHold(s, AllocateAckNext(s), orders); }
    if s.worker.Idle? { FewerHold(s, s.(worker := Idle(s.core.generation)), orders); }
  }

  lemma {:induction false} OwesItsResult(s: Sys, orders: Orders)
    requires WorkerFits(orders, s.worker)
    ensures s.worker.Registering? ==> OwedFits(orders, Owed(s.worker.generation, DeviceRegistered, s.worker.command.ticket))
    ensures s.worker.Registering? ==> OwedFits(orders, Owed(s.worker.generation, DeviceRegistrationError, s.worker.command.ticket))
    ensures s.worker.Uploading? ==> OwedFits(orders, Owed(s.worker.generation, SnapshotUploadResult, s.worker.snapshot.ticket))
  {
  }

  lemma {:induction false} FailOrders(s: Sys, orders: Orders)
    requires OrdersHold(s, orders)
    ensures s.worker.Sending? ==> OrdersHold(SendFailNext(s), orders)
    ensures s.worker.Uploading? ==> OrdersHold(SnapshotFailNext(s), orders)
  {
    hide OrdersHold, WorkerTickets;
    WorkerHolds(s, orders);
    if s.worker.Sending? { FewerHold(s, SendFailNext(s), orders); }
    if s.worker.Uploading? {
      OwesItsResult(s, orders);
      FewerHold(s, SnapshotFailNext(s), orders);
    }
  }

  lemma {:induction false} CommitOrders(s: Sys, now: int, orders: Orders)
    requires OrdersHold(s, orders)
    ensures s.worker.Sending? && s.worker.ack.Some? ==> OrdersHold(CommitAckNext(s, now), orders)
    ensures s.worker.Uploading? && s.worker.ack.Some? ==> OrdersHold(CommitSnapshotNext(s, now), orders)
  {
    hide OwedFits;
  }

  lemma {:induction false} AcksAnswered(acks: map<nat, PendingAck>, n: nat, generation: nat, orders: Orders)
    requires forall id: nat | id in acks :: AckFits(orders, acks[id])
    ensures forall o | o in AcksOwed(acks, n, generation) :: OwedFits(orders, o)
  {
    if n > 0 {
      AcksAnswered(acks, n - 1, generation, orders);
      if n - 1 in acks { ResultAnswers(acks[n - 1].kind, CloudError); }
    }
  }

  lemma {:induction false} CommandsAnswered(commands: seq<Command>, orders: Orders)
    requires forall c | c in commands :: CommandFits(orders, c)
    ensures forall o | o in CommandsOwed(commands) :: OwedFits(orders, o)
  {
    forall i | 0 <= i < |commands| ensures OwedFits(orders, CommandsOwed(commands)[i]) {
      assert commands[i] in commands;
      ResultAnswers(commands[i].kind, CloudError);
    }
  }

  lemma {:induction false} ExpireOrders(s: Sys, now: int, orders: Orders)
    requires OrdersHold(s, orders) && s.worker.Idle?
    ensures OrdersHold(ExpireAcksNext(s, now), orders)
  {
    hide AcksOwed, CommandFits, AckFits, SnapshotFits, OwedFits;
    AcksAnswered(ExpireAcks(s.core, s.worker.generation, now).0, s.core.nextAckId, s.worker.generation, orders);
    FewerHold(s, ExpireAcksNext(s, now), orders);
  }

  lemma {:induction false} FailAcksOrders(s: Sys, orders: Orders)
    requires OrdersHold(s, orders) && s.worker.Idle?
    ensures OrdersHold(FailAcksNext(s), orders) && OrdersHold(ClearAcksNext(s), orders)
  {
    hide AcksOwed, AckTickets, CommandFits, AckFits, SnapshotFits, OwedFits;
    AcksAnswered(FailAcks(s.core, s.worker.generation).0, s.core.nextAckId, s.worker.generation, orders);
    FewerHold(s, FailAcksNext(s), orders);
    FewerHold(s, ClearAcksNext(s), orders);
  }

  lemma {:induction false} QueueOrders(s: Sys, selected: Command -> bool, orders: Orders)
    requires OrdersHold(s, orders) && s.worker.Idle?
    ensures OrdersHold(TakeQueuedNext(s, selected), orders)
  {
    hide CommandsOwed, KeepCommands, CommandFits, AckFits, SnapshotFits, OwedFits;
    KeepKeeps(s.core.commands, selected);
    KeepKeeps(s.core.commands, command => !selected(command));
    CommandsAnswered(KeepCommands(s.core.commands, selected), orders);
    FewerHold(s, TakeQueuedNext(s, selected), orders);
  }

  lemma {:induction false} SnapshotOrders(s: Sys, orders: Orders)
    requires OrdersHold(s, orders) && s.worker.Idle?
    ensures OrdersHold(TakeSnapshotNext(s), orders)
  {
    hide CommandFits, AckFits, SnapshotFits, OwedFits;
    FewerHold(s, TakeSnapshotNext(s), orders);
  }

  lemma {:induction false} HandleOrders(s: Sys, id: nat, confirmed: Option<string>, orders: Orders)
    requires OrdersHold(s, orders) && s.worker.Idle?
    ensures OrdersHold(HandleAckNext(s, id, confirmed), orders)
  {
    hide CommandFits, SnapshotFits;
    if id in s.core.acks { ResultAnswers(s.core.acks[id].kind, CloudError); }
    FewerHold(s, HandleAckNext(s, id, confirmed), orders);
  }

  lemma {:induction false} RenameOrders(s: Sys, orders: Orders)
    requires OrdersHold(s, orders) && s.worker.Renaming?
    ensures OrdersHold(CommitRenameNext(s), orders)
  {
    hide OrdersHold;
    WorkerHolds(s, orders);
    FewerHold(s, CommitRenameNext(s), orders);
  }

  lemma {:induction false} PrepareOrders(s: Sys, orders: Orders)
    requires OrdersHold(s, orders) && s.worker.Idle?
    ensures var t := PrepareJoinNext(s);
      OrdersHold(t, if t.nextTicket > s.nextTicket then orders[s.nextTicket := OrderOf(s, PrepareJoinStep)] else orders)
  {
    hide Reserve, HasJoinCommandOrAck, OrdersHold;
    var t := PrepareJoinNext(s);
    ReserveKeeps(s.core);
    WorkerHolds(s, orders);
    if t.nextTicket > s.nextTicket { OneMoreHolds(s, t, orders, OrderOf(s, PrepareJoinStep)); }
    else { FewerHold(s, t, orders); }
  }

  predicate Asks(step: Step) {
    step.EnqueueStep? || step.JoinRoomStep? || step.LeaveRoomStep? || step.UploadRejectedStep? || step.UploadStep?
  }

  lemma {:induction false} AskingOrders(s: Sys, step: Step, orders: Orders)
    requires OrdersHold(s, orders) && Enabled(s, step) && Asks(step)
    ensures OrdersHold(Next(s, step), OrdersAfter(s, step, orders))
  {
    hide EnqueueNext, JoinRoomNext, LeaveRoomNext, UploadRejectedNext, UploadNext, OrdersHold;
    match step
    case EnqueueStep(kind, argument, secondArgument, requestId, clientRevision, now) =>
      EnqueueOrders(s, kind, argument, secondArgument, requestId, clientRevision, now, orders);
    case JoinRoomStep(roomId, name, now) => JoinRoomOrders(s, roomId, name, now, orders);
    case LeaveRoomStep(now) => LeaveRoomOrders(s, now, orders);
    case UploadRejectedStep(generation) => UploadRejectedOrders(s, generation, orders);
    case UploadStep(generation, clientRevision, jsonText) => UploadOrders(s, generation, clientRevision, jsonText, orders);
  }

  lemma {:induction false} UserStepOrders(s: Sys, step: Step, orders: Orders)
    requires OrdersHold(s, orders) && Enabled(s, step) && IsUserStep(step) && !Asks(step)
    ensures OrdersHold(Next(s, step), orders)
  {
    hide CancelNext, DeliverNext, NotifyNext, DispatchNext, OrdersHold;
    match step
    case CancelStep(requestId) => CancelOrders(s, requestId, orders);
    case StopBeginStep => InboundOrders(s, 0, "", InboundMessage(0, CloudError, "", "", 0), orders);
    case DispatchStep => InboundOrders(s, 0, "", InboundMessage(0, CloudError, "", "", 0), orders);
    case DeliverStep(i, serialized) => InboundOrders(s, i, serialized, InboundMessage(0, CloudError, "", "", 0), orders);
    case NotifyStep(generation, kind, key, serialized) =>
      InboundOrders(s, 0, "", InboundMessage(generation, kind, key, serialized, s.feed.nextStamp), orders);
  }

  /** Only an operation that is accepted takes a ticket. */
  lemma {:induction false} SameTickets(s: Sys, step: Step)
    requires Enabled(s, step)
    requires IsUserStep(step) && !Asks(step)
    ensures Next(s, step).nextTicket == s.nextTicket
  {
    hide KeepCommands, Notify, AckTickets, CommandTickets, CancelledAcks;
  }

  lemma {:induction false} WorkerTakesNoTicket(s: Sys, step: Step)
    requires Enabled(s, step) && !IsUserStep(step) && !step.PrepareJoinStep?
    ensures Next(s, step).nextTicket == s.nextTicket
  {
    hide SkipStale, FirstRegistration, KeepCommands, AckTickets, CommandTickets, AcksOwed, CommandsOwed, PoppedStale, Held, WorkerTickets;
  }

  lemma {:induction false} WorkerStepOrders(s: Sys, step: Step, orders: Orders)
    requires OrdersHold(s, orders) && Enabled(s, step) && IsWorkerStep(step)
    ensures OrdersHold(Next(s, step), orders)
  {
    hide PopRegistrationNext, OweWorker, LoseWorker, TakeNext, AllocateAckNext, CommitAckNext, SendFailNext, OrdersHold;
    match step
    case ObserveStep => BusyOrders(s, CloudError, orders);
    case PopRegistrationStep => PoppedOrders(s, orders);
    case RegisterResultStep(registered) =>
      BusyOrders(s, if registered then DeviceRegistered else DeviceRegistrationError, orders);
    case RegisterSilentStep(_) => BusyOrders(s, CloudError, orders);
    case TakeStep => TakenOrders(s, orders);
    case AbortDropStep => BusyOrders(s, CloudError, orders);
    case AllocateAckStep => BusyOrders(s, CloudError, orders);
    case AckTableFullStep => BusyOrders(s, CloudError, orders);
    case CommitAckStep(now) => CommitOrders(s, now, orders);
    case SendFailStep => FailOrders(s, orders);
  }

  lemma {:induction false} TableStepOrders(s: Sys, step: Step, orders: Orders)
    requires OrdersHold(s, orders) && Enabled(s, step) && !step.PrepareJoinStep?
    requires !IsUserStep(step) && !IsWorkerStep(step)
    ensures OrdersHold(Next(s, step), orders)
  {
    hide OweWorker, TakeSnapshotNext, SnapshotFailNext, CommitSnapshotNext, HandleAckNext, CommitRenameNext, ExpireAcksNext,
      FailAcksNext, TakeQueuedNext, ClearAcksNext, Supersede, OrdersHold;
    match step
    case TakeSnapshotStep => SnapshotOrders(s, orders);
    case SnapshotRejectedStep => BusyOrders(s, SnapshotUploadResult, orders);
    case SnapshotFailStep => FailOrders(s, orders);
    case CommitSnapshotStep(now) => CommitOrders(s, now, orders);
    case HandleAckStep(id, confirmed) => HandleOrders(s, id, confirmed, orders);
    case CommitRenameStep => RenameOrders(s, orders);
    case ExpireAcksStep(now) => ExpireOrders(s, now, orders);
    case FailAcksStep => FailAcksOrders(s, orders);
    case ExpireQueuedStep(now) => QueueOrders(s, Expiring(s.worker.generation, now), orders);
    case FailQueuedStep => QueueOrders(s, Failing(s.worker.generation), orders);
    case ClearAcksStep => FailAcksOrders(s, orders);
    case MarkJoinStep => InboundOrders(s, 0, "", InboundMessage(0, CloudError, "", "", 0), orders);
    case ConfigureStep(_, _) => SupersedeOrders(s, Configure(s.core, step.serverValid, step.credentialsValid), orders);
    case StopEndStep => SupersedeOrders(s, StopEnd(s.core), orders);
  }

  lemma {:induction false} PrepareStepOrders(s: Sys, orders: Orders)
    requires OrdersHold(s, orders) && Enabled(s, PrepareJoinStep)
    ensures OrdersHold(Next(s, PrepareJoinStep), OrdersAfter(s, PrepareJoinStep, orders))
  {
    hide OrdersHold, PrepareJoinNext;
    PrepareOrders(s, orders);
  }

  lemma {:induction false} StepKeepsOrders(s: Sys, step: Step, orders: Orders)
    requires OrdersHold(s, orders) && Enabled(s, step)
    ensures OrdersHold(Next(s, step), OrdersAfter(s, step, orders))
  {
    hide OrdersHold, Enabled, Next;
    if Asks(step) { AskingOrders(s, step, orders); }
    else if IsUserStep(step) {
      SameTickets(s, step);
      UserStepOrders(s, step, orders);
    }
    else if step.PrepareJoinStep? { PrepareStepOrders(s, orders); }
    else {
      WorkerTakesNoTicket(s, step);
      if IsWorkerStep(step) { WorkerStepOrders(s, step, orders); } else { TableStepOrders(s, step, orders); }
    }
  }

  lemma {:induction false} RunKeepsOrders(s: Sys, steps: seq<Step>, orders: Orders)
    requires OrdersHold(s, orders) && CanRun(s, steps)
    ensures OrdersHold(After(s, steps), OrdersAlong(s, steps, orders))
    decreases |steps|
  {
    hide OrdersHold, Next, Enabled, OrdersAfter;
    if steps != [] {
      StepKeepsOrders(s, steps[0], orders);
      RunKeepsOrders(Next(s, steps[0]), steps[1..], OrdersAfter(s, steps[0], orders));
    }
  }

  // ---- What it comes to ----

  /** In every run whatever waits, is being sent or awaits its acknowledgement is just what was asked for
      under its ticket, every result in hand is of the type that answers that operation, and only renames are
      ever confirmed as such. */
  lemma {:induction false} OrdersAreKept(steps: seq<Step>)
    requires CanRun(INITIAL, steps)
    ensures var s, orders := After(INITIAL, steps), OrdersAlong(INITIAL, steps, map[]);
      && (forall c | c in s.core.commands :: CommandFits(orders, c))
      && (forall id: nat | id in s.core.acks :: AckFits(orders, s.core.acks[id]))
      && WorkerFits(orders, s.worker) && (forall o | o in s.hand :: OwedFits(orders, o))
      && (forall c | c in s.naming.confirms :: Renames(orders, c))
  {
    hide CanRun, After, OrdersAlong, CommandFits, AckFits, SnapshotFits, OwedFits;
    RunKeepsOrders(INITIAL, steps, map[]);
  }

  /** What an acknowledgement, an expiry or a failure leaves owed is the result of that operation; so the
      result that is queued for a ticket answers the operation that got the ticket. */
  lemma {:induction false} ResultAnswersOrder(steps: seq<Step>, i: nat, serialized: string)
    requires CanRun(INITIAL, steps) && i < |After(INITIAL, steps).hand|
    ensures var s, orders := After(INITIAL, steps), OrdersAlong(INITIAL, steps, map[]);
      var t := DeliverNext(s, i, serialized);
      t.core.queued == s.core.queued + 1 ==>
        t.core.inbound != [] && s.hand[i].ticket in orders &&
        Answered(t.core.inbound[|t.core.inbound| - 1].kind) == Some(orders[s.hand[i].ticket].kind)
  {
    hide CanRun, After, OrdersAlong, DropOldestNotification, LastMatch;
    OrdersAreKept(steps);
    var s := After(INITIAL, steps);
    assert s.hand[i] in s.hand;
    QueuedIsOwed(s.core, InboundMessage(s.hand[i].generation, s.hand[i].kind, "", serialized, s.feed.nextStamp));
  }

  lemma {:induction false} QueuedIsOwed(c: Core, m: InboundMessage)
    ensures var d := Notify(c, m, true);
      d.queued == c.queued + 1 ==> d.inbound != [] && d.inbound[|d.inbound| - 1].kind == m.kind
  {
    hide DropOldestNotification, LastMatch;
    var fitting := Fitting(m, true);
    if fitting.Some? { LastMatchFinds(c.inbound, fitting.value); }
  }

  // ---- Deadlines ----

  /** An acknowledgement that begins to be awaited at some time is given up exactly by an expiry eight
      seconds later or after. */
  lemma {:induction false} AckWaits(s: Sys, now: int, later: int)
    requires Enabled(s, CommitAckStep(now)) && s.worker.ack.value !in s.core.acks
    ensures var t, id := CommitAckNext(s, now), s.worker.ack.value;
      && id in t.core.acks && t.worker == Idle(s.worker.generation)
      && (id in ExpireAcks(t.core, s.worker.generation, later).0 <==> later >= now + 8)
  {
  }

  /** A transient request is given up while it is still queued exactly eight seconds after it was accepted or
      later, and no other command ever is. */
  lemma {:induction false} RequestWaits(c: Core, kind: CommandKind, argument: string, requestId: string, now: int, ticket: nat, later: int)
    requires Enqueue(c, kind, argument, "", requestId, 0, now, ticket).0 && now + 8 != 0
    ensures var d := Enqueue(c, kind, argument, "", requestId, 0, now, ticket).1;
      d.commands != [] && var added := d.commands[|d.commands| - 1];
      added in TakeQueued(d, d.generation, Expiring(d.generation, later)).0 <==> kind.IsTransient() && later >= now + 8
  {
    hide Reserve;
    ReserveKeeps(c);
    var d := Enqueue(c, kind, argument, "", requestId, 0, now, ticket).1;
    KeepKeeps(d.commands, Expiring(d.generation, later));
  }
}
