/** The cloud client as a state machine: the shared state, the worker between its critical
    sections, the results in hand, and a record of what became of every ticket. One step is
    one critical section; steps of different threads interleave freely. */
module CloudRuns {
  import opened Options
  import opened CloudQueue
  import opened CloudTickets

  /** What the worker holds, and the generation of the configuration it last copied. */
  datatype Worker =
    | Idle(generation: nat)
    | Sending(generation: nat, command: Command, ack: Option<nat>, remembered: bool)
    | Uploading(generation: nat, snapshot: PendingSnapshot, ack: Option<nat>)
    | Registering(generation: nat, command: Command)
    | Renaming(generation: nat, sequence: nat, name: string, answered: nat)
  {
    function Ticket(): Option<nat> {
      match this
      case Sending(_, command, _, _) => Some(command.ticket)
      case Registering(_, command) => Some(command.ticket)
      case Uploading(_, snapshot, _) => Some(snapshot.ticket)
      case _ => None
    }
  }

  /** Tickets no longer held: results queued, in order; cancelled or withdrawn requests;
      credits that no thread will ever use or free; and all that a new configuration discarded. */
  datatype Book = Book(results: seq<nat>, cancelled: multiset<nat>, lost: multiset<nat>, superseded: multiset<nat>)

  /** Arrivals and departures of the inbound queue. */
  datatype Feed = Feed(nextStamp: nat, dispatched: seq<nat>, newest: map<(MessageType, string), string>)

  datatype Confirmation = Confirmation(sequence: nat, name: string, ticket: nat)

  /** The name given by the last JoinRoom, the renames confirmed since, in order, and the sequence
      given to each ticket. */
  datatype Naming = Naming(joined: string, confirms: seq<Confirmation>, sequences: map<nat, nat>)

  datatype Sys = Sys(core: Core, worker: Worker, hand: seq<Owed>, nextTicket: nat, book: Book, feed: Feed,
    naming: Naming)

  datatype Step =
    | EnqueueStep(kind: CommandKind, argument: string, secondArgument: string, requestId: string,
        clientRevision: nat, now: int)
    | JoinRoomStep(roomId: string, name: string, now: int)
    | LeaveRoomStep(now: int)
    | UploadRejectedStep(generation: nat)
    | UploadStep(generation: nat, clientRevision: nat, jsonText: string)
    | CancelStep(requestId: string)
    | DispatchStep
    | ConfigureStep(serverValid: bool, credentialsValid: bool)
    | StopBeginStep
    | StopEndStep
    | ObserveStep
    | PopRegistrationStep
    | RegisterResultStep(registered: bool)
    | RegisterSilentStep(slotHeld: bool)
    | TakeStep
    | AbortDropStep
    | AllocateAckStep
    | AckTableFullStep
    | CommitAckStep(now: int)
    | SendFailStep
    | TakeSnapshotStep
    | SnapshotRejectedStep
    | SnapshotFailStep
    | CommitSnapshotStep(now: int)
    | HandleAckStep(id: nat, confirmed: Option<string>)
    | CommitRenameStep
    | ExpireAcksStep(now: int)
    | FailAcksStep
    | ExpireQueuedStep(now: int)
    | FailQueuedStep
    | ClearAcksStep
    | PrepareJoinStep
    | MarkJoinStep
    | DeliverStep(i: nat, serialized: string)
    | NotifyStep(generation: nat, messageType: MessageType, coalesceKey: string, serialized: string)

  const INITIAL := Sys(
    Core(0, 0, false, false, false, [], None, map[], 1, None, None, None, 1, [], 0, 0),
    Idle(0), [], 0, Book([], multiset{}, multiset{}, multiset{}), Feed(0, [], map[]), Naming("", [], map[]))

  // ---- Tickets ----

  function WorkerTickets(worker: Worker, generation: nat): multiset<nat> {
    if worker.Ticket().None? then multiset{} else One(worker.generation == generation, worker.Ticket().value)
  }

  /** The tickets of every operation of the current generation that still waits for its result. */
  function Held(s: Sys): multiset<nat> {
    CommandTickets(s.core.commands) + LatestTickets(s.core.latest) + AckTickets(s.core.acks, s.core.nextAckId) +
    HandTickets(s.hand, s.core.generation) + WorkerTickets(s.worker, s.core.generation)
  }

  function Accounted(s: Sys): multiset<nat> {
    Held(s) + multiset(s.book.results) + s.book.cancelled + s.book.lost + s.book.superseded
  }

  predicate Aborting(c: Core, generation: nat) { c.stopping || c.configGeneration != generation }

  /** The commands that the front-pop loop of a pass discards. */
  function PoppedStale(commands: seq<Command>, generation: nat): seq<Command> {
    commands[..|commands| - |SkipStale(commands, generation)|]
  }

  // ---- The steps ----

  predicate Enabled(s: Sys, step: Step) {
    match step
    case ConfigureStep(_, _) => !s.core.stopping
    case StopBeginStep => !s.core.stopping
    case StopEndStep => s.core.stopping && s.worker.Idle?
    case ObserveStep => s.worker.Idle? && s.core.configGeneration == s.core.generation && !s.core.stopping
    case RegisterResultStep(_) => s.worker.Registering?
    case RegisterSilentStep(slotHeld) =>
      s.worker.Registering? && (slotHeld || Aborting(s.core, s.worker.generation))
    case AbortDropStep =>
      s.worker.Sending? && s.worker.ack.None? && !s.worker.remembered && Aborting(s.core, s.worker.generation)
    case AllocateAckStep =>
      (s.worker.Sending? && s.worker.ack.None? && |s.core.acks| < MAX_PENDING_ACKS) ||
      (s.worker.Uploading? && s.worker.ack.None?)
    case AckTableFullStep =>
      s.worker.Sending? && s.worker.ack.None? && s.core.generation == s.worker.generation &&
      |s.core.acks| >= MAX_PENDING_ACKS
    case CommitAckStep(_) => s.worker.Sending? && s.worker.ack.Some? && s.core.generation == s.worker.generation
    case SendFailStep => s.worker.Sending?
    case SnapshotRejectedStep => s.worker.Uploading? && s.worker.ack.Some?
    case SnapshotFailStep => s.worker.Uploading?
    case CommitSnapshotStep(_) => s.worker.Uploading? && s.worker.ack.Some? && s.core.generation == s.worker.generation
    case CommitRenameStep => s.worker.Renaming?
    case ClearAcksStep => s.worker.Idle? && Aborting(s.core, s.worker.generation)
    case DeliverStep(i, _) => i < |s.hand|
    case NotifyStep(_, kind, _, _) => !kind.IsProtected()
    case EnqueueStep(kind, _, _, _, _, _) => !kind.JoinRoom? && !kind.LeaveRoom? && !kind.UploadSnapshot?
    case JoinRoomStep(_, _, _) => true
    case LeaveRoomStep(_) => true
    case UploadRejectedStep(_) => true
    case UploadStep(_, _, _) => true
    case CancelStep(_) => true
    case DispatchStep => true
    case _ => s.worker.Idle?
  }

  function Next(s: Sys, step: Step): Sys
    requires Enabled(s, step)
  {
    match step
    case EnqueueStep(kind, argument, secondArgument, requestId, clientRevision, now) =>
      EnqueueNext(s, kind, argument, secondArgument, requestId, clientRevision, now)
    case JoinRoomStep(roomId, name, now) => JoinRoomNext(s, roomId, name, now)
    case LeaveRoomStep(now) => LeaveRoomNext(s, now)
    case UploadRejectedStep(generation) => UploadRejectedNext(s, generation)
    case UploadStep(generation, clientRevision, jsonText) => UploadNext(s, generation, clientRevision, jsonText)
    case CancelStep(requestId) => CancelNext(s, requestId)
    case DispatchStep => DispatchNext(s)
    case ConfigureStep(serverValid, credentialsValid) =>
      Supersede(s, Configure(s.core, serverValid, credentialsValid))
    case StopBeginStep => s.(core := StopBegin(s.core))
    case StopEndStep => Supersede(s, StopEnd(s.core))
    case ObserveStep => s.(worker := Idle(s.core.generation))
    case PopRegistrationStep => PopRegistrationNext(s)
    case RegisterResultStep(registered) => RegisterResultNext(s, registered)
    case RegisterSilentStep(_) => LoseWorker(s)
    case TakeStep => TakeNext(s)
    case AbortDropStep => LoseWorker(s)
    case AllocateAckStep => AllocateAckNext(s)
    case AckTableFullStep => LoseWorker(s)
    case CommitAckStep(now) => CommitAckNext(s, now)
    case SendFailStep => SendFailNext(s)
    case TakeSnapshotStep => TakeSnapshotNext(s)
    case SnapshotRejectedStep => OweWorker(s, SnapshotUploadResult)
    case SnapshotFailStep => SnapshotFailNext(s)
    case CommitSnapshotStep(now) => CommitSnapshotNext(s, now)
    case HandleAckStep(id, confirmed) => HandleAckNext(s, id, confirmed)
    case CommitRenameStep => CommitRenameNext(s)
    case ExpireAcksStep(now) => ExpireAcksNext(s, now)
    case FailAcksStep => FailAcksNext(s)
    case ExpireQueuedStep(now) => TakeQueuedNext(s, Expiring(s.worker.generation, now))
    case FailQueuedStep => TakeQueuedNext(s, Failing(s.worker.generation))
    case ClearAcksStep => ClearAcksNext(s)
    case PrepareJoinStep => PrepareJoinNext(s)
    case MarkJoinStep => s.(core := MarkJoinPending(s.core, s.worker.generation))
    case DeliverStep(i, serialized) => DeliverNext(s, i, serialized)
    case NotifyStep(generation, kind, coalesceKey, serialized) =>
      NotifyNext(s, InboundMessage(generation, kind, coalesceKey, serialized, s.feed.nextStamp))
  }

  /** The outcome of an enqueue: an accepted command takes the next ticket and the next sequence. */
  function Issue(s: Sys, outcome: (bool, Core)): Sys {
    if !outcome.0 then s.(core := outcome.1)
    else s.(core := outcome.1, nextTicket := s.nextTicket + 1,
      naming := s.naming.(sequences := s.naming.sequences[s.nextTicket := s.core.nextSequence]))
  }

  function EnqueueNext(s: Sys, kind: CommandKind, argument: string, secondArgument: string, requestId: string,
    clientRevision: nat, now: int): Sys
  {
    Issue(s, Enqueue(s.core, kind, argument, secondArgument, requestId, clientRevision, now, s.nextTicket))
  }

  function LeaveRoomNext(s: Sys, now: int): Sys { Issue(s, LeaveTheRoom(s.core, now, s.nextTicket)) }

  function JoinRoomNext(s: Sys, roomId: string, name: string, now: int): Sys {
    var outcome := JoinTheRoom(s.core, roomId, name, now, s.nextTicket);
    var t := Issue(s, outcome);
    if outcome.0 then t.(naming := t.naming.(joined := name, confirms := [])) else t
  }

  /** A snapshot that cannot be encoded: a credit is reserved only to report that. */
  function UploadRejectedNext(s: Sys, generation: nat): Sys {
    if s.core.generation != generation then s
    else
      var (ok, core) := Reserve(s.core);
      if !ok then s.(core := core)
      else s.(core := core, nextTicket := s.nextTicket + 1,
        hand := s.hand + [Owed(generation, SnapshotUploadResult, s.nextTicket)])
  }

  /** The snapshot that the new one replaces is owed a cancellation. */
  function UploadNext(s: Sys, generation: nat, clientRevision: nat, jsonText: string): Sys {
    var (ok, replaced, core) := PutSnapshot(s.core, generation, clientRevision, jsonText, s.nextTicket);
    if !ok then s.(core := core)
    else s.(core := core, nextTicket := s.nextTicket + 1,
      hand := if replaced.None? then s.hand
        else s.hand + [Owed(replaced.value.generation, SnapshotUploadResult, replaced.value.ticket)])
  }

  function CancelNext(s: Sys, requestId: string): Sys {
    s.(core := CancelRequest(s.core, requestId), book := s.book.(cancelled := s.book.cancelled +
      CommandTickets(KeepCommands(s.core.commands, Cancelled(requestId))) +
      AckTickets(CancelledAcks(s.core.acks, requestId), s.core.nextAckId)))
  }

  function Cancelled(requestId: string): Command -> bool {
    (command: Command) => Cancels(command.kind, command.requestId, requestId)
  }

  function CancelledAcks(acks: map<nat, PendingAck>, requestId: string): map<nat, PendingAck> {
    map id | id in acks && Cancels(acks[id].kind, acks[id].requestId, requestId) :: acks[id]
  }

  function DispatchNext(s: Sys): Sys {
    var (m, core) := Dispatch(s.core);
    s.(core := core,
      feed := if m.None? then s.feed else s.feed.(dispatched := s.feed.dispatched + [m.value.stamp]))
  }

  /** A new configuration discards everything of the one before. */
  function Supersede(s: Sys, core: Core): Sys {
    s.(core := core,
      book := s.book.(lost := multiset{}, superseded := s.book.superseded + Held(s) + s.book.lost),
      feed := s.feed.(newest := map[]), naming := s.naming.(joined := "", confirms := []))
  }

  function PopRegistrationNext(s: Sys): Sys
    requires s.worker.Idle?
  {
    var (command, core) := PopRegistration(s.core, s.worker.generation);
    s.(core := core,
      worker := if command.None? then s.worker else Registering(s.worker.generation, command.value))
  }

  function RegisterResultNext(s: Sys, registered: bool): Sys
    requires s.worker.Registering?
  {
    OweWorker(s, if registered then DeviceRegistered else DeviceRegistrationError)
  }

  /** The worker is done with the operation it holds and owes its result. */
  function OweWorker(s: Sys, kind: MessageType): Sys
    requires s.worker.Ticket().Some?
  {
    s.(worker := Idle(s.worker.generation), hand := s.hand + [Owed(s.worker.generation, kind, s.worker.Ticket().value)])
  }

  /** The worker returns without a result and without freeing the credit. */
  function LoseWorker(s: Sys): Sys {
    s.(worker := Idle(s.worker.generation),
      book := s.book.(lost := s.book.lost + WorkerTickets(s.worker, s.core.generation)))
  }

  function TakeNext(s: Sys): Sys
    requires s.worker.Idle?
  {
    var (command, core) := TakeCommand(s.core, s.worker.generation);
    s.(core := core,
      worker := if command.None? then s.worker else Sending(s.worker.generation, command.value, None, false),
      book := s.book.(lost := s.book.lost + CommandTickets(PoppedStale(s.core.commands, s.worker.generation))))
  }

  function AllocateAckNext(s: Sys): Sys
    requires s.worker.Sending? || s.worker.Uploading?
  {
    var (id, core) := AllocateAck(s.core, s.worker.generation);
    s.(core := core, worker := s.worker.(ack := id))
  }

  function CommitAckNext(s: Sys, now: int): Sys
    requires s.worker.Sending? && s.worker.ack.Some?
  {
    s.(core := CommitAck(s.core, s.worker.generation, s.worker.ack.value, s.worker.command, now),
      worker := Idle(s.worker.generation))
  }

  function CommitSnapshotNext(s: Sys, now: int): Sys
    requires s.worker.Uploading? && s.worker.ack.Some?
  {
    s.(core := CommitSnapshotAck(s.core, s.worker.generation, s.worker.ack.value, s.worker.snapshot, now),
      worker := Idle(s.worker.generation))
  }

  function SendFailNext(s: Sys): Sys
    requires s.worker.Sending?
  {
    if s.worker.remembered then
      s.(core := ReleaseJoin(s.core, s.worker.command), worker := Idle(s.worker.generation),
        book := s.book.(cancelled := s.book.cancelled + WorkerTickets(s.worker, s.core.generation)))
    else
      s.(core := ReturnCommand(s.core, s.worker.generation, s.worker.command), worker := Idle(s.worker.generation))
  }

  function TakeSnapshotNext(s: Sys): Sys
    requires s.worker.Idle?
  {
    if |s.core.acks| >= MAX_PENDING_ACKS then s
    else
      var (snapshot, core) := TakeSnapshot(s.core, s.worker.generation);
      s.(core := core,
        worker := if snapshot.None? then s.worker else Uploading(s.worker.generation, snapshot.value, None))
  }

  function SnapshotFailNext(s: Sys): Sys
    requires s.worker.Uploading?
  {
    var (owed, core) := ReturnSnapshot(s.core, s.worker.generation, s.worker.snapshot);
    if owed then OweWorker(s.(core := core), SnapshotUploadResult)
    else s.(core := core, worker := Idle(s.worker.generation))
  }

  function HandleAckNext(s: Sys, id: nat, confirmed: Option<string>): Sys
    requires s.worker.Idle?
  {
    var (pending, core) := TakeAck(s.core, s.worker.generation, id);
    if pending.None? then s.(core := core)
    else s.(core := core,
      worker := if pending.value.kind.RenameRoom? && confirmed.Some?
        then Renaming(s.worker.generation, pending.value.commandSequence, confirmed.value, pending.value.ticket)
        else s.worker,
      hand := s.hand + [Owed(s.worker.generation, pending.value.kind.ResultType(), pending.value.ticket)])
  }

  /** A confirmation counts unless it names nothing, names too much, or has no sequence. */
  predicate Confirms(c: Core, generation: nat, sequence: nat, name: string) {
    sequence != 0 && name != "" && |name| <= MAX_NAME_BYTES && c.generation == generation && c.desired.Some? &&
    c.desired.value.generation == generation
  }

  function CommitRenameNext(s: Sys): Sys
    requires s.worker.Renaming?
  {
    var w := s.worker;
    s.(core := CommitRename(s.core, w.generation, w.sequence, w.name), worker := Idle(w.generation),
      naming := if Confirms(s.core, w.generation, w.sequence, w.name)
        then s.naming.(confirms := s.naming.confirms + [Confirmation(w.sequence, w.name, w.answered)])
        else s.naming)
  }

  function ExpireAcksNext(s: Sys, now: int): Sys
    requires s.worker.Idle?
  {
    var (expired, core) := ExpireAcks(s.core, s.worker.generation, now);
    s.(core := core, hand := s.hand + AcksOwed(expired, s.core.nextAckId, s.worker.generation))
  }

  function FailAcksNext(s: Sys): Sys
    requires s.worker.Idle?
  {
    var (failed, core) := FailAcks(s.core, s.worker.generation);
    s.(core := core, hand := s.hand + AcksOwed(failed, s.core.nextAckId, s.worker.generation))
  }

  function ClearAcksNext(s: Sys): Sys {
    s.(core := ClearAcks(s.core), book := s.book.(lost := s.book.lost + AckTickets(s.core.acks, s.core.nextAckId)))
  }

  function TakeQueuedNext(s: Sys, selected: Command -> bool): Sys
    requires s.worker.Idle?
  {
    var (taken, core) := TakeQueued(s.core, s.worker.generation, selected);
    s.(core := core, hand := s.hand + CommandsOwed(taken))
  }

  function PrepareJoinNext(s: Sys): Sys
    requires s.worker.Idle?
  {
    var (preparation, core) := PrepareJoin(s.core, s.worker.generation, s.nextTicket);
    if preparation.Ready? then
      s.(core := core, worker := Sending(s.worker.generation, preparation.join, None, true), nextTicket := s.nextTicket + 1)
    else s.(core := core)
  }

  /** Deliver a result in hand. A result that the queue refuses would be lost. */
  function DeliverNext(s: Sys, i: nat, serialized: string): Sys
    requires i < |s.hand|
  {
    var owed := s.hand[i];
    var core := Notify(s.core, InboundMessage(owed.generation, owed.kind, "", serialized, s.feed.nextStamp), true);
    var queued := core.queued == s.core.queued + 1;
    s.(core := core, hand := s.hand[..i] + s.hand[i + 1..],
      feed := s.feed.(nextStamp := s.feed.nextStamp + 1),
      book := if queued then s.book.(results := s.book.results + [owed.ticket])
        else s.book.(lost := s.book.lost + One(owed.generation == s.core.generation, owed.ticket)))
  }

  /** A notification that nobody is owed. */
  function NotifyNext(s: Sys, m: InboundMessage): Sys {
    s.(core := Notify(s.core, m, false),
      feed := s.feed.(nextStamp := s.feed.nextStamp + 1,
        newest := if m.generation == s.core.generation && Fitting(m, false).Some?
          then s.feed.newest[(m.kind, m.coalesceKey) := m.serialized] else s.feed.newest))
  }

  // ---- Runs ----

  ghost predicate CanRun(s: Sys, steps: seq<Step>)
    decreases |steps|
  {
    steps != [] ==> Enabled(s, steps[0]) && CanRun(Next(s, steps[0]), steps[1..])
  }

  ghost function After(s: Sys, steps: seq<Step>): Sys
    requires CanRun(s, steps)
    decreases |steps|
  {
    if steps == [] then s else After(Next(s, steps[0]), steps[1..])
  }

  ghost predicate Reachable(s: Sys) {
    exists steps :: CanRun(INITIAL, steps) && After(INITIAL, steps) == s
  }
}
