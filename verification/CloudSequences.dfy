/** Sequence numbers over whole runs: no two confirmed renames ever carry the same sequence, so among
    the renames confirmed since a join the order of their acknowledgements does not matter. */
module CloudSequences {
  import opened Options
  import opened CloudQueue
  import opened CloudTickets
  import opened CloudRuns
  import opened CloudInbound
  import opened CloudLedger
  import opened CloudPlaces
  import opened CloudSafety
  import opened CloudRemembered

  /** A sequence other than zero belongs to the ticket that carries it. */
  predicate Known(sequences: map<nat, nat>, sequence: nat, ticket: nat) {
    sequence != 0 ==> ticket in sequences && sequences[ticket] == sequence
  }

  predicate CommandsKnown(commands: seq<Command>, sequences: map<nat, nat>) {
    forall command | command in commands :: Known(sequences, command.sequence, command.ticket)
  }

  predicate AcksKnown(acks: map<nat, PendingAck>, sequences: map<nat, nat>) {
    forall id: nat | id in acks :: Known(sequences, acks[id].commandSequence, acks[id].ticket)
  }

  predicate WorkerKnown(worker: Worker, generation: nat, sequences: map<nat, nat>) {
    worker.Sending? && worker.generation == generation ==>
      Known(sequences, worker.command.sequence, worker.command.ticket)
  }

  predicate Sequenced(s: Sys) {
    && CommandsKnown(s.core.commands, s.naming.sequences)
    && AcksKnown(s.core.acks, s.naming.sequences)
    && WorkerKnown(s.worker, s.core.generation, s.naming.sequences)
  }

  predicate Numbered(sequences: map<nat, nat>, nextTicket: nat, nextSequence: nat) {
    && nextSequence > 0
    && (forall a: nat | a in sequences :: a < nextTicket && 0 < sequences[a] < nextSequence)
    && (forall a: nat, b: nat | a in sequences && b in sequences && sequences[a] == sequences[b] :: a == b)
  }

  /** The operation has left the tables: its result is in hand or queued. */
  predicate Settled(s: Sys, ticket: nat) {
    ticket in HandTickets(s.hand, s.core.generation) || ticket in s.book.results
  }

  predicate ConfirmsSettled(s: Sys) {
    && (forall c | c in s.naming.confirms :: Settled(s, c.ticket) && Known(s.naming.sequences, c.sequence, c.ticket))
    && (forall c | c in s.naming.confirms :: c.sequence > 0)
    && (forall c, d | c in s.naming.confirms && d in s.naming.confirms && c.ticket == d.ticket :: c == d)
  }

  predicate RenamingSettled(s: Sys) {
    s.worker.Renaming? && s.worker.generation == s.core.generation ==>
      Settled(s, s.worker.answered) && Known(s.naming.sequences, s.worker.sequence, s.worker.answered) &&
      forall c | c in s.naming.confirms :: c.ticket != s.worker.answered
  }

  predicate SequencesHold(s: Sys) {
    Sequenced(s) && Numbered(s.naming.sequences, s.nextTicket, s.core.nextSequence) && ConfirmsSettled(s) &&
    RenamingSettled(s)
  }

  // ---- What most steps leave alone ----

  /** Nothing is renumbered or confirmed, and what was settled stays settled. */
  ghost predicate Carries(s: Sys, t: Sys) {
    && t.naming == s.naming && t.core.generation == s.core.generation && t.core.nextSequence == s.core.nextSequence
    && s.nextTicket <= t.nextTicket
    && (t.worker == s.worker || !t.worker.Renaming?)
    && (forall x: nat | Settled(s, x) :: Settled(t, x))
  }

  lemma {:induction false} CarriesHolds(s: Sys, t: Sys)
    requires SequencesHold(s) && Carries(s, t) && Sequenced(t)
    ensures SequencesHold(t)
  {
    hide Settled, Known, Sequenced;
  }

  lemma {:induction false} SameHandCarries(s: Sys, t: Sys)
    requires t.naming == s.naming && t.core.generation == s.core.generation && t.core.nextSequence == s.core.nextSequence
    requires s.nextTicket <= t.nextTicket && (t.worker == s.worker || !t.worker.Renaming?)
    requires t.book.results == s.book.results && s.hand <= t.hand
    ensures Carries(s, t)
  {
    hide HandTickets;
    assert t.hand == s.hand + t.hand[|s.hand|..];
    HandConcat(s.hand, t.hand[|s.hand|..], s.core.generation);
  }

  // ---- The steps ----

  function LastCommand(c: Core): Command
    requires c.commands != []
  {
    c.commands[|c.commands| - 1]
  }

  lemma {:induction false} EnqueueNumbers(c: Core, kind: CommandKind, argument: string, secondArgument: string,
    requestId: string, clientRevision: nat, now: int, ticket: nat)
    ensures var (ok, d) := Enqueue(c, kind, argument, secondArgument, requestId, clientRevision, now, ticket);
      ok ==> d.nextSequence == c.nextSequence + 1 && d.commands != [] && LastCommand(d).sequence == c.nextSequence
  {
    hide Reserve;
    ReserveKeeps(c);
  }

  /** An accepted command takes the next sequence. */
  lemma {:induction false} NewCommandKnown(s: Sys, t: Sys)
    requires SequencesHold(s)
    requires |t.core.commands| == |s.core.commands| + 1
    requires t.core.commands == s.core.commands + [t.core.commands[|s.core.commands|]]
    requires t.core.commands[|s.core.commands|].ticket == s.nextTicket
    requires t.core.commands[|s.core.commands|].sequence == s.core.nextSequence
    requires t.naming.sequences == s.naming.sequences[s.nextTicket := s.core.nextSequence]
    requires t.nextTicket == s.nextTicket + 1 && t.core.nextSequence == s.core.nextSequence + 1
    requires t.core.acks == s.core.acks && t.worker == s.worker && t.core.generation == s.core.generation
    ensures Sequenced(t) && Numbered(t.naming.sequences, t.nextTicket, t.core.nextSequence)
    ensures forall sequence, ticket | Known(s.naming.sequences, sequence, ticket) ::
      Known(t.naming.sequences, sequence, ticket)
  {
  }

  lemma {:induction false} IssueHolds(s: Sys, t: Sys)
    requires SequencesHold(s)
    requires Sequenced(t) && Numbered(t.naming.sequences, t.nextTicket, t.core.nextSequence)
    requires forall sequence, ticket | Known(s.naming.sequences, sequence, ticket) ::
      Known(t.naming.sequences, sequence, ticket)
    requires t.naming.confirms == s.naming.confirms || t.naming.confirms == []
    requires t.hand == s.hand && t.worker == s.worker && t.book == s.book && t.core.generation == s.core.generation
    ensures SequencesHold(t)
  {
    hide HandTickets, Known, Sequenced, Numbered;
  }

  lemma {:induction false} AcceptedHolds(s: Sys, t: Sys, kind: CommandKind)
    requires SequencesHold(s) && Admits(s.core, t.core, kind, s.nextTicket)
    requires t.core.commands[|t.core.commands| - 1].sequence == s.core.nextSequence
    requires t.naming.sequences == s.naming.sequences[s.nextTicket := s.core.nextSequence]
    requires t.nextTicket == s.nextTicket + 1 && t.core.nextSequence == s.core.nextSequence + 1
    requires t.core.acks == s.core.acks && t.worker == s.worker && t.core.generation == s.core.generation
    requires t.naming.confirms == s.naming.confirms || t.naming.confirms == []
    requires t.hand == s.hand && t.book == s.book
    ensures SequencesHold(t)
  {
    hide SequencesHold, Sequenced, Numbered, Known;
    NewCommandKnown(s, t);
    IssueHolds(s, t);
  }

  lemma {:induction false} StillHolds(s: Sys, t: Sys)
    requires SequencesHold(s)
    requires t.naming == s.naming && t.core.generation == s.core.generation && t.core.nextSequence == s.core.nextSequence
    requires s.nextTicket <= t.nextTicket && t.worker == s.worker && t.book.results == s.book.results
    requires s.hand <= t.hand && t.core.commands == s.core.commands && t.core.acks == s.core.acks
    ensures SequencesHold(t)
  {
    hide Carries, Known, Settled, Numbered;
    SameHandCarries(s, t);
    CarriesHolds(s, t);
  }

  lemma {:induction false} EnqueueSequences(s: Sys, kind: CommandKind, argument: string, secondArgument: string,
    requestId: string, clientRevision: nat, now: int)
    requires SequencesHold(s)
    ensures SequencesHold(EnqueueNext(s, kind, argument, secondArgument, requestId, clientRevision, now))
  {
    hide Enqueue, SequencesHold, Admits;
    EnqueueEffect(s.core, kind, argument, secondArgument, requestId, clientRevision, now, s.nextTicket);
    EnqueueNumbers(s.core, kind, argument, secondArgument, requestId, clientRevision, now, s.nextTicket);
    var t := EnqueueNext(s, kind, argument, secondArgument, requestId, clientRevision, now);
    if t.nextTicket == s.nextTicket { StillHolds(s, t); }
    else { AcceptedHolds(s, t, kind); }
  }

  lemma {:induction false} JoinRoomSequences(s: Sys, roomId: string, name: string, now: int)
    requires SequencesHold(s)
    ensures SequencesHold(JoinRoomNext(s, roomId, name, now))
  {
    hide Enqueue, SequencesHold, Admits;
    EnqueueEffect(s.core, JoinRoom, roomId, name, "", 0, now, s.nextTicket);
    EnqueueNumbers(s.core, JoinRoom, roomId, name, "", 0, now, s.nextTicket);
    var t := JoinRoomNext(s, roomId, name, now);
    if t.nextTicket == s.nextTicket { StillHolds(s, t); }
    else {
      AdmitsSame(s.core, Enqueue(s.core, JoinRoom, roomId, name, "", 0, now, s.nextTicket).1, t.core, JoinRoom, s.nextTicket);
      AcceptedHolds(s, t, JoinRoom);
    }
  }

  lemma {:induction false} LeaveRoomSequences(s: Sys, now: int)
    requires SequencesHold(s)
    ensures SequencesHold(LeaveRoomNext(s, now))
  {
    hide Enqueue, SequencesHold, Admits;
    EnqueueEffect(s.core, LeaveRoom, "", "", "", 0, now, s.nextTicket);
    EnqueueNumbers(s.core, LeaveRoom, "", "", "", 0, now, s.nextTicket);
    var t := LeaveRoomNext(s, now);
    if t.nextTicket == s.nextTicket { StillHolds(s, t); }
    else {
      AdmitsSame(s.core, Enqueue(s.core, LeaveRoom, "", "", "", 0, now, s.nextTicket).1, t.core, LeaveRoom, s.nextTicket);
      AcceptedHolds(s, t, LeaveRoom);
    }
  }

  lemma {:induction false} UploadSequences(s: Sys, generation: nat, clientRevision: nat, jsonText: string)
    requires SequencesHold(s)
    ensures SequencesHold(UploadNext(s, generation, clientRevision, jsonText))
    ensures SequencesHold(UploadRejectedNext(s, generation))
  {
    hide Reserve, SequencesHold;
    ReserveKeeps(s.core);
    StillHolds(s, UploadNext(s, generation, clientRevision, jsonText));
    StillHolds(s, UploadRejectedNext(s, generation));
  }

  lemma {:induction false} CancelSequences(s: Sys, requestId: string)
    requires SequencesHold(s)
    ensures SequencesHold(CancelNext(s, requestId))
  {
    hide KeepCommands, CommandTickets, AckTickets, CancelledAcks, Known, Settled, Numbered, Carries;
    KeepKeeps(s.core.commands, NotCancelled(requestId));
    SameHandCarries(s, CancelNext(s, requestId));
    CarriesHolds(s, CancelNext(s, requestId));
  }

  lemma {:induction false} DeliverSettles(s: Sys, i: nat, serialized: string, x: nat)
    requires Inv(s) && i < |s.hand| && Settled(s, x)
    ensures Settled(DeliverNext(s, i, serialized), x)
  {
    hide HandTickets, Notify, InboundHolds, Held, Conserved;
    assert s.hand[i] in s.hand;
    HandWithout(s.hand, i, s.core.generation);
    NotifyTouches(s.core, InboundMessage(s.hand[i].generation, s.hand[i].kind, "", serialized, s.feed.nextStamp), true);
    if s.hand[i].generation == s.core.generation {
      HandIsCovered(s, i);
      DeliverCases(s, i, serialized);
    }
  }

  lemma {:induction false} DeliverSequences(s: Sys, i: nat, serialized: string)
    requires Inv(s) && SequencesHold(s) && i < |s.hand|
    ensures SequencesHold(DeliverNext(s, i, serialized))
  {
    hide Settled, Notify, Inv, Known, Numbered;
    var t := DeliverNext(s, i, serialized);
    NotifyTouches(s.core, InboundMessage(s.hand[i].generation, s.hand[i].kind, "", serialized, s.feed.nextStamp), true);
    forall x: nat | Settled(s, x) ensures Settled(t, x) { DeliverSettles(s, i, serialized, x); }
    CarriesHolds(s, t);
  }

  lemma {:induction false} OtherSequences(s: Sys, m: InboundMessage)
    requires SequencesHold(s)
    ensures SequencesHold(NotifyNext(s, m)) && SequencesHold(DispatchNext(s))
    ensures SequencesHold(s.(core := StopBegin(s.core)))
    ensures s.worker.Idle? ==> SequencesHold(s.(core := MarkJoinPending(s.core, s.worker.generation)))
  {
    hide SequencesHold, Notify;
    NotifyTouches(s.core, m, false);
    StillHolds(s, NotifyNext(s, m));
    StillHolds(s, DispatchNext(s));
    StillHolds(s, s.(core := StopBegin(s.core)));
    if s.worker.Idle? { StillHolds(s, s.(core := MarkJoinPending(s.core, s.worker.generation))); }
  }

  lemma {:induction false} SupersedeSequences(s: Sys, core: Core)
    requires SequencesHold(s) && Located(s) && s.core.generation < core.generation
    requires core.commands == [] && core.acks == map[] && core.nextSequence == s.core.nextSequence
    ensures SequencesHold(Supersede(s, core))
  {
    hide Held, HandTickets, Known, Numbered, CommandsLocated, AcksLocated, HandLocated, TablesBounded;
  }

  /** A command of the queue or of the worker, or one without a sequence. */
  predicate Familiar(s: Sys, command: Command) {
    command in s.core.commands || command.sequence == 0 ||
    (s.worker.Sending? && s.worker.generation == s.core.generation && command == s.worker.command)
  }

  /** Steps that only take commands or acknowledgements out, or hold on to what the worker has. */
  lemma {:induction false} FewerHolds(s: Sys, t: Sys)
    requires SequencesHold(s)
    requires t.naming == s.naming && t.core.generation == s.core.generation && t.core.nextSequence == s.core.nextSequence
    requires s.nextTicket <= t.nextTicket && t.book.results == s.book.results && s.hand <= t.hand
    requires t.worker == s.worker || !t.worker.Renaming?
    requires forall command | command in t.core.commands :: Familiar(s, command)
    requires forall id: nat | id in t.core.acks ::
      (id in s.core.acks && t.core.acks[id] == s.core.acks[id]) ||
      Known(s.naming.sequences, t.core.acks[id].commandSequence, t.core.acks[id].ticket)
    requires t.worker.Sending? && t.worker.generation == t.core.generation ==> Familiar(s, t.worker.command)
    ensures SequencesHold(t)
  {
    hide Carries, Settled, Numbered;
    SameHandCarries(s, t);
    CarriesHolds(s, t);
  }

  lemma {:induction false} PopSequences(s: Sys)
    requires SequencesHold(s) && s.worker.Idle?
    ensures SequencesHold(PopRegistrationNext(s))
  {
    hide SequencesHold, FirstRegistration, Known;
    FirstRegistrationFinds(s.core.commands, s.worker.generation);
    FewerHolds(s, PopRegistrationNext(s));
  }

  lemma {:induction false} TakeSequences(s: Sys)
    requires SequencesHold(s) && s.worker.Idle?
    ensures SequencesHold(TakeNext(s))
  {
    hide SequencesHold, SkipStale, PoppedStale, CommandTickets, Known;
    var rest := SkipStale(s.core.commands, s.worker.generation);
    SkipIsSuffix(s.core.commands, s.worker.generation);
    assert forall command | command in rest :: command in s.core.commands;
    if rest != [] { assert rest[0] in rest && forall command | command in rest[1..] :: command in rest; }
    FewerHolds(s, TakeNext(s));
  }

  lemma {:induction false} BusySequences(s: Sys, kind: MessageType)
    requires SequencesHold(s)
    ensures SequencesHold(LoseWorker(s))
    ensures s.worker.Ticket().Some? ==> SequencesHold(OweWorker(s, kind))
    ensures s.worker.Sending? || s.worker.Uploading? ==> SequencesHold(AllocateAckNext(s))
    ensures s.worker.Idle? ==> SequencesHold(TakeSnapshotNext(s))
    ensures s.worker.Idle? ==> SequencesHold(s.(worker := Idle(s.core.generation)))
  {
    hide SequencesHold, WorkerTickets, Known;
    FewerHolds(s, LoseWorker(s));
    if s.worker.Ticket().Some? { FewerHolds(s, OweWorker(s, kind)); }
    if s.worker.Sending? || s.worker.Uploading? { FewerHolds(s, AllocateAckNext(s)); }
    if s.worker.Idle? {
      FewerHolds(s, TakeSnapshotNext(s));
      FewerHolds(s, s.(worker := Idle(s.core.generation)));
    }
  }

  lemma {:induction false} FailSequences(s: Sys)
    requires SequencesHold(s) && WorkerLocated(s.core, s.worker)
    ensures s.worker.Sending? ==> SequencesHold(SendFailNext(s))
    ensures s.worker.Uploading? ==> SequencesHold(SnapshotFailNext(s))
  {
    hide SequencesHold, WorkerTickets, Known;
    if s.worker.Sending? { FewerHolds(s, SendFailNext(s)); }
    if s.worker.Uploading? { FewerHolds(s, SnapshotFailNext(s)); }
  }

  lemma {:induction false} SendingKnown(s: Sys)
    requires SequencesHold(s) && s.worker.Sending? && s.worker.generation == s.core.generation
    ensures Known(s.naming.sequences, s.worker.command.sequence, s.worker.command.ticket)
  {
    hide Known, Settled, Numbered;
  }

  lemma {:induction false} CommitSequences(s: Sys, now: int)
    requires SequencesHold(s)
    ensures Enabled(s, CommitAckStep(now)) ==> SequencesHold(CommitAckNext(s, now))
    ensures Enabled(s, CommitSnapshotStep(now)) ==> SequencesHold(CommitSnapshotNext(s, now))
  {
    hide SequencesHold;
    if Enabled(s, CommitAckStep(now)) {
      SendingKnown(s);
      FewerHolds(s, CommitAckNext(s, now));
    }
    if Enabled(s, CommitSnapshotStep(now)) { FewerHolds(s, CommitSnapshotNext(s, now)); }
  }

  lemma {:induction false} TablesSequences(s: Sys, now: int, selected: Command -> bool)
    requires SequencesHold(s) && s.worker.Idle?
    ensures SequencesHold(ExpireAcksNext(s, now)) && SequencesHold(FailAcksNext(s)) && SequencesHold(ClearAcksNext(s))
    ensures SequencesHold(TakeQueuedNext(s, selected))
  {
    hide SequencesHold, Known, AcksOwed, AckTickets, CommandsOwed, KeepCommands;
    FewerHolds(s, ExpireAcksNext(s, now));
    FewerHolds(s, FailAcksNext(s));
    FewerHolds(s, ClearAcksNext(s));
    KeepKeeps(s.core.commands, command => !selected(command));
    FewerHolds(s, TakeQueuedNext(s, selected));
  }

  lemma {:induction false} PrepareSequences(s: Sys)
    requires SequencesHold(s) && s.worker.Idle?
    ensures SequencesHold(PrepareJoinNext(s))
  {
    hide SequencesHold, Known, Reserve, HasJoinCommandOrAck;
    ReserveKeeps(s.core);
    FewerHolds(s, PrepareJoinNext(s));
  }

  /** A rename that is still unacknowledged has not been answered before. */
  lemma {:induction false} PendingIsUnsettled(s: Sys, id: nat)
    requires Inv(s) && id in s.core.acks
    ensures !Settled(s, s.core.acks[id].ticket)
  {
    hide CommandTickets, LatestTickets, AckTickets, HandTickets, WorkerTickets, InboundHolds, Balanced;
    var t := s.core.acks[id].ticket;
    AckRemoved(s.core.acks, id, s.core.nextAckId);
    assert AckTickets(s.core.acks, s.core.nextAckId)[t] >= 1;
    assert Accounted(s)[t] <= 1;
    assert multiset(s.book.results)[t] == 0;
    assert t !in multiset(s.book.results);
  }

  lemma {:induction false} HandleAckSequences(s: Sys, id: nat, confirmed: Option<string>)
    requires Inv(s) && SequencesHold(s) && s.worker.Idle?
    ensures SequencesHold(HandleAckNext(s, id, confirmed))
  {
    hide SequencesHold, Inv, Settled, Known;
    var t := HandleAckNext(s, id, confirmed);
    if !t.worker.Renaming? {
      FewerHolds(s, t);
    } else {
      var u := t.(worker := s.worker);
      FewerHolds(s, u);
      PendingIsUnsettled(s, id);
      NowRenaming(s, t, id);
    }
  }

  lemma {:induction false} NowRenaming(s: Sys, t: Sys, id: nat)
    requires SequencesHold(s) && s.worker.Idle? && SequencesHold(t.(worker := s.worker))
    requires id in s.core.acks && !Settled(s, s.core.acks[id].ticket) && t.naming == s.naming
    requires t.core.generation == s.core.generation == t.worker.generation
    requires t.worker.Renaming? && t.worker.answered == s.core.acks[id].ticket
    requires t.worker.sequence == s.core.acks[id].commandSequence
    requires exists kind :: t.hand == s.hand + [Owed(s.core.generation, kind, s.core.acks[id].ticket)]
    ensures SequencesHold(t)
  {
    hide HandTickets, Known, Numbered;
    var kind :| t.hand == s.hand + [Owed(s.core.generation, kind, s.core.acks[id].ticket)];
    HandGains(s.hand, Owed(s.core.generation, kind, s.core.acks[id].ticket), s.core.generation);
    assert Settled(t, t.worker.answered);
    assert Known(s.naming.sequences, s.core.acks[id].commandSequence, s.core.acks[id].ticket);
  }

  lemma {:induction false} CommitRenameSequences(s: Sys)
    requires SequencesHold(s) && s.worker.Renaming?
    ensures SequencesHold(CommitRenameNext(s))
  {
    hide HandTickets, Known, Numbered;
  }

  lemma {:induction false} UserStepSequences(s: Sys, step: Step)
    requires Inv(s) && SequencesHold(s) && Enabled(s, step) && (IsUserStep(step) || Supersedes(step))
    ensures SequencesHold(Next(s, step))
  {
    hide EnqueueNext, JoinRoomNext, LeaveRoomNext, UploadRejectedNext, UploadNext, CancelNext, DeliverNext, NotifyNext,
      DispatchNext, Supersede, SequencesHold, InboundHolds, CommandsLocated, AcksLocated, WorkerLocated, HandLocated,
      TablesBounded, Balanced, Conserved;
    match step
    case EnqueueStep(kind, argument, secondArgument, requestId, clientRevision, now) =>
      EnqueueSequences(s, kind, argument, secondArgument, requestId, clientRevision, now);
    case JoinRoomStep(roomId, name, now) => JoinRoomSequences(s, roomId, name, now);
    case LeaveRoomStep(now) => LeaveRoomSequences(s, now);
    case UploadRejectedStep(generation) => UploadSequences(s, generation, 0, "");
    case UploadStep(generation, clientRevision, jsonText) => UploadSequences(s, generation, clientRevision, jsonText);
    case CancelStep(requestId) => CancelSequences(s, requestId);
    case StopBeginStep => OtherSequences(s, InboundMessage(0, CloudError, "", "", 0));
    case DispatchStep => OtherSequences(s, InboundMessage(0, CloudError, "", "", 0));
    case DeliverStep(i, serialized) => DeliverSequences(s, i, serialized);
    case NotifyStep(generation, kind, key, serialized) =>
      OtherSequences(s, InboundMessage(generation, kind, key, serialized, s.feed.nextStamp));
    case ConfigureStep(_, _) => SupersedeSequences(s, Configure(s.core, step.serverValid, step.credentialsValid));
    case StopEndStep => SupersedeSequences(s, StopEnd(s.core));
  }

  lemma {:induction false} WorkerStepSequences(s: Sys, step: Step)
    requires Inv(s) && SequencesHold(s) && Enabled(s, step) && IsWorkerStep(step)
    ensures SequencesHold(Next(s, step))
  {
    hide PopRegistrationNext, OweWorker, LoseWorker, TakeNext, AllocateAckNext, CommitAckNext, SendFailNext,
      SequencesHold, InboundHolds, CommandsLocated, AcksLocated, WorkerLocated, HandLocated, TablesBounded, Balanced,
      Conserved;
    match step
    case ObserveStep => BusySequences(s, CloudError);
    case PopRegistrationStep => PopSequences(s);
    case RegisterResultStep(registered) =>
      BusySequences(s, if registered then DeviceRegistered else DeviceRegistrationError);
    case RegisterSilentStep(_) => BusySequences(s, CloudError);
    case TakeStep => TakeSequences(s);
    case AbortDropStep => BusySequences(s, CloudError);
    case AllocateAckStep => BusySequences(s, CloudError);
    case AckTableFullStep => BusySequences(s, CloudError);
    case CommitAckStep(now) => CommitSequences(s, now);
    case SendFailStep => FailSequences(s);
  }

  lemma {:induction false} TableStepSequences(s: Sys, step: Step)
    requires Inv(s) && SequencesHold(s) && Enabled(s, step)
    requires !IsUserStep(step) && !IsWorkerStep(step) && !Supersedes(step)
    ensures SequencesHold(Next(s, step))
  {
    hide OweWorker, TakeSnapshotNext, SnapshotFailNext, CommitSnapshotNext, HandleAckNext, PrepareJoinNext,
      CommitRenameNext, ExpireAcksNext, FailAcksNext, TakeQueuedNext, ClearAcksNext, SequencesHold, InboundHolds,
      CommandsLocated, AcksLocated, WorkerLocated, HandLocated, TablesBounded, Balanced, Conserved;
    match step
    case TakeSnapshotStep => BusySequences(s, CloudError);
    case SnapshotRejectedStep => BusySequences(s, SnapshotUploadResult);
    case SnapshotFailStep => FailSequences(s);
    case CommitSnapshotStep(now) => CommitSequences(s, now);
    case HandleAckStep(id, confirmed) => HandleAckSequences(s, id, confirmed);
    case CommitRenameStep => CommitRenameSequences(s);
    case PrepareJoinStep => PrepareSequences(s);
    case ExpireAcksStep(now) => TablesSequences(s, now, Failing(0));
    case FailAcksStep => TablesSequences(s, 0, Failing(0));
    case ExpireQueuedStep(now) => TablesSequences(s, now, Expiring(s.worker.generation, now));
    case FailQueuedStep => TablesSequences(s, 0, Failing(s.worker.generation));
    case ClearAcksStep => TablesSequences(s, 0, Failing(0));
    case MarkJoinStep => OtherSequences(s, InboundMessage(0, CloudError, "", "", 0));
  }

  lemma {:induction false} StepKeepsSequences(s: Sys, step: Step)
    requires Inv(s) && SequencesHold(s) && Enabled(s, step)
    ensures SequencesHold(Next(s, step))
  {
    hide SequencesHold, Inv, Enabled, Next;
    if IsUserStep(step) || Supersedes(step) { UserStepSequences(s, step); }
    else if IsWorkerStep(step) { WorkerStepSequences(s, step); }
    else { TableStepSequences(s, step); }
  }

  lemma {:induction false} RunKeepsSequences(s: Sys, steps: seq<Step>)
    requires Inv(s) && SequencesHold(s) && CanRun(s, steps)
    ensures SequencesHold(After(s, steps))
    decreases |steps|
  {
    hide Inv, SequencesHold, Next, Enabled;
    if steps != [] {
      StepKeepsSequences(s, steps[0]);
      StepKeepsInvariant(s, steps[0]);
      RunKeepsSequences(Next(s, steps[0]), steps[1..]);
    }
  }

  lemma {:induction false} ReachableSequences(s: Sys)
    requires Reachable(s)
    ensures SequencesHold(s)
  {
    hide Inv;
    InitialInvariant();
    var steps :| CanRun(INITIAL, steps) && After(INITIAL, steps) == s;
    RunKeepsSequences(INITIAL, steps);
  }

  // ---- The promises ----

  lemma {:induction false} ConfirmsAreDistinct(s: Sys)
    requires SequencesHold(s)
    ensures DistinctSequences(s.naming.confirms)
  {
    hide Settled, Sequenced;
    forall c, d | c in s.naming.confirms && d in s.naming.confirms && c.sequence == d.sequence ensures c == d {
      assert Known(s.naming.sequences, c.sequence, c.ticket) && Known(s.naming.sequences, d.sequence, d.ticket);
    }
  }

  /** The remembered name is the one given by the rename with the highest sequence among those confirmed
      since the last JoinRoom, or the name of that join; these confirmations in any order leave the same. */
  lemma {:induction false} RememberedName(s: Sys, reordered: seq<Confirmation>)
    requires Reachable(s) && s.core.desired.Some?
    requires forall c :: c in reordered <==> c in s.naming.confirms
    ensures var room := s.core.desired.value;
      (room.confirmedRenameSequence, room.broadcasterName) == Confirmed(s.naming.joined, s.naming.confirms) &&
      Confirmed(s.naming.joined, reordered) == Confirmed(s.naming.joined, s.naming.confirms)
    ensures DistinctSequences(s.naming.confirms)
  {
    hide Reachable, SequencesHold, Confirmed, JoinHolds;
    ReachableRoom(s);
    ReachableSequences(s);
    ConfirmsAreDistinct(s);
    ConfirmedIgnoresOrder(s.naming.joined, s.naming.confirms, reordered);
  }

  /** A join marked in flight has an acknowledgement pending, unless the client is being stopped. */
  lemma {:induction false} JoinInFlightIsPending(s: Sys)
    requires Reachable(s) && s.core.joinInFlight.Some? && !s.core.stopping
    ensures s.core.joinInFlight == Some(s.core.generation) && s.core.joinPending == s.core.joinInFlight
    ensures exists id: nat :: id in s.core.acks && s.core.acks[id].kind.JoinRoom?
  {
    hide Reachable, Confirmed, NameHolds;
    ReachableRoom(s);
    var id: nat :| IsJoinAck(s.core.acks, id);
  }

  /** A remembered join is prepared only when no join is queued or unacknowledged, with the
      remembered room and name; and no join is unacknowledged until it has been sent. */
  lemma {:induction false} RememberedJoinIsAlone(s: Sys)
    requires Reachable(s)
    ensures s.worker.Idle? && PrepareJoin(s.core, s.worker.generation, s.nextTicket).0.Ready? ==>
      var join := PrepareJoin(s.core, s.worker.generation, s.nextTicket).0.join;
      !HasJoinCommandOrAck(s.core, s.core.generation) && s.core.desired.Some? &&
      join.argument == s.core.desired.value.roomId &&
      join.secondArgument == Confirmed(s.naming.joined, s.naming.confirms).1
    ensures s.worker.Sending? && s.worker.remembered && s.worker.generation == s.core.generation ==>
      forall id: nat | id in s.core.acks :: !s.core.acks[id].kind.JoinRoom?
  {
    hide Reachable, Confirmed, Reserve;
    ReachableRoom(s);
    forall id: nat | id in s.core.acks && s.core.acks[id].kind.JoinRoom? ensures IsJoinAck(s.core.acks, id) {}
  }
}
