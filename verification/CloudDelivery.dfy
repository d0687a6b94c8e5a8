/** What is sent in which order, what a cancellation removes, and which notifications arrive, over whole runs. */
module CloudDelivery {
  import opened Options
  import opened CloudQueue
  import opened CloudTickets
  import opened CloudRuns
  import opened CloudInbound
  import opened CloudLedger
  import opened CloudPlaces
  import opened CloudSafety
  import opened CloudTheorems
  import opened CloudRemembered

  // ---- Commands go out in the order in which they were accepted ----

  predicate Ascending(commands: seq<Command>) {
    forall i, j | 0 <= i < j < |commands| :: commands[i].sequence < commands[j].sequence
  }

  predicate AllBelow(commands: seq<Command>, bound: nat) { forall c | c in commands :: c.sequence < bound }

  predicate AllAbove(commands: seq<Command>, bound: nat) { forall c | c in commands :: bound < c.sequence }

  /** The worker has taken this command from the queue under the present configuration. */
  predicate SendsQueued(s: Sys) { s.worker.Sending? && !s.worker.remembered && s.worker.generation == s.core.generation }

  /** The queue is in the order of acceptance, and what is being sent comes before all that waits. */
  predicate InSequence(s: Sys) {
    && Ascending(s.core.commands) && AllBelow(s.core.commands, s.core.nextSequence)
    && (SendsQueued(s) ==> AllAbove(s.core.commands, s.worker.command.sequence) && s.worker.command.sequence < s.core.nextSequence)
  }

  predicate SameQueue(s: Sys, t: Sys) {
    t.core.commands == s.core.commands && t.core.nextSequence == s.core.nextSequence &&
    (SendsQueued(t) ==> SendsQueued(s) && t.worker.command == s.worker.command)
  }

  lemma {:induction false} SameQueueInSequence(s: Sys, t: Sys)
    requires InSequence(s) && SameQueue(s, t)
    ensures InSequence(t)
  {
  }

  lemma {:induction false} KeptInSequence(commands: seq<Command>, keep: Command -> bool)
    requires Ascending(commands)
    ensures Ascending(KeepCommands(commands, keep))
  {
    if commands != [] {
      KeptInSequence(commands[1..], keep);
      KeepKeeps(commands[1..], keep);
      if keep(commands[0]) {
        var rest := KeepCommands(commands[1..], keep);
        forall j | 0 <= j < |rest| ensures commands[0].sequence < rest[j].sequence {
          assert rest[j] in rest;
          var i :| 0 <= i < |commands[1..]| && commands[1..][i] == rest[j];
          assert commands[i + 1] == rest[j];
        }
      }
    }
  }

  /** Fewer commands wait, in the same order, and the worker has let go of its own or keeps it. */
  lemma {:induction false} FewerInSequence(s: Sys, t: Sys)
    requires InSequence(s) && Ascending(t.core.commands) && (forall c | c in t.core.commands :: c in s.core.commands)
    requires t.core.nextSequence == s.core.nextSequence
    requires SendsQueued(t) ==> SendsQueued(s) && t.worker.command == s.worker.command
    ensures InSequence(t)
  {
    hide Ascending;
  }

  lemma {:induction false} EnqueueAppends(c: Core, kind: CommandKind, argument: string, secondArgument: string,
    requestId: string, clientRevision: nat, now: int, ticket: nat)
    ensures var (ok, d) := Enqueue(c, kind, argument, secondArgument, requestId, clientRevision, now, ticket);
      ok ==> exists added :: (d.commands == c.commands + [added] && added.sequence == c.nextSequence && d.nextSequence == c.nextSequence + 1)
  {
    hide Reserve;
    ReserveKeeps(c);
  }

  lemma {:induction false} OneMoreInSequence(s: Sys, t: Sys, added: Command)
    requires InSequence(s) && t.core.commands == s.core.commands + [added] && added.sequence == s.core.nextSequence
    requires t.core.nextSequence == s.core.nextSequence + 1 && t.worker == s.worker && t.core.generation == s.core.generation
    ensures InSequence(t)
  {
    forall i, j | 0 <= i < j < |t.core.commands| ensures t.core.commands[i].sequence < t.core.commands[j].sequence {
      if j == |s.core.commands| { assert s.core.commands[i] in s.core.commands; }
    }
  }

  lemma {:induction false} IssueInSequence(s: Sys, kind: CommandKind, argument: string, secondArgument: string,
    requestId: string, clientRevision: nat, now: int, t: Sys)
    requires InSequence(s) && t.worker == s.worker
    requires var d := Enqueue(s.core, kind, argument, secondArgument, requestId, clientRevision, now, s.nextTicket).1;
      t.core.commands == d.commands && t.core.nextSequence == d.nextSequence && t.core.generation == d.generation
    ensures InSequence(t)
  {
    hide Enqueue, InSequence;
    EnqueueEffect(s.core, kind, argument, secondArgument, requestId, clientRevision, now, s.nextTicket);
    EnqueueAppends(s.core, kind, argument, secondArgument, requestId, clientRevision, now, s.nextTicket);
    var (ok, d) := Enqueue(s.core, kind, argument, secondArgument, requestId, clientRevision, now, s.nextTicket);
    if ok {
      var added :| d.commands == s.core.commands + [added] && added.sequence == s.core.nextSequence && d.nextSequence == s.core.nextSequence + 1;
      OneMoreInSequence(s, t, added);
    } else {
      SameQueueInSequence(s, t);
    }
  }

  lemma {:induction false} IssuesInSequence(s: Sys, kind: CommandKind, argument: string, secondArgument: string,
    requestId: string, clientRevision: nat, now: int)
    requires InSequence(s)
    ensures InSequence(EnqueueNext(s, kind, argument, secondArgument, requestId, clientRevision, now))
    ensures InSequence(JoinRoomNext(s, argument, secondArgument, now)) && InSequence(LeaveRoomNext(s, now))
  {
    hide Enqueue, InSequence;
    IssueInSequence(s, kind, argument, secondArgument, requestId, clientRevision, now,
      EnqueueNext(s, kind, argument, secondArgument, requestId, clientRevision, now));
    IssueInSequence(s, JoinRoom, argument, secondArgument, "", 0, now, JoinRoomNext(s, argument, secondArgument, now));
    IssueInSequence(s, LeaveRoom, "", "", "", 0, now, LeaveRoomNext(s, now));
  }

  lemma {:induction false} UploadsInSequence(s: Sys, generation: nat, clientRevision: nat, jsonText: string)
    requires InSequence(s)
    ensures InSequence(UploadNext(s, generation, clientRevision, jsonText)) && InSequence(UploadRejectedNext(s, generation))
  {
    hide Reserve, InSequence;
    ReserveKeeps(s.core);
    SameQueueInSequence(s, UploadNext(s, generation, clientRevision, jsonText));
    SameQueueInSequence(s, UploadRejectedNext(s, generation));
  }

  lemma {:induction false} AscendingOf(s: Sys)
    requires InSequence(s)
    ensures Ascending(s.core.commands)
  {
  }

  lemma {:induction false} CancelInSequence(s: Sys, requestId: string)
    requires InSequence(s)
    ensures InSequence(CancelNext(s, requestId))
  {
    hide InSequence, KeepCommands, AckTickets, CommandTickets, CancelledAcks, Ascending;
    AscendingOf(s);
    KeepKeeps(s.core.commands, NotCancelled(requestId));
    KeptInSequence(s.core.commands, NotCancelled(requestId));
    FewerInSequence(s, CancelNext(s, requestId));
  }

  lemma {:induction false} InboundInSequence(s: Sys, i: nat, serialized: string, m: InboundMessage)
    requires InSequence(s)
    ensures i < |s.hand| ==> InSequence(DeliverNext(s, i, serialized))
    ensures InSequence(NotifyNext(s, m)) && InSequence(DispatchNext(s)) && InSequence(s.(core := StopBegin(s.core)))
    ensures InSequence(s.(core := MarkJoinPending(s.core, s.worker.generation)))
  {
    hide InSequence, Notify;
    NotifyTouches(s.core, m, false);
    SameQueueInSequence(s, NotifyNext(s, m));
    SameQueueInSequence(s, DispatchNext(s));
    SameQueueInSequence(s, s.(core := StopBegin(s.core)));
    SameQueueInSequence(s, s.(core := MarkJoinPending(s.core, s.worker.generation)));
    if i < |s.hand| {
      NotifyTouches(s.core, InboundMessage(s.hand[i].generation, s.hand[i].kind, "", serialized, s.feed.nextStamp), true);
      SameQueueInSequence(s, DeliverNext(s, i, serialized));
    }
  }

  lemma {:induction false} SupersedeInSequence(s: Sys, core: Core)
    requires Located(s) && s.core.generation < core.generation && core.commands == []
    ensures InSequence(Supersede(s, core))
  {
    hide Held, CommandsLocated, AcksLocated, HandLocated, TablesBounded;
  }

  lemma {:induction false} SuffixInSequence(commands: seq<Command>, k: nat)
    requires Ascending(commands) && k <= |commands|
    ensures Ascending(commands[k..]) && forall c | c in commands[k..] :: c in commands
    ensures k < |commands| ==> AllAbove(commands[k + 1..], commands[k].sequence)
  {
    if k < |commands| {
      forall c | c in commands[k + 1..] ensures commands[k].sequence < c.sequence {
        var i :| 0 <= i < |commands[k + 1..]| && commands[k + 1..][i] == c;
        assert commands[k + 1 + i] == c;
      }
    }
  }

  lemma {:induction false} SkipIsRest(commands: seq<Command>, generation: nat) returns (k: nat)
    ensures k <= |commands| && SkipStale(commands, generation) == commands[k..]
  {
    k := 0;
    if commands != [] && commands[0].generation != generation {
      var n := SkipIsRest(commands[1..], generation);
      k := n + 1;
      assert commands[1..][n..] == commands[k..];
    }
  }

  lemma {:induction false} TakeInSequence(s: Sys)
    requires InSequence(s) && s.worker.Idle?
    ensures InSequence(TakeNext(s))
  {
    hide SkipStale, PoppedStale, CommandTickets, Ascending;
    var k := SkipIsRest(s.core.commands, s.worker.generation);
    var rest := s.core.commands[k..];
    SuffixInSequence(s.core.commands, k);
    if k < |s.core.commands| {
      SuffixInSequence(s.core.commands, k + 1);
      assert rest[1..] == s.core.commands[k + 1..] && rest[0] == s.core.commands[k];
      assert rest[0] in s.core.commands;
    }
  }

  lemma {:induction false} PopInSequence(s: Sys)
    requires InSequence(s) && s.worker.Idle?
    ensures InSequence(PopRegistrationNext(s))
  {
    hide FirstRegistration;
    FirstRegistrationFinds(s.core.commands, s.worker.generation);
  }

  lemma {:induction false} BusyInSequence(s: Sys, kind: MessageType)
    requires InSequence(s)
    ensures InSequence(LoseWorker(s))
    ensures s.worker.Ticket().Some? ==> InSequence(OweWorker(s, kind))
    ensures s.worker.Sending? || s.worker.Uploading? ==> InSequence(AllocateAckNext(s))
    ensures s.worker.Uploading? ==> InSequence(SnapshotFailNext(s))
    ensures s.worker.Idle? ==> InSequence(s.(worker := Idle(s.core.generation)))
  {
    hide InSequence, WorkerTickets;
    SameQueueInSequence(s, LoseWorker(s));
    if s.worker.Ticket().Some? { SameQueueInSequence(s, OweWorker(s, kind)); }
    if s.worker.Sending? || s.worker.Uploading? { SameQueueInSequence(s, AllocateAckNext(s)); }
    if s.worker.Uploading? { SameQueueInSequence(s, SnapshotFailNext(s)); }
    if s.worker.Idle? { SameQueueInSequence(s, s.(worker := Idle(s.core.generation))); }
  }

  lemma {:induction false} SendFailInSequence(s: Sys)
    requires InSequence(s) && s.worker.Sending?
    ensures InSequence(SendFailNext(s))
  {
    hide WorkerTickets;
    var t := SendFailNext(s);
    if !s.worker.remembered && s.worker.generation == s.core.generation && s.worker.command.reserved {
      forall i, j | 0 <= i < j < |t.core.commands| ensures t.core.commands[i].sequence < t.core.commands[j].sequence {
        assert t.core.commands[j] == s.core.commands[j - 1] && s.core.commands[j - 1] in s.core.commands;
        if i > 0 { assert t.core.commands[i] == s.core.commands[i - 1]; }
      }
    }
  }

  lemma {:induction false} CommitsInSequence(s: Sys, now: int)
    requires InSequence(s)
    ensures s.worker.Sending? && s.worker.ack.Some? ==> InSequence(CommitAckNext(s, now))
    ensures s.worker.Uploading? && s.worker.ack.Some? ==> InSequence(CommitSnapshotNext(s, now))
    ensures s.worker.Renaming? ==> InSequence(CommitRenameNext(s))
  {
    hide InSequence;
    if s.worker.Sending? && s.worker.ack.Some? { SameQueueInSequence(s, CommitAckNext(s, now)); }
    if s.worker.Uploading? && s.worker.ack.Some? { SameQueueInSequence(s, CommitSnapshotNext(s, now)); }
    if s.worker.Renaming? { SameQueueInSequence(s, CommitRenameNext(s)); }
  }

  lemma {:induction false} TablesInSequence(s: Sys, id: nat, confirmed: Option<string>, now: int)
    requires InSequence(s) && s.worker.Idle?
    ensures InSequence(HandleAckNext(s, id, confirmed)) && InSequence(ExpireAcksNext(s, now))
    ensures InSequence(FailAcksNext(s)) && InSequence(ClearAcksNext(s)) && InSequence(TakeSnapshotNext(s))
  {
    hide InSequence, AcksOwed, AckTickets;
    SameQueueInSequence(s, HandleAckNext(s, id, confirmed));
    SameQueueInSequence(s, ExpireAcksNext(s, now));
    SameQueueInSequence(s, FailAcksNext(s));
    SameQueueInSequence(s, ClearAcksNext(s));
    SameQueueInSequence(s, TakeSnapshotNext(s));
  }

  lemma {:induction false} QueuedInSequence(s: Sys, selected: Command -> bool)
    requires InSequence(s) && s.worker.Idle?
    ensures InSequence(TakeQueuedNext(s, selected))
  {
    hide InSequence, KeepCommands, CommandsOwed, Ascending;
    AscendingOf(s);
    KeepKeeps(s.core.commands, command => !selected(command));
    KeptInSequence(s.core.commands, command => !selected(command));
    FewerInSequence(s, TakeQueuedNext(s, selected));
  }

  lemma {:induction false} PrepareInSequence(s: Sys)
    requires InSequence(s) && s.worker.Idle?
    ensures InSequence(PrepareJoinNext(s))
  {
    hide InSequence, Reserve, HasJoinCommandOrAck;
    ReserveKeeps(s.core);
    SameQueueInSequence(s, PrepareJoinNext(s));
  }

  lemma {:induction false} UserStepInSequence(s: Sys, step: Step)
    requires InSequence(s) && Enabled(s, step) && IsUserStep(step)
    ensures InSequence(Next(s, step))
  {
    hide EnqueueNext, JoinRoomNext, LeaveRoomNext, UploadRejectedNext, UploadNext, CancelNext, DeliverNext, NotifyNext,
      DispatchNext, InSequence, StopBegin;
    match step
    case EnqueueStep(kind, argument, secondArgument, requestId, clientRevision, now) =>
      IssuesInSequence(s, kind, argument, secondArgument, requestId, clientRevision, now);
    case JoinRoomStep(roomId, name, now) => IssuesInSequence(s, JoinRoom, roomId, name, "", 0, now);
    case LeaveRoomStep(now) => IssuesInSequence(s, LeaveRoom, "", "", "", 0, now);
    case UploadRejectedStep(generation) => UploadsInSequence(s, generation, 0, "");
    case UploadStep(generation, clientRevision, jsonText) => UploadsInSequence(s, generation, clientRevision, jsonText);
    case CancelStep(requestId) => CancelInSequence(s, requestId);
    case StopBeginStep => InboundInSequence(s, 0, "", InboundMessage(0, CloudError, "", "", 0));
    case DispatchStep => InboundInSequence(s, 0, "", InboundMessage(0, CloudError, "", "", 0));
    case DeliverStep(i, serialized) => InboundInSequence(s, i, serialized, InboundMessage(0, CloudError, "", "", 0));
    case NotifyStep(generation, kind, key, serialized) =>
      InboundInSequence(s, 0, "", InboundMessage(generation, kind, key, serialized, s.feed.nextStamp));
  }

  lemma {:induction false} SupersedingInSequence(s: Sys, step: Step)
    requires Located(s) && Enabled(s, step) && Supersedes(step)
    ensures InSequence(Next(s, step))
  {
    hide Supersede, InSequence, CommandsLocated, AcksLocated, WorkerLocated, HandLocated, TablesBounded;
    match step
    case ConfigureStep(_, _) => SupersedeInSequence(s, Configure(s.core, step.serverValid, step.credentialsValid));
    case StopEndStep => SupersedeInSequence(s, StopEnd(s.core));
  }

  lemma {:induction false} WorkerStepInSequence(s: Sys, step: Step)
    requires InSequence(s) && Enabled(s, step) && IsWorkerStep(step)
    ensures InSequence(Next(s, step))
  {
    hide PopRegistrationNext, OweWorker, LoseWorker, TakeNext, AllocateAckNext, CommitAckNext, SendFailNext, InSequence;
    match step
    case ObserveStep => BusyInSequence(s, CloudError);
    case PopRegistrationStep => PopInSequence(s);
    case RegisterResultStep(registered) =>
      BusyInSequence(s, if registered then DeviceRegistered else DeviceRegistrationError);
    case RegisterSilentStep(_) => BusyInSequence(s, CloudError);
    case TakeStep => TakeInSequence(s);
    case AbortDropStep => BusyInSequence(s, CloudError);
    case AllocateAckStep => BusyInSequence(s, CloudError);
    case AckTableFullStep => BusyInSequence(s, CloudError);
    case CommitAckStep(now) => CommitsInSequence(s, now);
    case SendFailStep => SendFailInSequence(s);
  }

  lemma {:induction false} TableStepInSequence(s: Sys, step: Step)
    requires InSequence(s) && Enabled(s, step)
    requires !IsUserStep(step) && !IsWorkerStep(step) && !Supersedes(step)
    ensures InSequence(Next(s, step))
  {
    hide OweWorker, TakeSnapshotNext, SnapshotFailNext, CommitSnapshotNext, HandleAckNext, PrepareJoinNext,
      CommitRenameNext, ExpireAcksNext, FailAcksNext, TakeQueuedNext, ClearAcksNext, InSequence;
    match step
    case TakeSnapshotStep => TablesInSequence(s, 0, None, 0);
    case SnapshotRejectedStep => BusyInSequence(s, SnapshotUploadResult);
    case SnapshotFailStep => BusyInSequence(s, SnapshotUploadResult);
    case CommitSnapshotStep(now) => CommitsInSequence(s, now);
    case HandleAckStep(id, confirmed) => TablesInSequence(s, id, confirmed, 0);
    case CommitRenameStep => CommitsInSequence(s, 0);
    case PrepareJoinStep => PrepareInSequence(s);
    case ExpireAcksStep(now) => TablesInSequence(s, 0, None, now);
    case FailAcksStep => TablesInSequence(s, 0, None, 0);
    case ExpireQueuedStep(now) => QueuedInSequence(s, Expiring(s.worker.generation, now));
    case FailQueuedStep => QueuedInSequence(s, Failing(s.worker.generation));
    case ClearAcksStep => TablesInSequence(s, 0, None, 0);
    case MarkJoinStep => InboundInSequence(s, 0, "", InboundMessage(0, CloudError, "", "", 0));
  }

  lemma {:induction false} StepKeepsSequence(s: Sys, step: Step)
    requires Inv(s) && InSequence(s) && Enabled(s, step)
    ensures InSequence(Next(s, step))
  {
    hide InSequence, Enabled, Next, InboundHolds, Balanced, Conserved, Located;
    if IsUserStep(step) { UserStepInSequence(s, step); }
    else if Supersedes(step) { SupersedingInSequence(s, step); }
    else if IsWorkerStep(step) { WorkerStepInSequence(s, step); }
    else { TableStepInSequence(s, step); }
  }

  lemma {:induction false} RunKeepsSequence(s: Sys, steps: seq<Step>)
    requires Inv(s) && InSequence(s) && CanRun(s, steps)
    ensures InSequence(After(s, steps))
    decreases |steps|
  {
    hide Inv, InSequence, Next, Enabled;
    if steps != [] {
      StepKeepsSequence(s, steps[0]);
      StepKeepsInvariant(s, steps[0]);
      RunKeepsSequence(Next(s, steps[0]), steps[1..]);
    }
  }

  /** In every reachable state the queue is in the order in which its commands were accepted, and the command
      being sent was accepted before all that wait, whatever was returned, cancelled or expired. */
  lemma {:induction false} SentInOrder(s: Sys)
    requires Reachable(s)
    ensures forall i, j | 0 <= i < j < |s.core.commands| :: s.core.commands[i].sequence < s.core.commands[j].sequence
    ensures s.worker.Sending? && !s.worker.remembered && s.worker.generation == s.core.generation ==>
      forall c | c in s.core.commands :: s.worker.command.sequence < c.sequence
  {
    hide Inv, Enabled, Next;
    InitialInvariant();
    var steps :| CanRun(INITIAL, steps) && After(INITIAL, steps) == s;
    RunKeepsSequence(INITIAL, steps);
  }

  // ---- Cancelling ----

  /** The requests that can be cancelled: those that only read. */
  predicate OnlyReads(kind: CommandKind) {
    match kind
    case RequestComparison => true
    case RequestSnapshot => true
    case RequestBroadcasters => true
    case RequestBroadcasterSnapshot => true
    case RequestSyncHistory => true
    case RequestSyncRelations => true
    case _ => false
  }

  /** Cancelling an ID removes exactly the reading requests with this ID, from the queue and from the
      acknowledgements awaited, and leaves everything else where it was. */
  lemma {:induction false} CancelRemovesExactly(s: Sys, requestId: string)
    ensures var t := CancelNext(s, requestId);
      && (forall c :: c in t.core.commands <==> c in s.core.commands && !(OnlyReads(c.kind) && c.requestId == requestId))
      && (forall id: nat :: id in t.core.acks <==>
        id in s.core.acks && !(OnlyReads(s.core.acks[id].kind) && s.core.acks[id].requestId == requestId))
      && (forall id: nat | id in t.core.acks :: t.core.acks[id] == s.core.acks[id])
      && t.core.latest == s.core.latest && t.worker == s.worker && t.hand == s.hand && t.core.inbound == s.core.inbound
  {
    hide KeepCommands, AckTickets, CommandTickets, CancelledAcks;
    KeepKeeps(s.core.commands, NotCancelled(requestId));
  }

  // ---- Notifications ----

  /** The queue has a notification like that, with this content. */
  ghost predicate Queued(inbound: seq<InboundMessage>, m: InboundMessage) {
    exists i :: 0 <= i < |inbound| && inbound[i].Matches(m) && inbound[i].serialized == m.serialized
  }

  lemma {:induction false} AllProtectedFit(s: Sys)
    requires InboundHolds(s) && |s.core.inbound| + s.core.reservations >= MAX_INBOUND_QUEUE
    ensures DropOldestNotification(s.core.inbound).Some?
  {
    DropShrinks(s.core.inbound);
    if forall m | m in s.core.inbound :: m.IsProtected() {
      AllCounted(s.core.inbound);
    }
  }

  lemma {:induction false} AllCounted(inbound: seq<InboundMessage>)
    requires forall m | m in inbound :: m.IsProtected()
    ensures ProtectedCount(inbound) == |inbound|
  {
    if inbound != [] {
      assert inbound[0] in inbound && forall m | m in inbound[1..] :: m in inbound;
      AllCounted(inbound[1..]);
    }
  }

  /** In every reachable state a notification of the present configuration that is not empty and not too
      large is in the queue afterwards, as its newest content under its type and key; and the queue does not
      get shorter. */
  lemma {:induction false} NotificationArrives(s: Sys, m: InboundMessage)
    requires Reachable(s) && !m.IsProtected() && m.generation == s.core.generation && 0 < |m.serialized| <= 131072
    ensures var t := NotifyNext(s, m);
      Queued(t.core.inbound, m) && |t.core.inbound| >= |s.core.inbound| && |t.core.inbound| <= |s.core.inbound| + 1
  {
    hide Reachable, Healthy, Located, Balanced, Conserved, DropOldestNotification, LastMatch;
    ReachableInvariant(s);
    var c := s.core;
    LastMatchFinds(c.inbound, m);
    DropShrinks(c.inbound);
    if |c.inbound| + c.reservations >= MAX_INBOUND_QUEUE { AllProtectedFit(s); }
    var t := NotifyNext(s, m);
    var found := if m.kind.IsCoalescible() then LastMatch(c.inbound, m) else None;
    var at := if found.Some? then found.value else |t.core.inbound| - 1;
    assert t.core.inbound[at].Matches(m) && t.core.inbound[at].serialized == m.serialized;
  }

  /** What was queued stays queued under its type and key while there is room. */
  lemma {:induction false} RoomLosesNothing(c: Core, m: InboundMessage, k: nat)
    requires k < |c.inbound| && |c.inbound| + c.reservations < 128 && !m.IsProtected()
    ensures var d := EnqueueInbound(c, m, false);
      k < |d.inbound| && d.inbound[k].Matches(c.inbound[k]) && d.inbound[k].stamp == c.inbound[k].stamp
    ensures Reserve(c).1.inbound == c.inbound
  {
    hide DropOldestNotification, LastMatch;
    LastMatchFinds(c.inbound, m);
  }

  // ---- The limits ----

  /** At most 96 results are queued or promised, 64 acknowledgements awaited, and 128 messages queued. */
  lemma {:induction false} LimitsHold(s: Sys)
    requires Reachable(s)
    ensures s.core.queued + s.core.reservations <= 96 && |s.core.inbound| + s.core.reservations <= 128
    ensures |s.core.acks| <= 64 && |s.core.commands| <= 65
    ensures Reserve(s.core).0 <==> s.core.queued + s.core.reservations < 96
  {
    hide Reachable, Reserve, MakeRoom, Enabled;
    ReachableBounds(s);
    CreditIsRefusedOnlyWhenFull(s);
  }

  // ---- What is accepted ----

  /** In every reachable state a command is accepted exactly if the client is not stopping, its configuration is in
      force and names a server, there are credentials or the command asks for them, fewer than 64 commands wait, and
      fewer than 96 results are queued or promised. */
  lemma {:induction false} AcceptedExactly(s: Sys, kind: CommandKind, argument: string, requestId: string, now: int)
    requires Reachable(s)
    ensures EnqueueNext(s, kind, argument, "", requestId, 0, now).nextTicket > s.nextTicket <==>
      && !s.core.stopping && s.core.configGeneration == s.core.generation && s.core.serverValid
      && (kind == RegisterDevice || s.core.credentialsValid)
      && |s.core.commands| < 64 && s.core.queued + s.core.reservations < 96
  {
    hide Reachable, Reserve, MakeRoom, Enabled;
    CreditIsRefusedOnlyWhenFull(s);
  }

  /** A snapshot is accepted exactly if its configuration is in force and has credentials, and there is room for its
      result; then it is the one that waits, and the one it replaces is owed a result. */
  lemma {:induction false} SnapshotAcceptedExactly(s: Sys, generation: nat, clientRevision: nat, jsonText: string)
    requires Reachable(s)
    ensures var t := UploadNext(s, generation, clientRevision, jsonText);
      && (t.nextTicket > s.nextTicket <==>
        s.core.generation == generation && s.core.credentialsValid && s.core.queued + s.core.reservations < 96)
      && (t.nextTicket > s.nextTicket ==>
        t.core.latest == Some(PendingSnapshot(generation, clientRevision, jsonText, true, s.nextTicket)))
      && (t.nextTicket > s.nextTicket && s.core.latest.Some? ==>
        t.hand == s.hand + [Owed(s.core.latest.value.generation, SnapshotUploadResult, s.core.latest.value.ticket)])
      && (t.nextTicket == s.nextTicket ==> t.core.latest == s.core.latest)
  {
    hide Reachable, Reserve, MakeRoom, Enabled;
    CreditIsRefusedOnlyWhenFull(s);
    ReserveKeeps(s.core);
  }

  /** A snapshot that could not be sent waits again if none came meanwhile; if one did, it is owed a result. */
  lemma {:induction false} UnsentSnapshotReturns(s: Sys)
    requires s.worker.Uploading? && s.worker.generation == s.core.generation && s.worker.snapshot.reserved
    ensures var t := SnapshotFailNext(s);
      && (s.core.latest.None? ==> t.core.latest == Some(s.worker.snapshot) && t.hand == s.hand)
      && (s.core.latest.Some? ==> t.core.latest == s.core.latest)
      && (s.core.latest.Some? ==> t.hand == s.hand + [Owed(s.core.generation, SnapshotUploadResult, s.worker.snapshot.ticket)])
  {
  }

  /** A registration is done by its own call: the first one queued is taken for it, and none is ever sent as a command. */
  lemma {:induction false} RegistrationsAreTaken(s: Sys, j: nat)
    requires s.worker.Idle?
    ensures j < |s.core.commands| && s.core.commands[j].generation == s.worker.generation && s.core.commands[j].kind.RegisterDevice? ==>
      PopRegistrationNext(s).worker.Registering?
    ensures TakeNext(s).worker.Sending? ==> !TakeNext(s).worker.command.kind.RegisterDevice?
  {
    hide SkipStale, FirstRegistration, PoppedStale, CommandTickets;
    FirstRegistrationFinds(s.core.commands, s.worker.generation);
    if j < |s.core.commands| && s.core.commands[j].generation == s.worker.generation && s.core.commands[j].kind.RegisterDevice? {
      FirstRegistrationIsFirst(s.core.commands, s.worker.generation, j);
    }
  }

  /** The registration taken comes before every other one of its configuration. */
  lemma {:induction false} EarliestRegistration(s: Sys, j: nat)
    requires s.worker.Idle? && PopRegistrationNext(s).worker.Registering? && j < |s.core.commands|
    requires s.core.commands[j].generation == s.worker.generation && s.core.commands[j].kind.RegisterDevice?
    ensures exists i: nat ::
      (i <= j && s.core.commands[i] == PopRegistrationNext(s).worker.command &&
      PopRegistrationNext(s).core.commands == s.core.commands[..i] + s.core.commands[i + 1..])
  {
    hide FirstRegistration;
    FirstRegistrationFinds(s.core.commands, s.worker.generation);
    FirstRegistrationIsFirst(s.core.commands, s.worker.generation, j);
    var i := FirstRegistration(s.core.commands, s.worker.generation).value;
    assert s.core.commands[i] == PopRegistrationNext(s).worker.command;
  }

  /** A message that is empty or longer than 131072 is not queued; a result that is so long is replaced by a short
      one of its type, so that its operation is answered all the same. */
  lemma {:induction false} TooLongIsReplaced(c: Core, m: InboundMessage)
    requires m.serialized == "" || |m.serialized| > 131072
    ensures Notify(c, m, false) == c
    ensures m.IsProtected() && c.generation == m.generation && c.reservations > 0 ==>
      Notify(c, m, true).inbound == c.inbound + [m.(serialized := "payload_too_large")]
  {
    hide LastMatch;
    LastMatchFinds(c.inbound, m);
  }

  /** A confirmed rename is taken exactly if it names something, at most 512 bytes long, is of this configuration and
      comes after the one that the name is from. */
  lemma {:induction false} RenameTakenExactly(c: Core, generation: nat, sequence: nat, name: string)
    requires c.desired.Some?
    ensures var d := CommitRename(c, generation, sequence, name);
      if 0 < |name| <= 512 && sequence > c.desired.value.confirmedRenameSequence && c.generation == generation &&
        c.desired.value.generation == generation
      then d == c.(desired := Some(DesiredRoom(c.desired.value.roomId, name, generation, sequence))) else d == c
  {
  }

  /** When a connection is lost exactly the queued requests that only read are taken out, each owed a result, and all
      other commands wait on. */
  lemma {:induction false} FailedExactly(s: Sys)
    requires s.worker.Idle? && s.worker.generation == s.core.generation
    ensures var t := TakeQueuedNext(s, Failing(s.worker.generation));
      && (forall c :: c in t.core.commands <==> c in s.core.commands && !(c.generation == s.core.generation && OnlyReads(c.kind)))
      && s.hand <= t.hand
      && (forall c | c in s.core.commands && c.generation == s.core.generation && OnlyReads(c.kind) ::
        Owed(c.generation, c.kind.ResultType(), c.ticket) in t.hand)
  {
    hide KeepCommands;
    var taken := KeepCommands(s.core.commands, Failing(s.worker.generation));
    KeepKeeps(s.core.commands, Failing(s.worker.generation));
    KeepKeeps(s.core.commands, command => !Failing(s.worker.generation)(command));
    forall c | c in taken ensures Owed(c.generation, c.kind.ResultType(), c.ticket) in CommandsOwed(taken) {
      var i :| 0 <= i < |taken| && taken[i] == c;
      assert CommandsOwed(taken)[i] == Owed(c.generation, c.kind.ResultType(), c.ticket);
    }
  }
}
