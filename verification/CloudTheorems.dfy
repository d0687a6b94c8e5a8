/** The promises of the cloud client's queues, over every reachable state. */
module CloudTheorems {
  import opened Options
  import opened CloudQueue
  import opened CloudTickets
  import opened CloudRuns
  import opened CloudInbound
  import opened CloudLedger
  import opened CloudPlaces
  import opened CloudSafety
  import opened CloudRemembered

  // ---- Exactly one end ----

  /** Every operation accepted so far is in exactly one place: it waits for its result, has had
      it, was cancelled, was discarded by a new configuration, or is lost. */
  lemma {:induction false} EachTicketInOnePlace(s: Sys, t: nat)
    requires Reachable(s)
    ensures Held(s)[t] + multiset(s.book.results)[t] + s.book.cancelled[t] + s.book.lost[t] + s.book.superseded[t] ==
      if t < s.nextTicket then 1 else 0
  {
    hide Held, InboundHolds, Located, Reachable;
    ReachableInvariant(s);
    assert Accounted(s)[t] == if t < s.nextTicket then 1 else 0;
  }

  lemma {:induction false} TwiceCounts(results: seq<nat>, i: nat, j: nat)
    requires i < j < |results| && results[i] == results[j]
    ensures multiset(results)[results[i]] >= 2
  {
    var front := results[..j];
    assert results == front + ([results[j]] + results[j + 1..]);
    assert front[i] in front;
    assert multiset(results) == multiset(front) + multiset([results[j]]) + multiset(results[j + 1..]);
  }

  /** No operation ever gets two results, and one that has its result is no longer waiting. */
  lemma {:induction false} AtMostOneResult(s: Sys, i: nat, j: nat)
    requires Reachable(s) && i < |s.book.results| && j < |s.book.results|
    ensures i != j ==> s.book.results[i] != s.book.results[j]
    ensures s.book.results[i] < s.nextTicket && s.book.results[i] !in Held(s) && s.book.results[i] !in s.book.lost &&
      s.book.results[i] !in s.book.cancelled && s.book.results[i] !in s.book.superseded
  {
    hide Held, Reachable;
    var t := s.book.results[i];
    EachTicketInOnePlace(s, t);
    assert t in multiset(s.book.results);
    if i < j && t == s.book.results[j] { TwiceCounts(s.book.results, i, j); }
    if j < i && t == s.book.results[j] { TwiceCounts(s.book.results, j, i); }
  }

  // ---- Credits ----

  /** There is a credit for every operation that still waits; one to one exactly when none is lost. */
  lemma {:induction false} CreditsCoverHolders(s: Sys)
    requires Reachable(s)
    ensures |Held(s)| <= s.core.reservations
    ensures |Held(s)| == s.core.reservations <==> s.book.lost == multiset{}
  {
    hide Held, InboundHolds, Located, Conserved, Reachable;
    ReachableInvariant(s);
  }

  /** A result of the current generation is never refused: it goes to the end of the queue, the
      ticket is recorded as answered, and nothing is lost. */
  lemma {:induction false} OwedResultIsQueued(s: Sys, i: nat, serialized: string)
    requires Reachable(s) && i < |s.hand| && s.hand[i].generation == s.core.generation
    ensures var t := DeliverNext(s, i, serialized);
      |t.core.inbound| == |s.core.inbound| + 1 && t.core.inbound[..|s.core.inbound|] == s.core.inbound &&
      t.core.inbound[|s.core.inbound|].kind == s.hand[i].kind && t.core.inbound[|s.core.inbound|].serialized != "" &&
      t.book == s.book.(results := s.book.results + [s.hand[i].ticket]) &&
      t.hand == s.hand[..i] + s.hand[i + 1..]
  {
    hide Held, Conserved, Notify, Reachable, InboundHolds;
    ReachableInvariant(s);
    assert s.hand[i] in s.hand;
    HandIsCovered(s, i);
    DeliverCases(s, i, serialized);
  }

  // ---- Where operations are lost ----

  /** Commands queued under a new configuration while the worker is still in a pass of the old one;
      a registration that finds the cancel slot held; and what is dropped while stopping. */
  predicate Loses(s: Sys, step: Step) {
    match step
    case TakeStep => s.worker.generation != s.core.generation && s.core.commands != []
    case RegisterSilentStep(_) => s.worker.generation == s.core.generation
    case AbortDropStep => s.core.stopping && s.worker.generation == s.core.generation
    case ClearAcksStep => s.core.stopping && s.core.acks != map[]
    case _ => false
  }

  lemma {:induction false} StalePass(c: Core, generation: nat)
    requires CommandsLocated(c)
    ensures PoppedStale(c.commands, generation) == if generation == c.generation then [] else c.commands
    ensures generation != c.generation ==> SkipStale(c.commands, generation) == []
  {
    hide SkipStale, PoppedStale;
    SkipIsSuffix(c.commands, generation);
    var popped := PoppedStale(c.commands, generation);
    var rest := SkipStale(c.commands, generation);
    if popped != [] {
      assert popped[0] in popped && popped[0] in c.commands;
    }
    if rest != [] {
      assert rest[0] in c.commands;
    }
  }

  lemma {:induction false} TakeLoses(s: Sys)
    requires CommandsLocated(s.core)
    ensures LostBy(s, TakeStep) == multiset{} <==> !Loses(s, TakeStep)
  {
    hide CommandTickets, PoppedStale, CommandsLocated;
    StalePass(s.core, s.worker.generation);
    CommandsSize(PoppedStale(s.core.commands, s.worker.generation));
  }

  lemma {:induction false} WorkerLoses(s: Sys)
    requires s.worker.Ticket().Some?
    ensures WorkerTickets(s.worker, s.core.generation) == multiset{} <==> s.worker.generation != s.core.generation
  {
    hide WorkerTickets;
    WorkerHolds(s.worker, s.core.generation);
    OneSize(s.worker.generation == s.core.generation, s.worker.Ticket().value);
  }

  lemma {:induction false} ClearLoses(s: Sys)
    requires Located(s) && Enabled(s, ClearAcksStep)
    ensures AckTickets(s.core.acks, s.core.nextAckId) == multiset{} <==> !Loses(s, ClearAcksStep)
  {
    hide AckTickets, CommandsLocated, HandLocated, TablesBounded;
    AcksSize(s.core.acks, s.core.nextAckId);
  }

  /** The acknowledgement table has room whenever the worker is about to use it, so the early
      return that would drop the command is never taken. */
  lemma {:induction false} AckTableNeverFull(s: Sys)
    requires Located(s)
    ensures !Enabled(s, AckTableFullStep)
  {
    hide CommandsLocated, HandLocated, AcksLocated;
  }

  lemma {:induction false} LostByLoses(s: Sys, step: Step)
    requires Located(s) && Enabled(s, step) && !Supersedes(step)
    ensures LostBy(s, step) == multiset{} <==> !Loses(s, step)
  {
    hide Located, WorkerTickets, AckTickets, CommandTickets, PoppedStale;
    match step
    case TakeStep => LocatedCommands(s); TakeLoses(s);
    case RegisterSilentStep(_) => WorkerLoses(s);
    case AbortDropStep => WorkerLoses(s); LocatedFence(s);
    case AckTableFullStep => AckTableNeverFull(s);
    case ClearAcksStep => ClearLoses(s);
    case _ =>
  }

  lemma {:induction false} LocatedCommands(s: Sys)
    requires Located(s)
    ensures CommandsLocated(s.core)
  {
  }

  lemma {:induction false} LocatedFence(s: Sys)
    requires Located(s)
    ensures Fenced(s.core)
  {
  }

  /** Within a configuration a ticket is lost exactly by the steps named, and never comes back. */
  lemma {:induction false} LostExactlyWhere(s: Sys, step: Step)
    requires Reachable(s) && Enabled(s, step) && !Supersedes(step)
    ensures s.book.lost <= Next(s, step).book.lost
    ensures Next(s, step).book.lost == s.book.lost <==> !Loses(s, step)
  {
    hide Reachable, Enabled, Next, Held, LostBy, PaidBy, Loses, InboundHolds, Located, Balanced, Conserved;
    ReachableInvariant(s);
    StepFlow(s, step);
    LostByLoses(s, step);
    NothingAdded(s.book.lost, LostBy(s, step));
  }

  lemma {:induction false} NothingAdded(a: multiset<nat>, b: multiset<nat>)
    ensures a <= a + b
    ensures a + b == a <==> b == multiset{}
  {
    assert |a + b| == |a| + |b|;
  }

  ghost predicate Lossless(s: Sys, steps: seq<Step>)
    requires CanRun(s, steps)
    decreases |steps|
  {
    steps != [] ==> !Loses(s, steps[0]) && Lossless(Next(s, steps[0]), steps[1..])
  }

  /** As long as no step loses a ticket, the credits are exactly the operations that wait. */
  lemma {:induction false} LosslessRunIsExact(s: Sys, steps: seq<Step>)
    requires Inv(s) && s.book.lost == multiset{} && CanRun(s, steps) && Lossless(s, steps)
    ensures Inv(After(s, steps)) && After(s, steps).book.lost == multiset{}
    ensures After(s, steps).core.reservations == |Held(After(s, steps))|
    decreases |steps|
  {
    hide Enabled, Next, Held, Loses, InboundHolds, Located, Conserved;
    if steps != [] {
      LosslessStep(s, steps[0]);
      LosslessRunIsExact(Next(s, steps[0]), steps[1..]);
    }
  }

  ghost predicate OneConfiguration(steps: seq<Step>) { forall step | step in steps :: !Supersedes(step) }

  lemma {:induction false} StepLosesMore(s: Sys, step: Step)
    requires Inv(s) && Enabled(s, step) && !Supersedes(step)
    ensures Inv(Next(s, step)) && s.book.lost <= Next(s, step).book.lost
    ensures Loses(s, step) ==> Next(s, step).book.lost != multiset{}
  {
    hide Enabled, Next, Held, LostBy, PaidBy, Loses, InboundHolds, Located, Balanced, Conserved;
    StepKeepsInvariant(s, step);
    StepFlow(s, step);
    LostByLoses(s, step);
    NothingAdded(s.book.lost, LostBy(s, step));
  }

  /** What is lost stays lost until the next configuration. */
  lemma {:induction false} LostStays(s: Sys, steps: seq<Step>)
    requires Inv(s) && CanRun(s, steps) && OneConfiguration(steps)
    ensures Inv(After(s, steps)) && s.book.lost <= After(s, steps).book.lost
    ensures !Lossless(s, steps) ==> After(s, steps).book.lost != multiset{}
    decreases |steps|
  {
    hide Enabled, Next, Loses, Inv, Supersedes;
    if steps != [] {
      assert steps[0] in steps && forall step | step in steps[1..] :: step in steps;
      StepLosesMore(s, steps[0]);
      LostStays(Next(s, steps[0]), steps[1..]);
    }
  }

  /** Within one configuration the credits still are exactly the operations that wait if and only if
      no step of the run was one that loses. */
  lemma {:induction false} ExactExactlyWhenLossless(s: Sys, steps: seq<Step>)
    requires Inv(s) && s.book.lost == multiset{} && CanRun(s, steps) && OneConfiguration(steps)
    ensures After(s, steps).core.reservations == |Held(After(s, steps))| <==> Lossless(s, steps)
  {
    hide Held, Lossless, InboundHolds, Located, Conserved, OneConfiguration;
    LostStays(s, steps);
    if Lossless(s, steps) { LosslessRunIsExact(s, steps); }
  }

  lemma {:induction false} LosslessStep(s: Sys, step: Step)
    requires Inv(s) && s.book.lost == multiset{} && Enabled(s, step) && !Loses(s, step)
    ensures Inv(Next(s, step)) && Next(s, step).book.lost == multiset{}
  {
    hide Enabled, Next, Held, Loses, LostBy, PaidBy, InboundHolds, Located, Balanced, Conserved;
    StepKeepsInvariant(s, step);
    if Supersedes(step) {
      SupersedeForgets(s, step);
    } else {
      StepFlow(s, step);
      LostByLoses(s, step);
    }
  }

  lemma {:induction false} SupersedeForgets(s: Sys, step: Step)
    requires Enabled(s, step) && Supersedes(step)
    ensures Next(s, step).book.lost == multiset{}
  {
    hide Held;
  }

  // ---- Bounds ----

  /** The limits in every reachable state. The command queue may exceed its limit by one, for a
      command returned to the front after a failed send. */
  lemma {:induction false} ReachableBounds(s: Sys)
    requires Reachable(s)
    ensures s.core.queued + s.core.reservations <= MAX_PROTECTED_RESULTS
    ensures |s.core.inbound| + s.core.reservations <= MAX_INBOUND_QUEUE
    ensures |s.core.acks| <= MAX_PENDING_ACKS
    ensures |s.core.commands| <= MAX_COMMAND_QUEUE + 1
  {
    hide Healthy, CommandsLocated, AcksLocated, WorkerLocated, HandLocated, Balanced, Conserved, Reachable;
    ReachableInvariant(s);
  }

  predicate QueueFits(s: Sys) { |s.core.commands| <= MAX_COMMAND_QUEUE }

  lemma {:induction false} IssueQueue(s: Sys, kind: CommandKind, argument: string, secondArgument: string, requestId: string,
    clientRevision: nat, now: int)
    requires QueueFits(s)
    ensures QueueFits(EnqueueNext(s, kind, argument, secondArgument, requestId, clientRevision, now))
    ensures QueueFits(JoinRoomNext(s, argument, secondArgument, now)) && QueueFits(LeaveRoomNext(s, now))
  {
    hide Enqueue;
    EnqueueEffect(s.core, kind, argument, secondArgument, requestId, clientRevision, now, s.nextTicket);
    EnqueueEffect(s.core, JoinRoom, argument, secondArgument, "", 0, now, s.nextTicket);
    EnqueueEffect(s.core, LeaveRoom, "", "", "", 0, now, s.nextTicket);
  }

  lemma {:induction false} NoticeQueue(s: Sys, generation: nat, clientRevision: nat, text: string, m: InboundMessage)
    requires QueueFits(s)
    ensures QueueFits(UploadNext(s, generation, clientRevision, text)) && QueueFits(UploadRejectedNext(s, generation))
    ensures QueueFits(CancelNext(s, text)) && QueueFits(DispatchNext(s)) && QueueFits(NotifyNext(s, m))
  {
    hide Reserve, Notify, CommandTickets, AckTickets, CancelledAcks;
    ReserveKeeps(s.core);
    NotifyTouches(s.core, m, false);
  }

  lemma {:induction false} DeliverQueue(s: Sys, i: nat, serialized: string)
    requires QueueFits(s) && i < |s.hand|
    ensures QueueFits(DeliverNext(s, i, serialized))
  {
    hide Notify;
    NotifyTouches(s.core, InboundMessage(s.hand[i].generation, s.hand[i].kind, "", serialized, s.feed.nextStamp), true);
  }

  lemma {:induction false} UserQueue(s: Sys, step: Step)
    requires Enabled(s, step) && IsUserStep(step) && QueueFits(s)
    ensures QueueFits(Next(s, step))
  {
    hide QueueFits, EnqueueNext, JoinRoomNext, LeaveRoomNext, UploadRejectedNext, UploadNext, CancelNext, DeliverNext, NotifyNext,
      DispatchNext;
    var silent := InboundMessage(0, CloudError, "", "", 0);
    match step
    case EnqueueStep(kind, argument, secondArgument, requestId, clientRevision, now) =>
      IssueQueue(s, kind, argument, secondArgument, requestId, clientRevision, now);
    case JoinRoomStep(roomId, name, now) => IssueQueue(s, JoinRoom, roomId, name, "", 0, now);
    case LeaveRoomStep(now) => IssueQueue(s, LeaveRoom, "", "", "", 0, now);
    case UploadRejectedStep(generation) => NoticeQueue(s, generation, 0, "", silent);
    case UploadStep(generation, clientRevision, jsonText) => NoticeQueue(s, generation, clientRevision, jsonText, silent);
    case CancelStep(requestId) => NoticeQueue(s, 0, 0, requestId, silent);
    case DispatchStep => NoticeQueue(s, 0, 0, "", silent);
    case NotifyStep(generation, kind, key, serialized) =>
      NoticeQueue(s, 0, 0, "", InboundMessage(generation, kind, key, serialized, s.feed.nextStamp));
    case DeliverStep(i, serialized) => DeliverQueue(s, i, serialized);
    case StopBeginStep => StopQueue(s);
  }

  lemma {:induction false} StopQueue(s: Sys)
    requires QueueFits(s)
    ensures QueueFits(s.(core := StopBegin(s.core)))
  {
  }

  lemma {:induction false} TakenQueue(s: Sys, step: Step)
    requires Enabled(s, step) && |s.core.commands| <= MAX_COMMAND_QUEUE
    requires step.PopRegistrationStep? || step.TakeStep? || step.ExpireQueuedStep? || step.FailQueuedStep?
    ensures |Next(s, step).core.commands| <= MAX_COMMAND_QUEUE
  {
    hide CommandTickets, PoppedStale, SkipStale, FirstRegistration, CommandsOwed, KeepCommands, Issue, Held;
    FirstRegistrationFinds(s.core.commands, s.worker.generation);
  }

  lemma {:induction false} SupersededQueue(s: Sys, step: Step)
    requires Enabled(s, step) && Supersedes(step)
    ensures Next(s, step).core.commands == []
  {
    hide Issue, Held;
  }

  predicate LeavesQueue(step: Step) {
    step.TakeSnapshotStep? || step.SnapshotRejectedStep? || step.SnapshotFailStep? || step.CommitSnapshotStep? ||
    step.PrepareJoinStep? || step.CommitRenameStep? || step.MarkJoinStep?
  }

  predicate SettlesAcks(step: Step) {
    step.HandleAckStep? || step.ExpireAcksStep? || step.FailAcksStep? || step.ClearAcksStep?
  }

  lemma {:induction false} RoomQueue(s: Sys, step: Step)
    requires Enabled(s, step) && LeavesQueue(step)
    ensures Next(s, step).core.commands == s.core.commands
  {
    hide Reserve, WorkerTickets, HasJoinCommandOrAck, Issue, Held;
    ReserveKeeps(s.core);
  }

  lemma {:induction false} AckQueue(s: Sys, step: Step)
    requires Enabled(s, step) && SettlesAcks(step)
    ensures Next(s, step).core.commands == s.core.commands
  {
    hide ExpireAcksNext, HandleAckNext, FailAcksNext, AckTickets, Issue, Held;
    match step
    case HandleAckStep(id, confirmed) => HandleAckQueue(s, id, confirmed);
    case ExpireAcksStep(now) => ExpireQueue(s, now);
    case FailAcksStep => ExpireQueue(s, 0);
    case ClearAcksStep =>
  }

  lemma {:induction false} HandleAckQueue(s: Sys, id: nat, confirmed: Option<string>)
    requires s.worker.Idle?
    ensures HandleAckNext(s, id, confirmed).core.commands == s.core.commands
  {
  }

  lemma {:induction false} ExpireQueue(s: Sys, now: int)
    requires s.worker.Idle?
    ensures ExpireAcksNext(s, now).core.commands == s.core.commands && FailAcksNext(s).core.commands == s.core.commands
  {
    hide AcksOwed;
  }

  lemma {:induction false} WorkerQueue(s: Sys, step: Step)
    requires Enabled(s, step) && IsWorkerStep(step)
    requires !step.SendFailStep? && !step.PopRegistrationStep? && !step.TakeStep?
    ensures Next(s, step).core.commands == s.core.commands
  {
    hide WorkerTickets, Issue, Held;
  }

  lemma {:induction false} SendFailQueue(s: Sys)
    requires Enabled(s, SendFailStep) && WorkerLocated(s.core, s.worker)
    ensures |Next(s, SendFailStep).core.commands| ==
      |s.core.commands| + if !s.worker.remembered && s.worker.generation == s.core.generation then 1 else 0
  {
    hide WorkerTickets;
  }

  /** A step takes a queue within its limit over it exactly if it puts an unsent command of the present
      configuration back to 64 others. */
  lemma {:induction false} OverLimitExactlyWhere(s: Sys, step: Step)
    requires Reachable(s) && |s.core.commands| <= MAX_COMMAND_QUEUE && Enabled(s, step)
    ensures |Next(s, step).core.commands| > MAX_COMMAND_QUEUE <==>
      step.SendFailStep? && !s.worker.remembered && s.worker.generation == s.core.generation &&
      |s.core.commands| == MAX_COMMAND_QUEUE
  {
    hide Reachable, Enabled, Next, InboundHolds, CommandsLocated, AcksLocated, WorkerLocated, HandLocated, TablesBounded,
      Balanced, Conserved;
    ReachableInvariant(s);
    if step.SendFailStep? { SendFailQueue(s); }
    else if IsUserStep(step) { UserQueue(s, step); }
    else if LeavesQueue(step) { RoomQueue(s, step); }
    else if SettlesAcks(step) { AckQueue(s, step); }
    else if IsWorkerStep(step) && !step.PopRegistrationStep? && !step.TakeStep? { WorkerQueue(s, step); }
    else if Supersedes(step) { SupersededQueue(s, step); }
    else { TakenQueue(s, step); }
  }

  /** A credit is refused exactly when 96 results are queued or promised; the exit that finds
      nothing left to drop is never taken. */
  lemma {:induction false} CreditIsRefusedOnlyWhenFull(s: Sys)
    requires Reachable(s)
    ensures Reserve(s.core).0 <==> s.core.queued + s.core.reservations < MAX_PROTECTED_RESULTS
    ensures s.core.queued + s.core.reservations < MAX_PROTECTED_RESULTS ==> MakeRoom(s.core.inbound, s.core.reservations).0
    ensures !Enabled(s, AckTableFullStep)
  {
    hide Healthy, Located, Balanced, Conserved, Reachable, Enabled;
    ReachableInvariant(s);
    ReserveStaysHealthy(s.core, s.feed);
    AckTableNeverFull(s);
  }

  /** What is queued is of the current generation, in arrival order behind all that has been
      dispatched, without two notifications for one key, each with the newest payload; and the
      counter of queued results is exact. */
  lemma {:induction false} ReachableQueue(s: Sys)
    requires Reachable(s)
    ensures AllCurrent(s.core.inbound, s.core.generation)
    ensures InArrivalOrder(s.core.inbound, s.feed)
    ensures Coalesced(s.core.inbound, s.feed.newest)
    ensures s.core.queued == ProtectedCount(s.core.inbound)
  {
    hide Located, Balanced, Conserved, Reachable, InArrivalOrder, Coalesced, ProtectedCount;
    ReachableInvariant(s);
  }
}
