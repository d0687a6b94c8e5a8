/** What holds in every reachable state of the cloud client, and what follows from it. */
module CloudSafety {
  import opened Options
  import opened CloudQueue
  import opened CloudTickets
  import opened CloudRuns
  import opened CloudInbound
  import opened CloudLedger
  import opened CloudPlaces

  ghost predicate Inv(s: Sys) { InboundHolds(s) && Located(s) && Balanced(s) && Conserved(s) }

  predicate Supersedes(step: Step) { step.ConfigureStep? || step.StopEndStep? }

  /** The tickets a step loses for good. */
  function LostBy(s: Sys, step: Step): multiset<nat> {
    match step
    case TakeStep => CommandTickets(PoppedStale(s.core.commands, s.worker.generation))
    case RegisterSilentStep(_) => WorkerTickets(s.worker, s.core.generation)
    case AbortDropStep => WorkerTickets(s.worker, s.core.generation)
    case AckTableFullStep => WorkerTickets(s.worker, s.core.generation)
    case ClearAcksStep => AckTickets(s.core.acks, s.core.nextAckId)
    case _ => multiset{}
  }

  /** The tickets a step pays off: with a result, a cancellation or a withdrawal. */
  function PaidBy(s: Sys, step: Step): multiset<nat>
    requires Enabled(s, step)
  {
    match step
    case CancelStep(requestId) => CancelPaid(s.core, requestId)
    case SendFailStep =>
      if s.worker.remembered then WorkerTickets(s.worker, s.core.generation) else multiset{}
    case DeliverStep(i, _) => One(s.hand[i].generation == s.core.generation, s.hand[i].ticket)
    case _ => multiset{}
  }

  lemma {:induction false} UserFlow(s: Sys, step: Step)
    requires Inv(s) && Enabled(s, step)
    requires step.EnqueueStep? || step.JoinRoomStep? || step.LeaveRoomStep? || step.UploadRejectedStep? ||
      step.UploadStep? || step.CancelStep? || step.DispatchStep? || step.StopBeginStep? || step.DeliverStep? ||
      step.NotifyStep?
    ensures Flow(s, Next(s, step), PaidBy(s, step), LostBy(s, step)) && Located(Next(s, step))
  {
    hide EnqueueNext, JoinRoomNext, LeaveRoomNext, UploadRejectedNext, UploadNext, CancelNext, DeliverNext, NotifyNext,
      Flow, InboundHolds, CommandsLocated, AcksLocated, WorkerLocated, HandLocated, TablesBounded, Balanced, Conserved,
      CommandTickets, AckTickets, WorkerTickets, CancelPaid, One;
    match step
    case EnqueueStep(kind, argument, secondArgument, requestId, clientRevision, now) =>
      EnqueueFlow(s, kind, argument, secondArgument, requestId, clientRevision, now);
      EnqueueLocated(s, kind, argument, secondArgument, requestId, clientRevision, now);
    case JoinRoomStep(roomId, name, now) =>
      JoinRoomFlow(s, roomId, name, now);
      JoinRoomLocated(s, roomId, name, now);
    case LeaveRoomStep(now) =>
      LeaveRoomFlow(s, now);
      LeaveRoomLocated(s, now);
    case UploadRejectedStep(generation) =>
      UploadRejectedFlow(s, generation);
      UploadRejectedLocated(s, generation);
    case UploadStep(generation, clientRevision, jsonText) =>
      UploadFlow(s, generation, clientRevision, jsonText);
      UploadLocated(s, generation, clientRevision, jsonText);
    case CancelStep(requestId) =>
      CancelFlow(s, requestId);
      CancelLocated(s, requestId);
    case DispatchStep =>
      StillFlow(s, DispatchNext(s));
      OtherLocated(s);
    case StopBeginStep =>
      StillFlow(s, s.(core := StopBegin(s.core)));
      OtherLocated(s);
    case DeliverStep(i, serialized) =>
      DeliverFlow(s, i, serialized);
      DeliverLocated(s, i, serialized);
    case NotifyStep(generation, kind, key, serialized) =>
      NotifyFlow(s, InboundMessage(generation, kind, key, serialized, s.feed.nextStamp));
      NotifyLocated(s, InboundMessage(generation, kind, key, serialized, s.feed.nextStamp));
  }

  lemma {:induction false} WorkerFlow(s: Sys, step: Step)
    requires Inv(s) && Enabled(s, step)
    requires step.ObserveStep? || step.PopRegistrationStep? || step.RegisterResultStep? || step.RegisterSilentStep? ||
      step.TakeStep? || step.AbortDropStep? || step.AllocateAckStep? || step.AckTableFullStep? || step.CommitAckStep? ||
      step.SendFailStep?
    ensures Flow(s, Next(s, step), PaidBy(s, step), LostBy(s, step)) && Located(Next(s, step))
  {
    hide PopRegistrationNext, OweWorker, LoseWorker, TakeNext, AllocateAckNext, CommitAckNext, SendFailNext,
      Flow, InboundHolds, CommandsLocated, AcksLocated, WorkerLocated, HandLocated, TablesBounded, Balanced, Conserved,
      CommandTickets, AckTickets, WorkerTickets, One;
    match step
    case ObserveStep =>
      StillFlow(s, s.(worker := Idle(s.core.generation)));
      IdleLocated(s);
    case PopRegistrationStep =>
      PopRegistrationFlow(s);
      PopRegistrationLocated(s);
    case RegisterResultStep(registered) =>
      OweFlow(s, if registered then DeviceRegistered else DeviceRegistrationError);
      OweLocated(s, if registered then DeviceRegistered else DeviceRegistrationError);
    case RegisterSilentStep(_) =>
      LoseFlow(s);
      LoseLocated(s);
    case TakeStep =>
      TakeFlow(s);
      TakeLocated(s);
    case AbortDropStep =>
      LoseFlow(s);
      LoseLocated(s);
    case AllocateAckStep =>
      AllocateFlow(s);
      AllocateLocated(s);
    case AckTableFullStep =>
      LoseFlow(s);
      LoseLocated(s);
    case CommitAckStep(now) =>
      CommitFlow(s, now);
      CommitLocated(s, now);
    case SendFailStep =>
      SendFailFlow(s);
      SendFailLocated(s);
  }

  lemma {:induction false} SnapshotFlow(s: Sys, step: Step)
    requires Inv(s) && Enabled(s, step)
    requires step.TakeSnapshotStep? || step.SnapshotRejectedStep? || step.SnapshotFailStep? ||
      step.CommitSnapshotStep? || step.HandleAckStep? || step.CommitRenameStep? || step.PrepareJoinStep?
    ensures Flow(s, Next(s, step), PaidBy(s, step), LostBy(s, step)) && Located(Next(s, step))
  {
    hide OweWorker, TakeSnapshotNext, SnapshotFailNext, CommitSnapshotNext, HandleAckNext, PrepareJoinNext,
      Flow, InboundHolds, CommandsLocated, AcksLocated, WorkerLocated, HandLocated, TablesBounded, Balanced, Conserved,
      CommandTickets, AckTickets, WorkerTickets, One;
    match step
    case TakeSnapshotStep =>
      TakeSnapshotFlow(s);
      TakeSnapshotLocated(s);
    case SnapshotRejectedStep =>
      OweFlow(s, SnapshotUploadResult);
      OweLocated(s, SnapshotUploadResult);
    case SnapshotFailStep =>
      SnapshotFailFlow(s);
      SnapshotFailLocated(s);
    case CommitSnapshotStep(now) =>
      CommitSnapshotFlow(s, now);
      CommitSnapshotLocated(s, now);
    case HandleAckStep(id, confirmed) =>
      HandleAckFlow(s, id, confirmed);
      HandleAckLocated(s, id, confirmed);
    case CommitRenameStep =>
      StillFlow(s, CommitRenameNext(s));
      IdleLocated(s);
    case PrepareJoinStep =>
      PrepareJoinFlow(s);
      PrepareJoinLocated(s);
  }

  lemma {:induction false} TableFlow(s: Sys, step: Step)
    requires Inv(s) && Enabled(s, step)
    requires step.ExpireAcksStep? || step.FailAcksStep? || step.ExpireQueuedStep? || step.FailQueuedStep? ||
      step.ClearAcksStep? || step.MarkJoinStep?
    ensures Flow(s, Next(s, step), PaidBy(s, step), LostBy(s, step)) && Located(Next(s, step))
  {
    hide ExpireAcksNext, FailAcksNext, TakeQueuedNext, ClearAcksNext, MarkJoinPending,
      Flow, InboundHolds, CommandsLocated, AcksLocated, WorkerLocated, HandLocated, TablesBounded, Balanced, Conserved,
      CommandTickets, AckTickets, WorkerTickets, One;
    match step
    case ExpireAcksStep(now) =>
      ExpireAcksFlow(s, now);
      ExpireAcksLocated(s, now);
    case FailAcksStep =>
      FailAcksFlow(s);
      FailAcksLocated(s);
    case ExpireQueuedStep(now) =>
      TakeQueuedFlow(s, Expiring(s.worker.generation, now));
      TakeQueuedLocated(s, Expiring(s.worker.generation, now));
    case FailQueuedStep =>
      TakeQueuedFlow(s, Failing(s.worker.generation));
      TakeQueuedLocated(s, Failing(s.worker.generation));
    case ClearAcksStep =>
      ClearAcksFlow(s);
      ClearAcksLocated(s);
    case MarkJoinStep => MarkFlow(s);
  }

  lemma {:induction false} MarkFlow(s: Sys)
    requires Located(s) && s.worker.Idle?
    ensures var t := s.(core := MarkJoinPending(s.core, s.worker.generation));
      Flow(s, t, multiset{}, multiset{}) && Located(t)
  {
    hide Located, Flow;
    StillFlow(s, s.(core := MarkJoinPending(s.core, s.worker.generation)));
    IdleLocated(s);
  }

  predicate IsUserStep(step: Step) {
    step.EnqueueStep? || step.JoinRoomStep? || step.LeaveRoomStep? || step.UploadRejectedStep? ||
    step.UploadStep? || step.CancelStep? || step.DispatchStep? || step.StopBeginStep? || step.DeliverStep? ||
    step.NotifyStep?
  }

  predicate IsWorkerStep(step: Step) {
    step.ObserveStep? || step.PopRegistrationStep? || step.RegisterResultStep? || step.RegisterSilentStep? ||
    step.TakeStep? || step.AbortDropStep? || step.AllocateAckStep? || step.AckTableFullStep? || step.CommitAckStep? ||
    step.SendFailStep?
  }

  predicate IsSnapshotStep(step: Step) {
    step.TakeSnapshotStep? || step.SnapshotRejectedStep? || step.SnapshotFailStep? || step.CommitSnapshotStep? ||
    step.HandleAckStep? || step.CommitRenameStep? || step.PrepareJoinStep?
  }

  /** Within a configuration every step moves tickets from place to place: it pays off exactly
      PaidBy and loses exactly LostBy, and its credits follow. */
  lemma {:induction false} StepFlow(s: Sys, step: Step)
    requires Inv(s) && Enabled(s, step) && !Supersedes(step)
    ensures Flow(s, Next(s, step), PaidBy(s, step), LostBy(s, step)) && Located(Next(s, step))
  {
    hide Inv, Enabled, Next, Flow, Located, PaidBy, LostBy;
    if IsUserStep(step) { UserFlow(s, step); }
    else if IsWorkerStep(step) { WorkerFlow(s, step); }
    else if IsSnapshotStep(step) { SnapshotFlow(s, step); }
    else { TableFlow(s, step); }
  }

  lemma {:induction false} SupersedeKeepsInvariant(s: Sys, step: Step)
    requires Inv(s) && Enabled(s, step) && Supersedes(step)
    ensures Located(Next(s, step)) && Balanced(Next(s, step)) && Conserved(Next(s, step))
  {
    hide Supersede, CommandsLocated, AcksLocated, WorkerLocated, HandLocated, TablesBounded, Balanced, Conserved,
      InboundHolds;
    var core := if step.StopEndStep? then StopEnd(s.core)
      else Configure(s.core, step.serverValid, step.credentialsValid);
    SupersedeAccounts(s, core);
    SupersedeLocated(s, core);
  }

  lemma {:induction false} LocatedResults(s: Sys)
    requires Located(s)
    ensures ResultsInHand(s)
  {
  }

  lemma {:induction false} StepKeepsInvariant(s: Sys, step: Step)
    requires Inv(s) && Enabled(s, step)
    ensures Inv(Next(s, step))
  {
    hide Next, Enabled, Located, InboundHolds, Balanced, Conserved, Flow, PaidBy, LostBy;
    LocatedResults(s);
    StepStaysHealthy(s, step);
    if Supersedes(step) {
      SupersedeKeepsInvariant(s, step);
    } else {
      StepFlow(s, step);
      FlowKeeps(s, Next(s, step), PaidBy(s, step), LostBy(s, step));
    }
  }

  lemma {:induction false} InitialInvariant()
    ensures Inv(INITIAL)
  {
    assert CommandTickets([]) == multiset{} && HandTickets([], 0) == multiset{};
    NoAcks(1);
  }

  lemma {:induction false} RunKeepsInvariant(s: Sys, steps: seq<Step>)
    requires Inv(s) && CanRun(s, steps)
    ensures Inv(After(s, steps))
    decreases |steps|
  {
    hide Inv, Next, Enabled;
    if steps != [] {
      StepKeepsInvariant(s, steps[0]);
      RunKeepsInvariant(Next(s, steps[0]), steps[1..]);
    }
  }

  /** The invariant holds in every reachable state. */
  lemma {:induction false} ReachableInvariant(s: Sys)
    requires Reachable(s)
    ensures Inv(s)
  {
    hide Inv;
    InitialInvariant();
    var steps :| CanRun(INITIAL, steps) && After(INITIAL, steps) == s;
    RunKeepsInvariant(INITIAL, steps);
  }
}
