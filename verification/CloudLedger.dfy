/** Credits and tickets over whole runs: every accepted operation is in exactly one place, and
    every operation still waiting for its result is covered by a credit. */
module CloudLedger {
  import opened Options
  import opened CloudQueue
  import opened CloudTickets
  import opened CloudRuns
  import opened CloudInbound

  // ---- Where things are ----

  predicate CommandsLocated(c: Core) {
    && (forall command | command in c.commands :: command.generation == c.generation && command.reserved)
    && (c.latest.Some? ==> c.latest.value.generation == c.generation && c.latest.value.reserved)
  }

  predicate AcksLocated(c: Core) {
    forall id: nat | id in c.acks :: id < c.nextAckId && c.acks[id].reserved
  }

  predicate WorkerLocated(c: Core, worker: Worker) {
    && worker.generation <= c.generation
    && (worker.Sending? || worker.Registering? ==>
      worker.command.generation == worker.generation && worker.command.reserved)
    && (worker.Uploading? ==> worker.snapshot.generation == worker.generation && worker.snapshot.reserved)
    && (worker.generation != c.generation ==> c.acks == map[])
    && ((worker.Sending? || worker.Uploading?) && worker.ack.Some? && worker.generation == c.generation ==>
      worker.ack.value < c.nextAckId && worker.ack.value !in c.acks)
  }

  predicate HandLocated(hand: seq<Owed>, generation: nat) {
    forall owed | owed in hand :: owed.generation <= generation && owed.kind.IsProtected()
  }

  predicate Fenced(c: Core) {
    if c.stopping then c.generation < c.configGeneration else c.generation == c.configGeneration
  }

  function InTransit(c: Core, worker: Worker): nat {
    if (worker.Sending? || worker.Uploading?) && worker.generation == c.generation then 1 else 0
  }

  /** A command that may come back to the front of the queue. */
  function Returning(c: Core, worker: Worker): nat {
    if worker.Sending? && !worker.remembered && worker.generation == c.generation then 1 else 0
  }

  predicate TablesBounded(c: Core, worker: Worker) {
    && |c.acks| + InTransit(c, worker) <= MAX_PENDING_ACKS
    && |c.commands| + Returning(c, worker) <= MAX_COMMAND_QUEUE + 1
  }

  predicate Located(s: Sys) {
    && CommandsLocated(s.core)
    && AcksLocated(s.core)
    && WorkerLocated(s.core, s.worker)
    && HandLocated(s.hand, s.core.generation)
    && Fenced(s.core)
    && TablesBounded(s.core, s.worker)
  }

  // ---- What is conserved ----

  /** Each ticket issued so far is in exactly one place, and once. */
  ghost predicate Conserved(s: Sys) {
    forall t: nat :: Accounted(s)[t] == if t < s.nextTicket then 1 else 0
  }

  /** There is one credit for each ticket that is held or lost. */
  predicate Balanced(s: Sys) { s.core.reservations == |Held(s)| + |s.book.lost| }

  function Issued(s: Sys, t: Sys): multiset<nat> { One(t.nextTicket != s.nextTicket, s.nextTicket) }

  /** A step takes in the ticket it issues, if any, pays others off and loses the rest. */
  predicate Flow(s: Sys, t: Sys, paid: multiset<nat>, lost: multiset<nat>) {
    && Held(t) + paid + lost == Held(s) + Issued(s, t)
    && t.book.lost == s.book.lost + lost
    && multiset(t.book.results) + t.book.cancelled + t.book.superseded ==
      multiset(s.book.results) + s.book.cancelled + s.book.superseded + paid
    && t.core.reservations + |paid| == s.core.reservations + t.nextTicket - s.nextTicket
    && s.nextTicket <= t.nextTicket <= s.nextTicket + 1
  }

  lemma {:induction false} FlowAccounts(s: Sys, t: Sys, paid: multiset<nat>, lost: multiset<nat>, i: nat)
    requires Flow(s, t, paid, lost)
    ensures Accounted(t)[i] == Accounted(s)[i] + Issued(s, t)[i]
  {
    hide Held, Issued;
    assert (Held(t) + paid + lost)[i] == (Held(s) + Issued(s, t))[i];
    assert (multiset(t.book.results) + t.book.cancelled + t.book.superseded)[i] ==
      (multiset(s.book.results) + s.book.cancelled + s.book.superseded + paid)[i];
    assert t.book.lost[i] == (s.book.lost + lost)[i];
  }

  lemma {:induction false} FlowBalances(s: Sys, t: Sys, paid: multiset<nat>, lost: multiset<nat>)
    requires Flow(s, t, paid, lost) && Balanced(s)
    ensures Balanced(t)
  {
    hide Held, One;
    OneSize(t.nextTicket != s.nextTicket, s.nextTicket);
    assert |Held(t) + paid + lost| == |Held(s) + Issued(s, t)|;
  }

  lemma {:induction false} FlowConserves(s: Sys, t: Sys, paid: multiset<nat>, lost: multiset<nat>, i: nat)
    requires Flow(s, t, paid, lost) && Conserved(s)
    ensures Accounted(t)[i] == if i < t.nextTicket then 1 else 0
  {
    hide Held;
    hide Accounted;
    FlowAccounts(s, t, paid, lost, i);
    assert Accounted(s)[i] == if i < s.nextTicket then 1 else 0;
  }

  lemma {:induction false} FlowKeeps(s: Sys, t: Sys, paid: multiset<nat>, lost: multiset<nat>)
    requires Flow(s, t, paid, lost) && Balanced(s) && Conserved(s)
    ensures Balanced(t) && Conserved(t)
  {
    hide Accounted, Flow;
    FlowBalances(s, t, paid, lost);
    forall i: nat ensures Accounted(t)[i] == if i < t.nextTicket then 1 else 0 {
      FlowConserves(s, t, paid, lost, i);
    }
  }

  /** Who holds what: stated so that the proofs below need not look inside. */
  lemma {:induction false} WorkerHolds(worker: Worker, generation: nat)
    ensures worker.Ticket().None? ==> WorkerTickets(worker, generation) == multiset{}
    ensures worker.Ticket().Some? ==>
      WorkerTickets(worker, generation) == One(worker.generation == generation, worker.Ticket().value)
  {
  }

  // ---- Flows of the user's steps ----

  /** One more command at the end, of the current generation, with a credit of its own. */
  predicate Admits(c: Core, d: Core, kind: CommandKind, ticket: nat) {
    && !c.stopping && c.configGeneration == c.generation && |c.commands| < MAX_COMMAND_QUEUE
    && |d.commands| == |c.commands| + 1 && d.commands == c.commands + [d.commands[|c.commands|]]
    && d.commands[|c.commands|].ticket == ticket && d.commands[|c.commands|].generation == c.generation
    && d.commands[|c.commands|].reserved && d.commands[|c.commands|].kind == kind
    && d.reservations == c.reservations + 1
  }

  lemma {:induction false} EnqueueEffect(c: Core, kind: CommandKind, argument: string, secondArgument: string,
    requestId: string, clientRevision: nat, now: int, ticket: nat)
    ensures var (ok, d) := Enqueue(c, kind, argument, secondArgument, requestId, clientRevision, now, ticket);
      d == c.(inbound := d.inbound, commands := d.commands, reservations := d.reservations, nextSequence := d.nextSequence)
    ensures var (ok, d) := Enqueue(c, kind, argument, secondArgument, requestId, clientRevision, now, ticket);
      !ok ==> d.commands == c.commands && d.reservations == c.reservations && d.nextSequence == c.nextSequence
    ensures var (ok, d) := Enqueue(c, kind, argument, secondArgument, requestId, clientRevision, now, ticket);
      ok ==> Admits(c, d, kind, ticket)
  {
    hide Reserve;
    ReserveKeeps(c);
  }

  predicate SamePlaces(s: Sys, t: Sys) {
    t.core.latest == s.core.latest && t.core.acks == s.core.acks && t.core.nextAckId == s.core.nextAckId &&
    t.hand == s.hand && t.worker == s.worker && t.core.generation == s.core.generation && t.book == s.book
  }

  lemma {:induction false} IssueFlow(s: Sys, t: Sys)
    requires SamePlaces(s, t)
    requires t.nextTicket == s.nextTicket ==>
      t.core.commands == s.core.commands && t.core.reservations == s.core.reservations
    requires t.nextTicket != s.nextTicket ==>
      t.nextTicket == s.nextTicket + 1 && |t.core.commands| == |s.core.commands| + 1 &&
      t.core.commands == s.core.commands + [t.core.commands[|s.core.commands|]] &&
      t.core.commands[|s.core.commands|].ticket == s.nextTicket && t.core.reservations == s.core.reservations + 1
    ensures Flow(s, t, multiset{}, multiset{})
  {
    hide CommandTickets, AckTickets, HandTickets, WorkerTickets, LatestTickets, One;
    OneSize(false, s.nextTicket);
    if t.nextTicket != s.nextTicket {
      var command := t.core.commands[|s.core.commands|];
      CommandsConcat(s.core.commands, [command]);
      OneCommand(command);
    }
  }

  lemma {:induction false} EnqueueFlow(s: Sys, kind: CommandKind, argument: string, secondArgument: string,
    requestId: string, clientRevision: nat, now: int)
    ensures Flow(s, EnqueueNext(s, kind, argument, secondArgument, requestId, clientRevision, now), multiset{}, multiset{})
  {
    hide Enqueue, Flow;
    EnqueueEffect(s.core, kind, argument, secondArgument, requestId, clientRevision, now, s.nextTicket);
    IssueFlow(s, EnqueueNext(s, kind, argument, secondArgument, requestId, clientRevision, now));
  }

  lemma {:induction false} JoinRoomFlow(s: Sys, roomId: string, name: string, now: int)
    ensures Flow(s, JoinRoomNext(s, roomId, name, now), multiset{}, multiset{})
  {
    hide Enqueue, Flow;
    EnqueueEffect(s.core, JoinRoom, roomId, name, "", 0, now, s.nextTicket);
    IssueFlow(s, JoinRoomNext(s, roomId, name, now));
  }

  lemma {:induction false} LeaveRoomFlow(s: Sys, now: int)
    ensures Flow(s, LeaveRoomNext(s, now), multiset{}, multiset{})
  {
    hide Enqueue, Flow;
    EnqueueEffect(s.core, LeaveRoom, "", "", "", 0, now, s.nextTicket);
    IssueFlow(s, LeaveRoomNext(s, now));
  }

  lemma {:induction false} HandGains(hand: seq<Owed>, owed: Owed, generation: nat)
    ensures HandTickets(hand + [owed], generation) ==
      HandTickets(hand, generation) + One(owed.generation == generation, owed.ticket)
  {
    hide HandTickets;
    HandConcat(hand, [owed], generation);
    OneOwed(owed, generation);
  }

  lemma {:induction false} UploadRejectedFlow(s: Sys, generation: nat)
    ensures Flow(s, UploadRejectedNext(s, generation), multiset{}, multiset{})
  {
    hide CommandTickets, AckTickets, HandTickets, WorkerTickets, LatestTickets, Reserve, One;
    ReserveKeeps(s.core);
    OneSize(false, s.nextTicket);
    HandGains(s.hand, Owed(generation, SnapshotUploadResult, s.nextTicket), s.core.generation);
  }

  lemma {:induction false} UploadFlow(s: Sys, generation: nat, clientRevision: nat, jsonText: string)
    requires CommandsLocated(s.core)
    ensures Flow(s, UploadNext(s, generation, clientRevision, jsonText), multiset{}, multiset{})
  {
    hide CommandTickets, AckTickets, HandTickets, WorkerTickets, Reserve, One;
    ReserveKeeps(s.core);
    OneSize(false, s.nextTicket);
    if s.core.latest.Some? {
      var replaced := s.core.latest.value;
      HandGains(s.hand, Owed(replaced.generation, SnapshotUploadResult, replaced.ticket), s.core.generation);
    }
  }

  // ---- Cancelling ----

  lemma {:induction false} KeepSame(commands: seq<Command>, p: Command -> bool, q: Command -> bool)
    requires forall command | command in commands :: p(command) == q(command)
    ensures KeepCommands(commands, p) == KeepCommands(commands, q)
  {
    if commands != [] {
      assert commands[0] in commands;
      KeepSame(commands[1..], p, q);
    }
  }

  lemma {:induction false} CancelledCommands(commands: seq<Command>, requestId: string)
    requires forall command | command in commands :: command.reserved
    ensures var kept := KeepCommands(commands, NotCancelled(requestId));
      var gone := KeepCommands(commands, Cancelled(requestId));
      CommandTickets(commands) == CommandTickets(kept) + CommandTickets(gone) &&
      |KeepCommands(commands, Frees(requestId))| == |CommandTickets(gone)|
  {
    hide CommandTickets, KeepCommands;
    KeepSplits(commands, NotCancelled(requestId), Cancelled(requestId));
    KeepSame(commands, Frees(requestId), Cancelled(requestId));
    CommandsSize(KeepCommands(commands, Cancelled(requestId)));
  }

  lemma {:induction false} CancelledPending(acks: map<nat, PendingAck>, requestId: string, n: nat)
    requires forall id: nat | id in acks :: id < n && acks[id].reserved
    ensures var gone := CancelledAcks(acks, requestId);
      AckTickets(acks, n) == AckTickets(KeptAcks(acks, requestId), n) + AckTickets(gone, n) &&
      |FreedAcks(acks, requestId)| == |AckTickets(gone, n)|
  {
    hide AckTickets;
    var gone := CancelledAcks(acks, requestId);
    AcksSplit(acks, KeptAcks(acks, requestId), gone, n);
    AcksSize(gone, n);
    assert FreedAcks(acks, requestId) == gone.Keys;
  }

  function CancelPaid(c: Core, requestId: string): multiset<nat> {
    CommandTickets(KeepCommands(c.commands, Cancelled(requestId))) +
    AckTickets(CancelledAcks(c.acks, requestId), c.nextAckId)
  }

  lemma {:induction false} CancelCredits(s: Sys, requestId: string)
    requires CommandsLocated(s.core) && AcksLocated(s.core) && Balanced(s)
    ensures CancelRequest(s.core, requestId).reservations + |CancelPaid(s.core, requestId)| == s.core.reservations
    ensures Held(CancelNext(s, requestId)) + CancelPaid(s.core, requestId) == Held(s)
  {
    hide CommandTickets, AckTickets, HandTickets, WorkerTickets, LatestTickets, KeepCommands, CancelledAcks, KeptAcks,
      FreedAcks, One;
    CancelledCommands(s.core.commands, requestId);
    CancelledPending(s.core.acks, requestId, s.core.nextAckId);
  }

  lemma {:induction false} CancelFlow(s: Sys, requestId: string)
    requires CommandsLocated(s.core) && AcksLocated(s.core) && Balanced(s)
    ensures Flow(s, CancelNext(s, requestId), CancelPaid(s.core, requestId), multiset{})
  {
    hide Held, CommandTickets, AckTickets, KeepCommands, CancelledAcks, FreedAcks, KeptAcks, One, CommandsLocated,
      AcksLocated, Balanced;
    CancelCredits(s, requestId);
    OneSize(false, s.nextTicket);
  }

  // ---- Steps that move no ticket ----

  lemma {:induction false} StillFlow(s: Sys, t: Sys)
    requires t.core.commands == s.core.commands && t.core.latest == s.core.latest && t.core.acks == s.core.acks
    requires t.core.nextAckId == s.core.nextAckId && t.core.generation == s.core.generation && t.hand == s.hand
    requires t.book == s.book && t.core.reservations == s.core.reservations && t.nextTicket == s.nextTicket
    requires t.worker == s.worker || (s.worker.Ticket().None? && t.worker.Ticket().None?)
    ensures Flow(s, t, multiset{}, multiset{})
  {
    hide CommandTickets, AckTickets, HandTickets, LatestTickets, WorkerTickets, One;
    WorkerHolds(s.worker, s.core.generation);
    WorkerHolds(t.worker, s.core.generation);
    OneSize(false, s.nextTicket);
  }

  lemma {:induction false} NotifyFlow(s: Sys, m: InboundMessage)
    requires InboundHolds(s) && m.stamp == s.feed.nextStamp && !m.IsProtected()
    ensures Flow(s, NotifyNext(s, m), multiset{}, multiset{})
  {
    hide Healthy, EnqueueInbound, Flow;
    if m.generation != s.core.generation { StaleIsIgnored(s.core, m, false); }
    else { NotificationStaysHealthy(s.core, s.feed, m); }
    StillFlow(s, NotifyNext(s, m));
  }

  // ---- Flows of the worker's steps ----

  lemma {:induction false} PopRegistrationFlow(s: Sys)
    requires CommandsLocated(s.core) && s.worker.Idle?
    ensures Flow(s, PopRegistrationNext(s), multiset{}, multiset{})
  {
    hide CommandTickets, AckTickets, HandTickets, LatestTickets, WorkerTickets, One, FirstRegistration;
    FirstRegistrationFinds(s.core.commands, s.worker.generation);
    var found := FirstRegistration(s.core.commands, s.worker.generation);
    if found.Some? {
      CommandsWithout(s.core.commands, found.value);
      assert s.core.commands[found.value] in s.core.commands;
    }
    WorkerHolds(s.worker, s.core.generation);
    WorkerHolds(PopRegistrationNext(s).worker, s.core.generation);
    OneSize(false, s.nextTicket);
  }

  lemma {:induction false} OweFlow(s: Sys, kind: MessageType)
    requires s.worker.Ticket().Some?
    ensures Flow(s, OweWorker(s, kind), multiset{}, multiset{})
  {
    hide CommandTickets, AckTickets, HandTickets, LatestTickets, WorkerTickets, One;
    HandGains(s.hand, Owed(s.worker.generation, kind, s.worker.Ticket().value), s.core.generation);
    WorkerHolds(s.worker, s.core.generation);
    WorkerHolds(OweWorker(s, kind).worker, s.core.generation);
    OneSize(false, s.nextTicket);
  }

  lemma {:induction false} LoseFlow(s: Sys)
    ensures Flow(s, LoseWorker(s), multiset{}, WorkerTickets(s.worker, s.core.generation))
  {
    hide CommandTickets, AckTickets, HandTickets, LatestTickets, WorkerTickets, One;
    WorkerHolds(LoseWorker(s).worker, s.core.generation);
    OneSize(false, s.nextTicket);
  }

  lemma {:induction false} SkipIsSuffix(commands: seq<Command>, generation: nat)
    ensures commands == PoppedStale(commands, generation) + SkipStale(commands, generation)
    ensures forall command | command in PoppedStale(commands, generation) :: command.generation != generation
  {
    if commands != [] && commands[0].generation != generation {
      SkipIsSuffix(commands[1..], generation);
      assert PoppedStale(commands, generation) == [commands[0]] + PoppedStale(commands[1..], generation);
    }
  }

  lemma {:induction false} TakeParts(c: Core, generation: nat)
    requires CommandsLocated(c)
    ensures var rest := SkipStale(c.commands, generation);
      CommandTickets(c.commands) == CommandTickets(PoppedStale(c.commands, generation)) + CommandTickets(rest) &&
      (rest != [] ==> CommandTickets(rest) == One(true, rest[0].ticket) + CommandTickets(rest[1..])) &&
      (rest != [] ==> generation == c.generation && rest[0].reserved)
  {
    hide SkipStale, PoppedStale;
    var rest := SkipStale(c.commands, generation);
    SkipIsSuffix(c.commands, generation);
    CommandsConcat(PoppedStale(c.commands, generation), rest);
    if rest != [] { assert rest[0] in c.commands; }
  }

  lemma {:induction false} TakeFlow(s: Sys)
    requires CommandsLocated(s.core) && s.worker.Idle?
    ensures Flow(s, TakeNext(s), multiset{}, CommandTickets(PoppedStale(s.core.commands, s.worker.generation)))
  {
    hide CommandTickets, AckTickets, HandTickets, LatestTickets, SkipStale, PoppedStale, CommandsLocated, WorkerTickets,
      One;
    TakeParts(s.core, s.worker.generation);
    WorkerHolds(s.worker, s.core.generation);
    WorkerHolds(TakeNext(s).worker, s.core.generation);
    OneSize(false, s.nextTicket);
  }

  lemma {:induction false} AllocateFlow(s: Sys)
    requires AcksLocated(s.core) && (s.worker.Sending? || s.worker.Uploading?)
    ensures Flow(s, AllocateAckNext(s), multiset{}, multiset{})
  {
    hide CommandTickets, AckTickets, HandTickets, LatestTickets, WorkerTickets, One;
    WorkerHolds(s.worker, s.core.generation);
    WorkerHolds(AllocateAckNext(s).worker, s.core.generation);
    OneSize(false, s.nextTicket);
    AcksWiden(s.core.acks, s.core.nextAckId, s.core.nextAckId + 1);
  }

  /** The worker's operation becomes a pending acknowledgement. */
  lemma {:induction false} TrackFlow(s: Sys, t: Sys, id: nat, pending: PendingAck)
    requires id !in s.core.acks && id < s.core.nextAckId
    requires s.worker.Ticket() == Some(pending.ticket) && s.worker.generation == s.core.generation
    requires t.core.commands == s.core.commands && t.core.latest == s.core.latest && t.core.nextAckId == s.core.nextAckId
    requires t.core.acks == s.core.acks[id := pending] && t.core.generation == s.core.generation && t.hand == s.hand
    requires t.book == s.book && t.core.reservations == s.core.reservations && t.nextTicket == s.nextTicket
    requires t.worker.Ticket().None?
    ensures Flow(s, t, multiset{}, multiset{})
  {
    hide CommandTickets, AckTickets, HandTickets, LatestTickets, WorkerTickets, One;
    WorkerHolds(s.worker, s.core.generation);
    WorkerHolds(t.worker, s.core.generation);
    OneSize(false, s.nextTicket);
    AckAdded(s.core.acks, id, pending, s.core.nextAckId);
  }

  lemma {:induction false} CommitFlow(s: Sys, now: int)
    requires WorkerLocated(s.core, s.worker) && Enabled(s, CommitAckStep(now))
    ensures Flow(s, CommitAckNext(s, now), multiset{}, multiset{})
  {
    hide Flow;
    var command := s.worker.command;
    TrackFlow(s, CommitAckNext(s, now), s.worker.ack.value, PendingAck(command.kind, command.requestId,
      command.clientRevision, now + ACK_TIMEOUT, command.sequence, command.reserved, command.ticket));
  }

  lemma {:induction false} CommitSnapshotFlow(s: Sys, now: int)
    requires WorkerLocated(s.core, s.worker) && Enabled(s, CommitSnapshotStep(now))
    ensures Flow(s, CommitSnapshotNext(s, now), multiset{}, multiset{})
  {
    hide Flow;
    var snapshot := s.worker.snapshot;
    TrackFlow(s, CommitSnapshotNext(s, now), s.worker.ack.value, PendingAck(UploadSnapshot, "",
      snapshot.clientRevision, now + ACK_TIMEOUT, 0, snapshot.reserved, snapshot.ticket));
  }

  lemma {:induction false} WorkerIsCovered(s: Sys)
    requires Balanced(s) && s.worker.Ticket().Some? && s.worker.generation == s.core.generation
    ensures s.core.reservations > 0
  {
    hide CommandTickets, AckTickets, HandTickets, LatestTickets, WorkerTickets, One;
    WorkerHolds(s.worker, s.core.generation);
    OneSize(true, s.worker.Ticket().value);
  }

  lemma {:induction false} SendFailFlow(s: Sys)
    requires WorkerLocated(s.core, s.worker) && Balanced(s) && s.worker.Sending?
    ensures Flow(s, SendFailNext(s),
      if s.worker.remembered then WorkerTickets(s.worker, s.core.generation) else multiset{}, multiset{})
  {
    hide CommandTickets, AckTickets, HandTickets, LatestTickets, WorkerTickets, One, Balanced;
    if s.worker.generation == s.core.generation { WorkerIsCovered(s); }
    WorkerHolds(s.worker, s.core.generation);
    WorkerHolds(SendFailNext(s).worker, s.core.generation);
    OneSize(false, s.nextTicket);
    OneSize(s.worker.generation == s.core.generation, s.worker.command.ticket);
    CommandsConcat([s.worker.command], s.core.commands);
    OneCommand(s.worker.command);
  }

  lemma {:induction false} TakeSnapshotFlow(s: Sys)
    requires s.worker.Idle?
    ensures Flow(s, TakeSnapshotNext(s), multiset{}, multiset{})
  {
    hide CommandTickets, AckTickets, HandTickets, WorkerTickets, One;
    WorkerHolds(s.worker, s.core.generation);
    WorkerHolds(TakeSnapshotNext(s).worker, s.core.generation);
    OneSize(false, s.nextTicket);
  }

  lemma {:induction false} SnapshotFailFlow(s: Sys)
    requires WorkerLocated(s.core, s.worker) && s.worker.Uploading?
    ensures Flow(s, SnapshotFailNext(s), multiset{}, multiset{})
  {
    hide CommandTickets, AckTickets, HandTickets, WorkerTickets, One;
    OweFlow(s, SnapshotUploadResult);
    if !(s.core.generation == s.worker.generation && s.core.latest.Some?) {
      WorkerHolds(s.worker, s.core.generation);
      WorkerHolds(SnapshotFailNext(s).worker, s.core.generation);
      OneSize(false, s.nextTicket);
      OneSize(false, s.worker.snapshot.ticket);
    }
  }

  lemma {:induction false} AckIsBelow(c: Core, id: nat)
    requires AcksLocated(c) && id in c.acks
    ensures id < c.nextAckId && c.acks[id].reserved
  {
  }

  /** A pending acknowledgement becomes a result in hand. */
  lemma {:induction false} AnsweredFlow(s: Sys, t: Sys, id: nat, kind: MessageType)
    requires AcksLocated(s.core) && id in s.core.acks && t.core.acks == s.core.acks - {id}
    requires t.core.commands == s.core.commands && t.core.latest == s.core.latest && t.core.nextAckId == s.core.nextAckId
    requires t.core.generation == s.core.generation
    requires t.hand == s.hand + [Owed(s.core.generation, kind, s.core.acks[id].ticket)]
    requires t.book == s.book && t.core.reservations == s.core.reservations && t.nextTicket == s.nextTicket
    requires s.worker.Ticket().None? && t.worker.Ticket().None?
    ensures Flow(s, t, multiset{}, multiset{})
  {
    hide CommandTickets, AckTickets, HandTickets, LatestTickets, WorkerTickets, One, AcksLocated;
    AckIsBelow(s.core, id);
    AckRemoved(s.core.acks, id, s.core.nextAckId);
    HandGains(s.hand, Owed(s.core.generation, kind, s.core.acks[id].ticket), s.core.generation);
    WorkerHolds(s.worker, s.core.generation);
    WorkerHolds(t.worker, s.core.generation);
    OneSize(false, s.nextTicket);
  }

  lemma {:induction false} HandleAckFlow(s: Sys, id: nat, confirmed: Option<string>)
    requires AcksLocated(s.core) && s.worker.Idle?
    ensures Flow(s, HandleAckNext(s, id, confirmed), multiset{}, multiset{})
  {
    hide Flow, AcksLocated;
    var t := HandleAckNext(s, id, confirmed);
    if s.core.generation == s.worker.generation && id in s.core.acks {
      AnsweredFlow(s, t, id, s.core.acks[id].kind.ResultType());
    } else {
      StillFlow(s, t);
    }
  }

  /** Acknowledgements taken out of the table are in hand. */
  lemma {:induction false} AcksToHand(s: Sys, taken: map<nat, PendingAck>)
    ensures s.worker.generation == s.core.generation ==>
      HandTickets(s.hand + AcksOwed(taken, s.core.nextAckId, s.worker.generation), s.core.generation) ==
      HandTickets(s.hand, s.core.generation) + AckTickets(taken, s.core.nextAckId)
    ensures taken == map[] ==> s.hand + AcksOwed(taken, s.core.nextAckId, s.worker.generation) == s.hand
  {
    hide HandTickets, AckTickets;
    AcksBecomeOwed(taken, s.core.nextAckId, s.worker.generation);
    HandConcat(s.hand, AcksOwed(taken, s.core.nextAckId, s.worker.generation), s.core.generation);
    NoAcksOwed(s.core.nextAckId, s.worker.generation);
  }

  lemma {:induction false} NoAcksOwed(n: nat, generation: nat)
    ensures AcksOwed(map[], n, generation) == []
  {
    if n != 0 { NoAcksOwed(n - 1, generation); }
  }

  lemma {:induction false} ExpireSplits(c: Core, generation: nat, now: int)
    requires c.generation == generation
    ensures var (expired, d) := ExpireAcks(c, generation, now);
      AckTickets(c.acks, c.nextAckId) == AckTickets(d.acks, c.nextAckId) + AckTickets(expired, c.nextAckId)
  {
    hide AckTickets;
    var (expired, d) := ExpireAcks(c, generation, now);
    AcksSplit(c.acks, d.acks, expired, c.nextAckId);
  }

  lemma {:induction false} ExpireChanges(c: Core, generation: nat, now: int)
    ensures var (expired, d) := ExpireAcks(c, generation, now);
      d == c.(acks := d.acks, joinPending := d.joinPending, joinInFlight := d.joinInFlight) &&
      (c.generation != generation ==> expired == map[] && d == c)
  {
  }

  lemma {:induction false} ExpireAcksFlow(s: Sys, now: int)
    requires s.worker.Idle?
    ensures Flow(s, ExpireAcksNext(s, now), multiset{}, multiset{})
  {
    hide CommandTickets, AckTickets, HandTickets, LatestTickets, WorkerTickets, AcksOwed, One, ExpireAcks;
    var (expired, core) := ExpireAcks(s.core, s.worker.generation, now);
    if s.core.generation == s.worker.generation { ExpireSplits(s.core, s.worker.generation, now); }
    AcksToHand(s, expired);
    OneSize(false, s.nextTicket);
    ExpireChanges(s.core, s.worker.generation, now);
  }

  lemma {:induction false} FailAcksFlow(s: Sys)
    requires s.worker.Idle?
    ensures Flow(s, FailAcksNext(s), multiset{}, multiset{})
  {
    hide CommandTickets, AckTickets, HandTickets, LatestTickets, WorkerTickets, AcksOwed, One;
    AcksToHand(s, FailAcks(s.core, s.worker.generation).0);
    NoAcks(s.core.nextAckId);
    OneSize(false, s.nextTicket);
  }

  lemma {:induction false} QueuedToHand(s: Sys, selected: Command -> bool)
    requires CommandsLocated(s.core) && s.worker.generation == s.core.generation
    ensures var (taken, core) := TakeQueued(s.core, s.worker.generation, selected);
      HandTickets(s.hand + CommandsOwed(taken), s.core.generation) ==
      HandTickets(s.hand, s.core.generation) + CommandTickets(taken) &&
      CommandTickets(s.core.commands) == CommandTickets(core.commands) + CommandTickets(taken)
  {
    hide CommandTickets, HandTickets, CommandsOwed;
    var (taken, core) := TakeQueued(s.core, s.worker.generation, selected);
    KeepSplits(s.core.commands, selected, command => !selected(command));
    KeepKeeps(s.core.commands, selected);
    CommandsBecomeOwed(taken, s.core.generation);
    HandConcat(s.hand, CommandsOwed(taken), s.core.generation);
  }

  lemma {:induction false} NothingToHand(hand: seq<Owed>)
    ensures hand + CommandsOwed([]) == hand
  {
  }

  lemma {:induction false} TakeQueuedFlow(s: Sys, selected: Command -> bool)
    requires CommandsLocated(s.core) && s.worker.Idle?
    ensures Flow(s, TakeQueuedNext(s, selected), multiset{}, multiset{})
  {
    hide CommandTickets, AckTickets, HandTickets, LatestTickets, WorkerTickets, CommandsOwed, One, KeepCommands,
      CommandsLocated;
    if s.core.generation == s.worker.generation {
      QueuedToHand(s, selected);
      var (taken, core) := TakeQueued(s.core, s.worker.generation, selected);
      assert TakeQueuedNext(s, selected).hand == s.hand + CommandsOwed(taken);
      OneSize(false, s.nextTicket);
    } else {
      NothingToHand(s.hand);
      assert TakeQueuedNext(s, selected).hand == s.hand;
      StillFlow(s, TakeQueuedNext(s, selected));
    }
  }

  lemma {:induction false} ClearAcksFlow(s: Sys)
    ensures Flow(s, ClearAcksNext(s), multiset{}, AckTickets(s.core.acks, s.core.nextAckId))
  {
    hide CommandTickets, AckTickets, HandTickets, LatestTickets, WorkerTickets, One;
    NoAcks(1);
    OneSize(false, s.nextTicket);
  }

  lemma {:induction false} PrepareJoinFlow(s: Sys)
    requires s.worker.Idle?
    ensures Flow(s, PrepareJoinNext(s), multiset{}, multiset{})
  {
    hide CommandTickets, AckTickets, HandTickets, LatestTickets, WorkerTickets, One, Reserve, HasJoinCommandOrAck;
    ReserveKeeps(s.core);
    WorkerHolds(s.worker, s.core.generation);
    WorkerHolds(PrepareJoinNext(s).worker, s.core.generation);
    OneSize(false, s.nextTicket);
  }

  /** A result in hand of the current generation always finds its credit. */
  lemma {:induction false} HandIsCovered(s: Sys, i: nat)
    requires Balanced(s) && i < |s.hand| && s.hand[i].generation == s.core.generation
    ensures s.core.reservations > 0
  {
    hide CommandTickets, AckTickets, HandTickets, LatestTickets, WorkerTickets, One;
    HandWithout(s.hand, i, s.core.generation);
    OneSize(true, s.hand[i].ticket);
  }

  lemma {:induction false} DeliverHeld(s: Sys, i: nat, t: Sys)
    requires i < |s.hand| && t.hand == s.hand[..i] + s.hand[i + 1..] && t.worker == s.worker
    requires t.core == s.core.(inbound := t.core.inbound, queued := t.core.queued, reservations := t.core.reservations)
    ensures Held(t) + One(s.hand[i].generation == s.core.generation, s.hand[i].ticket) == Held(s)
  {
    hide CommandTickets, AckTickets, HandTickets, LatestTickets, WorkerTickets, One;
    HandWithout(s.hand, i, s.core.generation);
  }

  lemma {:induction false} ResultsGain(results: seq<nat>, ticket: nat)
    ensures multiset(results + [ticket]) == multiset(results) + One(true, ticket)
  {
  }

  lemma {:induction false} DeliverFlow(s: Sys, i: nat, serialized: string)
    requires InboundHolds(s) && HandLocated(s.hand, s.core.generation) && Balanced(s) && i < |s.hand|
    ensures Flow(s, DeliverNext(s, i, serialized),
      One(s.hand[i].generation == s.core.generation, s.hand[i].ticket), multiset{})
  {
    hide Held, Notify, InboundHolds, Balanced, One;
    assert s.hand[i] in s.hand;
    DeliverCases(s, i, serialized);
    DeliverHeld(s, i, DeliverNext(s, i, serialized));
    if s.hand[i].generation == s.core.generation { HandIsCovered(s, i); }
    OneSize(false, s.nextTicket);
    OneSize(s.hand[i].generation == s.core.generation, s.hand[i].ticket);
    ResultsGain(s.book.results, s.hand[i].ticket);
  }

  // ---- A new configuration ----

  lemma {:induction false} SupersedeHoldsNothing(s: Sys, core: Core)
    requires WorkerLocated(s.core, s.worker) && HandLocated(s.hand, s.core.generation)
    requires s.core.generation < core.generation
    requires core.commands == [] && core.latest.None? && core.acks == map[]
    ensures Held(Supersede(s, core)) == multiset{}
  {
    hide AckTickets, HandTickets, WorkerTickets;
    HandOfOthers(s.hand, core.generation);
    NoAcks(core.nextAckId);
    WorkerHolds(s.worker, core.generation);
    if s.worker.Ticket().Some? { OneSize(false, s.worker.Ticket().value); }
  }

  /** What the new configuration discards is recorded as superseded, and the credits start afresh. */
  lemma {:induction false} SupersedeAccounts(s: Sys, core: Core)
    requires WorkerLocated(s.core, s.worker) && HandLocated(s.hand, s.core.generation)
    requires Conserved(s) && s.core.generation < core.generation
    requires core.commands == [] && core.latest.None? && core.acks == map[] && core.reservations == 0
    ensures Balanced(Supersede(s, core)) && Conserved(Supersede(s, core))
  {
    hide Held;
    SupersedeHoldsNothing(s, core);
    var t := Supersede(s, core);
    forall i: nat ensures Accounted(t)[i] == if i < t.nextTicket then 1 else 0 {
      assert Accounted(t)[i] == Accounted(s)[i];
    }
  }
}
