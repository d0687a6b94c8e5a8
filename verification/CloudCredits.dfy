/** What every operation of the client object keeps: the bounds, where things belong, and one credit
    for each entry of the tables. The credits beyond these, the spare ones, belong to the threads that
    took an entry out and still have to answer it. */
module CloudCredits {
  import opened Options
  import opened CloudQueue
  import opened CloudTickets
  import opened CloudRuns
  import opened CloudInbound
  import opened CloudLedger
  import opened CloudPlaces
  import opened CloudSafety
  import opened CloudRemembered

  // ---- The invariant ----

  predicate Tidy(inbound: seq<InboundMessage>, queued: nat, generation: nat) {
    AllCurrent(inbound, generation) && queued == ProtectedCount(inbound)
  }

  predicate TablesFit(c: Core) {
    CommandsLocated(c) && AcksLocated(c) && |c.commands| <= MAX_COMMAND_QUEUE + 1 && |c.acks| <= MAX_PENDING_ACKS
  }

  /** A room is remembered for this configuration only, and a join in flight is a pending one. */
  predicate RoomFits(c: Core) {
    && (c.desired.Some? ==> c.desired.value.generation == c.generation)
    && (c.joinPending.Some? ==> c.joinPending.value == c.generation && c.desired.Some?)
    && (c.joinInFlight.Some? ==> c.joinPending == c.joinInFlight)
  }

  /** The entries that wait in the tables. */
  function Entries(c: Core): nat { |c.commands| + |c.acks| + if c.latest.Some? then 1 else 0 }

  function Spare(c: Core): int { c.reservations - Entries(c) }

  predicate Fits(c: Core) {
    Tidy(c.inbound, c.queued, c.generation) && Bounded(c) && TablesFit(c) && RoomFits(c) && Fenced(c) && Spare(c) >= 0
  }

  // ---- The inbound queue and the credits ----

  lemma {:induction false} DropTidies(inbound: seq<InboundMessage>, queued: nat, generation: nat)
    requires Tidy(inbound, queued, generation)
    ensures match DropOldestNotification(inbound)
      case None => queued == |inbound|
      case Some(rest) => Tidy(rest, queued, generation) && |rest| == |inbound| - 1
  {
    hide DropOldestNotification;
    var i := DropIsWithout(inbound);
    if DropOldestNotification(inbound).Some? { CountWithout(inbound, i); } else { CountAll(inbound); }
  }

  lemma {:induction false} RoomIsMade(inbound: seq<InboundMessage>, queued: nat, generation: nat, reservations: nat)
    requires Tidy(inbound, queued, generation) && queued + reservations < MAX_PROTECTED_RESULTS
    ensures var (ok, rest) := MakeRoom(inbound, reservations);
      ok && Tidy(rest, queued, generation) && |rest| + reservations < MAX_INBOUND_QUEUE
    decreases |inbound|
  {
    hide Tidy;
    if |inbound| + reservations >= MAX_INBOUND_QUEUE {
      DropTidies(inbound, queued, generation);
      DropShrinks(inbound);
      if DropOldestNotification(inbound).Some? {
        RoomIsMade(DropOldestNotification(inbound).value, queued, generation, reservations);
      }
    }
  }

  /** The tables are the same. */
  lemma {:induction false} TablesOnly(c: Core, d: Core)
    requires d.commands == c.commands && d.latest == c.latest && d.acks == c.acks && d.nextAckId == c.nextAckId
    requires d.generation == c.generation
    ensures CommandsLocated(d) == CommandsLocated(c) && AcksLocated(d) == AcksLocated(c)
  {
  }

  /** A credit is given exactly while fewer than 96 results are queued or promised. */
  lemma {:induction false} ReserveFits(c: Core)
    requires Fits(c)
    ensures Reserve(c).0 <==> c.queued + c.reservations < MAX_PROTECTED_RESULTS
    ensures Fits(Reserve(c).1) && Spare(Reserve(c).1) == Spare(c) + if Reserve(c).0 then 1 else 0
  {
    hide Tidy, CommandsLocated, AcksLocated;
    ReserveKeeps(c);
    TablesOnly(c, Reserve(c).1);
    if c.queued + c.reservations < MAX_PROTECTED_RESULTS { RoomIsMade(c.inbound, c.queued, c.generation, c.reservations); }
  }

  lemma {:induction false} ReleaseFits(c: Core, reserved: bool)
    requires Fits(c) && (reserved ==> Spare(c) > 0)
    ensures Fits(Release(c, reserved)) && Spare(Release(c, reserved)) == Spare(c) - if reserved then 1 else 0
  {
    hide Tidy, CommandsLocated, AcksLocated;
    TablesOnly(c, Release(c, reserved));
  }

  lemma {:induction false} AppendTidies(inbound: seq<InboundMessage>, queued: nat, generation: nat, m: InboundMessage)
    requires Tidy(inbound, queued, generation) && m.generation == generation
    ensures Tidy(inbound + [m], queued + if m.IsProtected() then 1 else 0, generation)
  {
    CountConcat(inbound, [m]);
    assert [m][1..] == [];
  }

  lemma {:induction false} ReplaceTidies(inbound: seq<InboundMessage>, queued: nat, generation: nat, i: nat, serialized: string)
    requires Tidy(inbound, queued, generation) && i < |inbound|
    ensures Tidy(inbound[i := inbound[i].(serialized := serialized)], queued, generation)
  {
    CountReplace(inbound, i, serialized);
    assert inbound[i] in inbound;
  }

  /** The message is a result that is still wanted. */
  predicate Wanted(c: Core, m: InboundMessage, reserved: bool) {
    m.generation == c.generation && m.IsProtected() && reserved
  }

  lemma {:induction false} WantedFits(c: Core, m: InboundMessage)
    requires Fits(c) && Wanted(c, m, true) && Spare(c) > 0
    ensures EnqueueInbound(c, m, true) ==
      c.(reservations := c.reservations - 1, queued := c.queued + 1, inbound := c.inbound + [m])
    ensures Fits(EnqueueInbound(c, m, true)) && Spare(EnqueueInbound(c, m, true)) == Spare(c) - 1
  {
    hide Tidy, CommandsLocated, AcksLocated;
    AppendTidies(c.inbound, c.queued, c.generation, m);
    TablesOnly(c, EnqueueInbound(c, m, true));
  }

  lemma {:induction false} NoticeTidies(c: Core, m: InboundMessage, reserved: bool)
    requires Tidy(c.inbound, c.queued, c.generation) && Bounded(c) && !Wanted(c, m, reserved)
    ensures var d := EnqueueInbound(c, m, reserved);
      d == c.(inbound := d.inbound) && Tidy(d.inbound, d.queued, d.generation) && Bounded(d)
  {
    hide Tidy, DropOldestNotification, LastMatch;
    LastMatchFinds(c.inbound, m);
    DropTidies(c.inbound, c.queued, c.generation);
    if c.generation == m.generation {
      AppendTidies(c.inbound, c.queued, c.generation, m);
      if LastMatch(c.inbound, m).Some? {
        ReplaceTidies(c.inbound, c.queued, c.generation, LastMatch(c.inbound, m).value, m.serialized);
      }
      if DropOldestNotification(c.inbound).Some? {
        AppendTidies(DropOldestNotification(c.inbound).value, c.queued, c.generation, m);
      }
    }
  }

  /** A wanted result that has a spare credit is always queued, at the end, and pays with the credit. */
  lemma {:induction false} InboundFits(c: Core, m: InboundMessage, reserved: bool)
    requires Fits(c) && (Wanted(c, m, reserved) ==> Spare(c) > 0)
    ensures Fits(EnqueueInbound(c, m, reserved))
    ensures Wanted(c, m, reserved) ==> EnqueueInbound(c, m, reserved).inbound == c.inbound + [m]
    ensures Spare(EnqueueInbound(c, m, reserved)) == Spare(c) - if Wanted(c, m, reserved) then 1 else 0
  {
    hide Tidy, CommandsLocated, AcksLocated, EnqueueInbound;
    if Wanted(c, m, reserved) { WantedFits(c, m); }
    else {
      NoticeTidies(c, m, reserved);
      TablesOnly(c, EnqueueInbound(c, m, reserved));
    }
  }

  /** Handing a message on frees the place of a result. */
  lemma {:induction false} DispatchFits(c: Core)
    requires Fits(c)
    ensures var (m, d) := Dispatch(c);
      Fits(d) && Spare(d) == Spare(c) && (m.None? <==> c.inbound == []) &&
      d.queued == c.queued - if m.Some? && m.value.IsProtected() then 1 else 0
  {
    hide CommandsLocated, AcksLocated;
    TablesOnly(c, Dispatch(c).1);
    if c.inbound != [] {
      CountWithout(c.inbound, 0);
      assert Without(c.inbound, 0) == c.inbound[1..];
    }
  }

  // ---- The user's operations ----

  lemma {:induction false} ConfigureFits(c: Core, serverValid: bool, credentialsValid: bool)
    ensures !c.stopping ==> Fits(Configure(c, serverValid, credentialsValid))
    ensures Fits(StopEnd(c)) && Spare(StopEnd(c)) == Spare(Configure(c, serverValid, credentialsValid)) == 0
    ensures Fits(c) ==> Fits(StopBegin(c)) && Spare(StopBegin(c)) == Spare(c)
  {
    hide CommandsLocated, AcksLocated, Tidy;
    assert Tidy([], 0, c.configGeneration) && Tidy([], 0, c.configGeneration + 1) by { NothingIsTidy(c.configGeneration); }
    TablesOfNothing(StopEnd(c));
    TablesOfNothing(Configure(c, serverValid, credentialsValid));
    TablesOfBegin(c);
  }

  lemma {:induction false} NothingIsTidy(generation: nat)
    ensures Tidy([], 0, generation) && Tidy([], 0, generation + 1)
  {
  }

  lemma {:induction false} TablesOfNothing(c: Core)
    requires c.commands == [] && c.latest.None? && c.acks == map[]
    ensures CommandsLocated(c) && AcksLocated(c)
  {
  }

  lemma {:induction false} TablesOfBegin(c: Core)
    ensures CommandsLocated(StopBegin(c)) == CommandsLocated(c) && AcksLocated(StopBegin(c)) == AcksLocated(c)
  {
  }

  /** The operation may be asked for at all. */
  predicate Open(c: Core, kind: CommandKind) {
    !c.stopping && c.configGeneration == c.generation && c.serverValid && (kind.RegisterDevice? || c.credentialsValid)
  }

  /** A command is accepted exactly if the client is open for it, fewer than 64 commands are queued
      and fewer than 96 results are queued or promised. It brings its own credit. */
  lemma {:induction false} EnqueueFits(c: Core, kind: CommandKind, argument: string, secondArgument: string,
    requestId: string, clientRevision: nat, now: int, ticket: nat)
    requires Fits(c)
    ensures var (ok, d) := Enqueue(c, kind, argument, secondArgument, requestId, clientRevision, now, ticket);
      && (ok <==> Open(c, kind) && |c.commands| < MAX_COMMAND_QUEUE && c.queued + c.reservations < MAX_PROTECTED_RESULTS)
      && Fits(d) && Spare(d) == Spare(c)
  {
    hide Reserve, Tidy, AcksLocated;
    ReserveFits(c);
    ReserveKeeps(c);
    AcksOnly(c, Enqueue(c, kind, argument, secondArgument, requestId, clientRevision, now, ticket).1);
  }

  lemma {:induction false} AcksOnly(c: Core, d: Core)
    requires d.acks == c.acks && d.nextAckId == c.nextAckId
    ensures AcksLocated(d) == AcksLocated(c)
  {
  }

  /** A join is accepted like any other command, and then the room is remembered. */
  lemma {:induction false} JoinFits(c: Core, roomId: string, name: string, now: int, ticket: nat)
    requires Fits(c)
    ensures var (ok, d) := JoinTheRoom(c, roomId, name, now, ticket);
      && (ok <==> Open(c, JoinRoom) && |c.commands| < MAX_COMMAND_QUEUE && c.queued + c.reservations < MAX_PROTECTED_RESULTS)
      && Fits(d) && Spare(d) == Spare(c)
  {
    hide Enqueue, Tidy, AcksLocated, CommandsLocated;
    EnqueueFits(c, JoinRoom, roomId, name, "", 0, now, ticket);
    EnqueueEffect(c, JoinRoom, roomId, name, "", 0, now, ticket);
    RoomOnly(Enqueue(c, JoinRoom, roomId, name, "", 0, now, ticket).1, JoinTheRoom(c, roomId, name, now, ticket).1);
  }

  /** Only what is remembered of the room differs. */
  lemma {:induction false} RoomOnly(c: Core, d: Core)
    requires d == c.(desired := d.desired, joinPending := d.joinPending, joinInFlight := d.joinInFlight)
    ensures CommandsLocated(d) == CommandsLocated(c) && AcksLocated(d) == AcksLocated(c)
  {
  }

  lemma {:induction false} LeaveFits(c: Core, now: int, ticket: nat)
    requires Fits(c)
    ensures var (ok, d) := LeaveTheRoom(c, now, ticket);
      && (ok <==> Open(c, LeaveRoom) && |c.commands| < MAX_COMMAND_QUEUE && c.queued + c.reservations < MAX_PROTECTED_RESULTS)
      && Fits(d) && Spare(d) == Spare(c)
  {
    hide Enqueue, Tidy, AcksLocated, CommandsLocated;
    EnqueueFits(c, LeaveRoom, "", "", "", 0, now, ticket);
    EnqueueEffect(c, LeaveRoom, "", "", "", 0, now, ticket);
    RoomOnly(Enqueue(c, LeaveRoom, "", "", "", 0, now, ticket).1, LeaveTheRoom(c, now, ticket).1);
  }

  /** A snapshot is accepted exactly in its configuration, with credentials and a free place; the one
      it replaces leaves its credit to its cancellation. */
  lemma {:induction false} SnapshotFits(c: Core, generation: nat, clientRevision: nat, jsonText: string, ticket: nat)
    requires Fits(c)
    ensures var (ok, replaced, d) := PutSnapshot(c, generation, clientRevision, jsonText, ticket);
      && (ok <==> c.generation == generation && c.credentialsValid && c.queued + c.reservations < MAX_PROTECTED_RESULTS)
      && Fits(d) && Spare(d) == Spare(c) + if replaced.Some? then 1 else 0
  {
    hide Reserve, Tidy, AcksLocated;
    ReserveFits(c);
    ReserveKeeps(c);
    AcksOnly(c, PutSnapshot(c, generation, clientRevision, jsonText, ticket).2);
  }

  // ---- What is taken out leaves its credit behind ----

  lemma {:induction false} FewerEntries(c: Core, d: Core)
    requires Fits(c) && d == c.(commands := d.commands, latest := d.latest, acks := d.acks, nextAckId := d.nextAckId)
    requires |d.commands| <= |c.commands| && forall command | command in d.commands :: command in c.commands
    requires d.latest == c.latest || d.latest.None?
    requires forall id: nat | id in d.acks :: id in c.acks && d.acks[id] == c.acks[id]
    requires c.nextAckId <= d.nextAckId || d.acks == map[]
    ensures Fits(d) && |d.acks| <= |c.acks|
  {
    hide Tidy;
    FewerAcks(d.acks, c.acks);
  }

  lemma {:induction false} KeepCounts(commands: seq<Command>, keep: Command -> bool, drop: Command -> bool)
    requires forall c | c in commands :: keep(c) == !drop(c)
    ensures |commands| == |KeepCommands(commands, keep)| + |KeepCommands(commands, drop)|
  {
    hide KeepCommands;
    KeepSplits(commands, keep, drop);
    CommandsSize(commands);
    CommandsSize(KeepCommands(commands, keep));
    CommandsSize(KeepCommands(commands, drop));
  }

  lemma {:induction false} TakeQueuedFits(c: Core, generation: nat, selected: Command -> bool)
    requires Fits(c)
    ensures var (taken, d) := TakeQueued(c, generation, selected);
      Fits(d) && Spare(d) == Spare(c) + |taken|
  {
    hide Fits, KeepCommands;
    KeepKeeps(c.commands, command => !selected(command));
    KeepCounts(c.commands, command => !selected(command), selected);
    FewerEntries(c, TakeQueued(c, generation, selected).1);
  }

  lemma {:induction false} SkipFits(c: Core, generation: nat)
    requires Fits(c)
    ensures var d := c.(commands := SkipStale(c.commands, generation));
      Fits(d) && Spare(d) >= Spare(c) && (generation == c.generation ==> d == c)
  {
    hide Fits, SkipStale, PoppedStale;
    SkipIsSuffix(c.commands, generation);
    FewerEntries(c, c.(commands := SkipStale(c.commands, generation)));
    if generation == c.generation { NothingStale(c); }
  }

  /** Under the present configuration nothing is discarded on the way to the command taken. */
  lemma {:induction false} TakeFits(c: Core, generation: nat)
    requires Fits(c)
    ensures var (command, d) := TakeCommand(c, generation);
      Fits(d) && Spare(d) >= Spare(c) + (if command.Some? then 1 else 0) &&
      (generation == c.generation ==> Spare(d) == Spare(c) + if command.Some? then 1 else 0)
  {
    hide Fits, SkipStale;
    SkipFits(c, generation);
    var rest := c.(commands := SkipStale(c.commands, generation));
    if rest.commands != [] { FewerEntries(rest, rest.(commands := rest.commands[1..])); }
  }

  lemma {:induction false} NothingStale(c: Core)
    requires Fits(c)
    ensures SkipStale(c.commands, c.generation) == c.commands
  {
    hide Tidy, AcksLocated;
    if c.commands != [] { assert c.commands[0] in c.commands; }
  }

  lemma {:induction false} RegistrationFits(c: Core, generation: nat)
    requires Fits(c)
    ensures var (command, d) := PopRegistration(c, generation);
      Fits(d) && Spare(d) == Spare(c) + if command.Some? then 1 else 0
  {
    hide Fits, FirstRegistration;
    FirstRegistrationFinds(c.commands, generation);
    FewerEntries(c, PopRegistration(c, generation).1);
  }

  lemma {:induction false} TakeSnapshotFits(c: Core, generation: nat)
    requires Fits(c)
    ensures var (snapshot, d) := TakeSnapshot(c, generation);
      Fits(d) && Spare(d) == Spare(c) + if snapshot.Some? then 1 else 0
  {
    hide Fits;
    FewerEntries(c, TakeSnapshot(c, generation).1);
  }

  lemma {:induction false} RemovedSize(acks: map<nat, PendingAck>, gone: set<nat>)
    requires gone <= acks.Keys
    ensures |acks - gone| == |acks| - |gone|
  {
    assert (acks - gone).Keys == acks.Keys - gone;
  }

  lemma {:induction false} SettleFits(c: Core, generation: nat)
    requires Fits(c)
    ensures Fits(SettleJoin(c, generation)) && Spare(SettleJoin(c, generation)) == Spare(c)
  {
    hide Tidy, CommandsLocated, AcksLocated;
    RoomOnly(c, SettleJoin(c, generation));
  }

  lemma {:induction false} TakeAckFits(c: Core, generation: nat, id: nat)
    requires Fits(c)
    ensures var (pending, d) := TakeAck(c, generation, id);
      Fits(d) && Spare(d) == Spare(c) + if pending.Some? then 1 else 0
  {
    hide Fits, SettleJoin;
    if c.generation == generation && id in c.acks {
      var taken := c.(acks := c.acks - {id});
      RemovedSize(c.acks, {id});
      FewerEntries(c, taken);
      SettleFits(taken, generation);
    }
  }

  lemma {:induction false} ExpireFits(c: Core, generation: nat, now: int)
    requires Fits(c)
    ensures var (expired, d) := ExpireAcks(c, generation, now);
      Fits(d) && Spare(d) == Spare(c) + |expired|
  {
    hide Fits, SettleJoin;
    if c.generation == generation {
      var expired := ExpireAcks(c, generation, now).0;
      var taken := c.(acks := c.acks - expired.Keys);
      RemovedSize(c.acks, expired.Keys);
      FewerEntries(c, taken);
      SettleFits(taken, generation);
    }
  }

  lemma {:induction false} FailFits(c: Core, generation: nat)
    requires Fits(c)
    ensures var (failed, d) := FailAcks(c, generation);
      Fits(d) && Spare(d) == Spare(c) + |failed|
  {
    hide Tidy;
    RoomOnly(c.(acks := map[]), FailAcks(c, generation).1.(acks := map[]));
  }

  lemma {:induction false} ClearFits(c: Core)
    requires Fits(c)
    ensures Fits(ClearAcks(c)) && Spare(ClearAcks(c)) == Spare(c) + |c.acks|
  {
    hide Fits;
    FewerEntries(c, ClearAcks(c));
  }

  lemma {:induction false} CancelledFreed(c: Core, requestId: string)
    requires CommandsLocated(c) && AcksLocated(c)
    ensures |KeepCommands(c.commands, Frees(requestId))| + |KeepCommands(c.commands, NotCancelled(requestId))| == |c.commands|
    ensures |FreedAcks(c.acks, requestId)| + |KeptAcks(c.acks, requestId)| == |c.acks|
  {
    hide KeepCommands;
    KeepCounts(c.commands, Frees(requestId), NotCancelled(requestId));
    RemovedSize(c.acks, FreedAcks(c.acks, requestId));
    assert KeptAcks(c.acks, requestId) == c.acks - FreedAcks(c.acks, requestId);
  }

  /** Each cancelled request frees exactly its own credit, and none with the ID is left. */
  lemma {:induction false} CancelFits(c: Core, requestId: string)
    requires Fits(c)
    ensures Fits(CancelRequest(c, requestId)) && Spare(CancelRequest(c, requestId)) == Spare(c)
    ensures forall command | command in CancelRequest(c, requestId).commands ::
      !Cancels(command.kind, command.requestId, requestId)
    ensures forall id: nat | id in CancelRequest(c, requestId).acks ::
      !Cancels(CancelRequest(c, requestId).acks[id].kind, CancelRequest(c, requestId).acks[id].requestId, requestId)
  {
    hide Tidy, KeepCommands, FreedAcks;
    KeepKeeps(c.commands, NotCancelled(requestId));
    CancelledFreed(c, requestId);
    FewerEntries(c, c.(commands := KeepCommands(c.commands, NotCancelled(requestId)), acks := KeptAcks(c.acks, requestId)));
  }

  // ---- What comes back needs a spare credit ----

  /** A command may come back to the queue. */
  predicate Returns(c: Core, generation: nat, command: Command) {
    c.generation == generation && command.reserved ==>
      command.generation == generation && Spare(c) > 0 && |c.commands| <= MAX_COMMAND_QUEUE
  }

  lemma {:induction false} ReturnFits(c: Core, generation: nat, command: Command)
    requires Fits(c) && Returns(c, generation, command)
    ensures var d := ReturnCommand(c, generation, command);
      Fits(d) && Spare(d) == Spare(c) - if c.generation == generation && command.reserved then 1 else 0
  {
    hide Tidy, AcksLocated;
    AcksOnly(c, ReturnCommand(c, generation, command));
  }

  /** An acknowledgement ID was never given out before in this configuration. */
  lemma {:induction false} AllocateFits(c: Core, generation: nat)
    requires Fits(c)
    ensures var (id, d) := AllocateAck(c, generation);
      Fits(d) && Spare(d) == Spare(c) && (id.Some? ==> id.value !in c.acks && id.value < d.nextAckId)
  {
    hide Tidy;
  }

  /** There is a row and a credit left for an operation that was sent. */
  predicate RowLeft(c: Core, id: nat, reserved: bool) {
    reserved && id < c.nextAckId && id !in c.acks && |c.acks| < MAX_PENDING_ACKS && Spare(c) > 0
  }

  lemma {:induction false} CommitFits(c: Core, generation: nat, id: nat, command: Command, now: int)
    requires Fits(c) && (c.generation == generation ==> RowLeft(c, id, command.reserved))
    ensures var d := CommitAck(c, generation, id, command, now);
      Fits(d) && Spare(d) == Spare(c) - if c.generation == generation then 1 else 0
  {
    hide Tidy;
    if c.generation == generation {
      OneMoreAck(c.acks, id, CommitAck(c, generation, id, command, now).acks[id]);
    }
  }

  lemma {:induction false} CommitSnapshotFits(c: Core, generation: nat, id: nat, s: PendingSnapshot, now: int)
    requires Fits(c) && (c.generation == generation ==> RowLeft(c, id, s.reserved))
    ensures var d := CommitSnapshotAck(c, generation, id, s, now);
      Fits(d) && Spare(d) == Spare(c) - if c.generation == generation then 1 else 0
  {
    hide Tidy;
    if c.generation == generation {
      OneMoreAck(c.acks, id, CommitSnapshotAck(c, generation, id, s, now).acks[id]);
    }
  }

  lemma {:induction false} ReturnSnapshotFits(c: Core, generation: nat, s: PendingSnapshot)
    requires Fits(c)
    requires c.generation == generation ==> s.generation == generation && s.reserved && Spare(c) > 0
    ensures var (owed, d) := ReturnSnapshot(c, generation, s);
      Fits(d) && Spare(d) == Spare(c) - (if c.generation == generation && !owed then 1 else 0) &&
      (owed <==> c.generation == generation && c.latest.Some?)
  {
    hide Tidy, AcksLocated;
    AcksOnly(c, ReturnSnapshot(c, generation, s).1);
  }

  // ---- The remembered room ----

  lemma {:induction false} MarkFits(c: Core, generation: nat)
    requires Fits(c)
    ensures Fits(MarkJoinPending(c, generation)) && Spare(MarkJoinPending(c, generation)) == Spare(c)
  {
    hide Tidy, CommandsLocated, AcksLocated;
    RoomOnly(c, MarkJoinPending(c, generation));
  }

  lemma {:induction false} RenameFits(c: Core, generation: nat, sequence: nat, name: string)
    requires Fits(c)
    ensures Fits(CommitRename(c, generation, sequence, name)) && Spare(CommitRename(c, generation, sequence, name)) == Spare(c)
    ensures c.desired.Some? ==> CommitRename(c, generation, sequence, name).desired.Some?
    ensures c.desired.Some? ==>
      c.desired.value.confirmedRenameSequence <=
      CommitRename(c, generation, sequence, name).desired.value.confirmedRenameSequence
  {
    hide Tidy, CommandsLocated, AcksLocated;
    RoomOnly(c, CommitRename(c, generation, sequence, name));
  }

  lemma {:induction false} PrepareFits(c: Core, generation: nat, ticket: nat)
    requires Fits(c)
    ensures var (preparation, d) := PrepareJoin(c, generation, ticket);
      Fits(d) && Spare(d) == Spare(c) + if preparation.Ready? then 1 else 0
  {
    hide Fits, Reserve, HasJoinCommandOrAck;
    ReserveFits(c);
  }

  // ---- In every run ----

  lemma {:induction false} ReachableTables(s: Sys)
    requires InboundHolds(s) && Located(s) && RoomHolds(s)
    ensures Tidy(s.core.inbound, s.core.queued, s.core.generation) && Bounded(s.core)
    ensures TablesFit(s.core) && RoomFits(s.core) && Fenced(s.core)
  {
    hide InArrivalOrder, Coalesced, Confirmed, JoinPends;
  }

  lemma {:induction false} SpareSize(s: Sys)
    requires Balanced(s) && Located(s)
    ensures Spare(s.core) ==
      |HandTickets(s.hand, s.core.generation)| + |WorkerTickets(s.worker, s.core.generation)| + |s.book.lost|
  {
    hide CommandTickets, AckTickets, HandTickets, WorkerTickets, CommandsLocated, HandLocated, TablesBounded;
    CommandsSize(s.core.commands);
    AcksSize(s.core.acks, s.core.nextAckId);
  }

  /** In every reachable state the object's invariant holds, and its spare credits are exactly those of
      the results in hand, of the operation the worker holds, and of the operations lost. */
  lemma {:induction false} ReachableFits(s: Sys)
    requires Reachable(s)
    ensures Fits(s.core)
    ensures Spare(s.core) ==
      |HandTickets(s.hand, s.core.generation)| + |WorkerTickets(s.worker, s.core.generation)| + |s.book.lost|
  {
    hide Reachable, InboundHolds, Located, RoomHolds, Balanced, Conserved, Spare;
    ReachableInvariant(s);
    ReachableRoom(s);
    ReachableTables(s);
    SpareSize(s);
  }
}
