/** The client object whose fields the critical sections update in place. Each method is one
    critical section and is proved to turn the state into what the function of the same purpose
    in CloudQueue says. */
module CloudClient {
  import opened Options
  import opened CloudQueue
  import opened CloudTickets
  import opened CloudCredits

  lemma {:induction false} DropAt(inbound: seq<InboundMessage>, i: nat)
    requires i <= |inbound| && forall k | 0 <= k < i :: inbound[k].IsProtected()
    ensures i == |inbound| ==> DropOldestNotification(inbound) == None
    ensures i < |inbound| && !inbound[i].IsProtected() ==>
      DropOldestNotification(inbound) == Some(inbound[..i] + inbound[i + 1..])
  {
    if i == 0 {
      if inbound != [] { assert inbound[..0] + inbound[1..] == inbound[1..]; }
    } else {
      var rest := inbound[1..];
      DropAt(rest, i - 1);
      if i < |inbound| {
        assert rest[i - 1] == inbound[i];
        assert [inbound[0]] + (rest[..i - 1] + rest[i..]) == inbound[..i] + inbound[i + 1..];
      }
    }
  }

  lemma {:induction false} KeepAppends(commands: seq<Command>, command: Command, keep: Command -> bool)
    ensures KeepCommands(commands + [command], keep) ==
      KeepCommands(commands, keep) + if keep(command) then [command] else []
  {
    if commands == [] {
      assert commands + [command] == [command];
      assert KeepCommands([command][1..], keep) == [];
    } else {
      assert (commands + [command])[1..] == commands[1..] + [command];
      KeepAppends(commands[1..], command, keep);
    }
  }

  lemma {:induction false} KeepStep(commands: seq<Command>, i: nat, keep: Command -> bool)
    requires i < |commands|
    ensures keep(commands[i]) ==>
      KeepCommands(commands[..i + 1], keep) == KeepCommands(commands[..i], keep) + [commands[i]]
    ensures !keep(commands[i]) ==> KeepCommands(commands[..i + 1], keep) == KeepCommands(commands[..i], keep)
  {
    hide KeepCommands;
    assert commands[..i + 1] == commands[..i] + [commands[i]];
    KeepAppends(commands[..i], commands[i], keep);
  }

  lemma {:induction false} KeptShift(kept: seq<Command>, all: seq<Command>, i: nat)
    requires i < |all|
    ensures kept + all[i..] == (kept + [all[i]]) + all[i + 1..]
  {
  }

  lemma {:induction false} KeepNone(keep: Command -> bool)
    ensures KeepCommands([], keep) == []
  {
  }

  lemma {:induction false} FirstRegistrationAt(commands: seq<Command>, generation: nat, i: nat)
    requires i <= |commands|
    requires forall k | 0 <= k < i :: !(commands[k].generation == generation && commands[k].kind.RegisterDevice?)
    ensures i == |commands| ==> FirstRegistration(commands, generation) == None
    ensures i < |commands| && commands[i].generation == generation && commands[i].kind.RegisterDevice? ==>
      FirstRegistration(commands, generation) == Some(i)
  {
    if i > 0 { FirstRegistrationAt(commands[1..], generation, i - 1); }
  }

  function Settling(c: Core, generation: nat, settled: bool): Core {
    if settled then SettleJoin(c, generation) else c
  }

  predicate IsJoinIn(acks: map<nat, PendingAck>, id: nat) { id in acks && acks[id].kind.JoinRoom? }

  ghost predicate HasJoinIn(acks: map<nat, PendingAck>) { exists id: nat :: IsJoinIn(acks, id) }

  lemma {:induction false} JoinAdded(before: map<nat, PendingAck>, id: nat, pending: PendingAck)
    requires id !in before
    ensures HasJoinIn(before[id := pending]) <==> pending.kind.JoinRoom? || HasJoinIn(before)
  {
    var after := before[id := pending];
    if pending.kind.JoinRoom? { assert IsJoinIn(after, id); }
    if i: nat :| IsJoinIn(before, i) { assert IsJoinIn(after, i); }
    if i: nat :| IsJoinIn(after, i) { assert i == id || IsJoinIn(before, i); }
  }

  /** Of the rows walked so far, those that are due have been collected. */
  ghost predicate Collected(all: map<nat, PendingAck>, left: set<nat>, expired: map<nat, PendingAck>, now: int) {
    && left <= all.Keys
    && (forall id: nat :: id in expired <==> id in all && id !in left && all[id].deadline <= now)
    && (forall id: nat | id in expired :: expired[id] == all[id])
  }

  lemma {:induction false} CollectsNext(all: map<nat, PendingAck>, left: set<nat>, expired: map<nat, PendingAck>, now: int, id: nat)
    requires Collected(all, left, expired, now) && id in left
    ensures id in all && id !in expired
    ensures Collected(all, left - {id}, if all[id].deadline <= now then expired[id := all[id]] else expired, now)
  {
  }

  lemma {:induction false} CollectsNothing(all: map<nat, PendingAck>, now: int)
    ensures Collected(all, all.Keys, map[], now)
  {
  }

  lemma {:induction false} RowRemoved(all: map<nat, PendingAck>, expired: map<nat, PendingAck>, id: nat)
    requires id in all
    ensures (all - expired.Keys) - {id} == all - expired[id := all[id]].Keys
  {
  }

  lemma {:induction false} NothingSettled(c: Core, generation: nat)
    ensures Settling(c, generation, false) == c && !HasJoinIn(map[])
  {
  }

  /** One row of the table taken out, and its join settled. */
  function Dropped(c: Core, generation: nat, id: nat): Core
    requires id in c.acks
  {
    Settling(c.(acks := c.acks - {id}), generation, c.acks[id].kind.JoinRoom?)
  }

  /** Settling a settled join changes nothing, and settling does not look at the table. */
  lemma {:induction false} SettlesOnce(c: Core, generation: nat, settled: bool, acks: map<nat, PendingAck>, id: nat)
    requires id in acks
    ensures Dropped(Settling(c, generation, settled).(acks := acks), generation, id) ==
      Settling(c, generation, settled || acks[id].kind.JoinRoom?).(acks := acks - {id})
  {
  }

  lemma {:induction false} ExpiredIs(c: Core, generation: nat, now: int, expired: map<nat, PendingAck>, settled: bool)
    requires c.generation == generation
    requires Collected(c.acks, {}, expired, now)
    requires settled <==> HasJoinIn(expired)
    ensures ExpireAcks(c, generation, now) ==
      (expired, Settling(c, generation, settled).(acks := c.acks - expired.Keys))
  {
    assert ExpireAcks(c, generation, now).0 == expired;
    if id :| id in expired && expired[id].kind.JoinRoom? { assert IsJoinIn(expired, id); }
  }

  lemma {:induction false} NotExpiring(c: Core, generation: nat, now: int)
    requires c.generation != generation
    ensures ExpireAcks(c, generation, now) == (map[], c)
  {
  }

  lemma {:induction false} OneMoreFreed(before: set<nat>, id: nat)
    requires id !in before
    ensures |before + {id}| == |before| + 1
  {
  }

  class Client {
    var generation: nat
    var configGeneration: nat
    var stopping: bool
    var serverValid: bool
    var credentialsValid: bool
    var commands: seq<Command>
    var latestSnapshot: Option<PendingSnapshot>
    var pendingAcks: map<nat, PendingAck>
    var nextAckId: nat
    var desiredRoom: Option<DesiredRoom>
    var joinPending: Option<nat>
    var joinInFlight: Option<nat>
    var nextCommandSequence: nat
    var inboundMessages: seq<InboundMessage>
    var protectedResultsQueued: nat
    var protectedResultReservations: nat

    function View(): Core
      reads this
    {
      Core(generation, configGeneration, stopping, serverValid, credentialsValid, commands, latestSnapshot,
        pendingAcks, nextAckId, desiredRoom, joinPending, joinInFlight, nextCommandSequence, inboundMessages,
        protectedResultsQueued, protectedResultReservations)
    }

    /** The bounds hold, everything queued belongs to this configuration, and every entry has its credit. */
    ghost predicate Valid()
      reads this
    {
      Fits(View())
    }

    /** The credits beyond those of the entries: one for each result that a thread still owes. */
    ghost function SpareCredits(): int
      reads this
    {
      Spare(View())
    }

    constructor ()
      ensures Valid() && SpareCredits() == 0
      ensures View() == Core(0, 0, false, false, false, [], None, map[], 1, None, None, None, 1, [], 0, 0)
    {
      generation, configGeneration, stopping, serverValid, credentialsValid := 0, 0, false, false, false;
      commands, latestSnapshot, pendingAcks, nextAckId := [], None, map[], 1;
      desiredRoom, joinPending, joinInFlight, nextCommandSequence := None, None, None, 1;
      inboundMessages, protectedResultsQueued, protectedResultReservations := [], 0, 0;
      new;
      assert View() == StopEnd(View());
      ConfigureFits(View(), false, false);
    }

    // ---- The inbound queue and the credits ----

    method DropOldest() returns (dropped: bool)
      modifies this`inboundMessages
      ensures dropped == DropOldestNotification(old(inboundMessages)).Some?
      ensures inboundMessages ==
        if dropped then DropOldestNotification(old(inboundMessages)).value else old(inboundMessages)
    {
      var i := 0;
      while i < |inboundMessages| && inboundMessages[i].IsProtected()
        invariant 0 <= i <= |inboundMessages| && inboundMessages == old(inboundMessages)
        invariant forall k | 0 <= k < i :: inboundMessages[k].IsProtected()
      {
        i := i + 1;
      }
      DropAt(inboundMessages, i);
      dropped := i < |inboundMessages|;
      if dropped { inboundMessages := inboundMessages[..i] + inboundMessages[i + 1..]; }
    }

    method ReserveResult() returns (ok: bool)
      modifies this`inboundMessages, this`protectedResultReservations
      ensures (ok, View()) == Reserve(old(View()))
      ensures old(Valid()) ==> Valid() && SpareCredits() == old(SpareCredits()) + if ok then 1 else 0
      ensures old(Valid()) ==> (ok <==> old(protectedResultsQueued + protectedResultReservations) < MAX_PROTECTED_RESULTS)
    {
      hide Fits, Spare;
      if Valid() { ReserveFits(View()); }
      if protectedResultsQueued + protectedResultReservations >= MAX_PROTECTED_RESULTS { return false; }
      while |inboundMessages| + protectedResultReservations >= MAX_INBOUND_QUEUE
        invariant protectedResultReservations == old(protectedResultReservations)
        invariant MakeRoom(inboundMessages, protectedResultReservations) ==
          MakeRoom(old(inboundMessages), protectedResultReservations)
        decreases |inboundMessages|
      {
        DropShrinks(inboundMessages);
        var dropped := DropOldest();
        if !dropped { return false; }
      }
      protectedResultReservations := protectedResultReservations + 1;
      return true;
    }

    method ReleaseResult(reserved: bool)
      modifies this`protectedResultReservations
      ensures View() == Release(old(View()), reserved)
      ensures old(Valid() && (reserved ==> SpareCredits() > 0)) ==>
        Valid() && SpareCredits() == old(SpareCredits()) - if reserved then 1 else 0
    {
      hide Fits, Spare;
      if Valid() && (reserved ==> SpareCredits() > 0) { ReleaseFits(View(), reserved); }
      if reserved && protectedResultReservations > 0 { protectedResultReservations := protectedResultReservations - 1; }
    }

    method PutInbound(m: InboundMessage, reserved: bool)
      modifies this`inboundMessages, this`protectedResultsQueued, this`protectedResultReservations
      ensures View() == EnqueueInbound(old(View()), m, reserved)
      ensures old(Valid() && (Wanted(View(), m, reserved) ==> SpareCredits() > 0)) ==>
        Valid() && SpareCredits() == old(SpareCredits()) - (if old(Wanted(View(), m, reserved)) then 1 else 0) &&
        (old(Wanted(View(), m, reserved)) ==> inboundMessages == old(inboundMessages) + [m])
    {
      hide Fits, Spare;
      if Valid() && (Wanted(View(), m, reserved) ==> SpareCredits() > 0) { InboundFits(View(), m, reserved); }
      if generation != m.generation { return; }
      if m.IsProtected() {
        if !reserved || protectedResultReservations == 0 { return; }
        protectedResultReservations := protectedResultReservations - 1;
        protectedResultsQueued := protectedResultsQueued + 1;
        inboundMessages := inboundMessages + [m];
        return;
      }
      if m.kind.IsCoalescible() {
        var i := |inboundMessages|;
        assert inboundMessages[..i] == inboundMessages;
        while i > 0 && !inboundMessages[i - 1].Matches(m)
          invariant 0 <= i <= |inboundMessages|
          invariant LastMatch(inboundMessages, m) == LastMatch(inboundMessages[..i], m)
        {
          assert inboundMessages[..i][..i - 1] == inboundMessages[..i - 1];
          i := i - 1;
        }
        if i > 0 {
          inboundMessages := inboundMessages[i - 1 := inboundMessages[i - 1].(serialized := m.serialized)];
          return;
        }
      }
      if |inboundMessages| + protectedResultReservations >= MAX_INBOUND_QUEUE {
        var dropped := DropOldest();
        if !dropped { return; }
      }
      inboundMessages := inboundMessages + [m];
    }

    method DispatchOne() returns (m: Option<InboundMessage>)
      modifies this`inboundMessages, this`protectedResultsQueued
      ensures (m, View()) == Dispatch(old(View()))
      ensures old(Valid()) ==> Valid() && SpareCredits() == old(SpareCredits())
      ensures old(Valid()) ==>
        protectedResultsQueued == old(protectedResultsQueued) - if m.Some? && m.value.IsProtected() then 1 else 0
    {
      hide Fits, Spare;
      if Valid() { DispatchFits(View()); }
      if inboundMessages == [] { return None; }
      m := Some(inboundMessages[0]);
      inboundMessages := inboundMessages[1..];
      if m.value.IsProtected() && protectedResultsQueued > 0 { protectedResultsQueued := protectedResultsQueued - 1; }
    }

    // ---- The user's operations ----

    method ApplyConfig(newServerValid: bool, newCredentialsValid: bool)
      modifies this
      ensures View() == Configure(old(View()), newServerValid, newCredentialsValid)
      ensures !old(stopping) ==> Valid()
      ensures SpareCredits() == 0
    {
      hide Fits, Spare;
      ConfigureFits(View(), newServerValid, newCredentialsValid);
      configGeneration := configGeneration + 1;
      Clear();
      generation, serverValid, credentialsValid := configGeneration, newServerValid, newCredentialsValid;
    }

    method ForgetRoom()
      modifies this`desiredRoom, this`joinPending, this`joinInFlight
      ensures View() == old(View()).(desired := None, joinPending := None, joinInFlight := None)
    {
      desiredRoom, joinPending, joinInFlight := None, None, None;
    }

    method ForgetInbound()
      modifies this`inboundMessages, this`protectedResultsQueued, this`protectedResultReservations
      ensures View() == old(View()).(inbound := [], queued := 0, reservations := 0)
    {
      inboundMessages, protectedResultsQueued, protectedResultReservations := [], 0, 0;
    }

    /** Empty every table and queue, and forget the credits. */
    method Clear()
      modifies this
      ensures View() == Core(old(generation), old(configGeneration), old(stopping), old(serverValid),
        old(credentialsValid), [], None, map[], 1, None, None, None, old(nextCommandSequence), [], 0, 0)
    {
      commands, latestSnapshot, pendingAcks, nextAckId := [], None, map[], 1;
      ForgetRoom();
      ForgetInbound();
    }

    method BeginStop()
      modifies this
      ensures View() == StopBegin(old(View()))
      ensures old(Valid()) ==> Valid() && SpareCredits() == old(SpareCredits())
    {
      hide Fits, Spare;
      if Valid() { ConfigureFits(View(), false, false); }
      stopping := true;
      configGeneration := configGeneration + 1;
    }

    method EndStop()
      modifies this
      ensures View() == StopEnd(old(View()))
      ensures Valid() && SpareCredits() == 0
    {
      hide Fits, Spare;
      ConfigureFits(View(), false, false);
      stopping := false;
      Clear();
      generation, serverValid, credentialsValid := configGeneration, false, false;
    }

    method EnqueueCommand(kind: CommandKind, argument: string, secondArgument: string, requestId: string,
      clientRevision: nat, now: int, ticket: nat) returns (ok: bool)
      modifies this
      ensures (ok, View()) ==
        Enqueue(old(View()), kind, argument, secondArgument, requestId, clientRevision, now, ticket)
      ensures old(Valid()) ==> Valid() && SpareCredits() == old(SpareCredits())
      ensures old(Valid()) ==>
        (ok <==> old(Open(View(), kind) && |commands| < MAX_COMMAND_QUEUE) && old(protectedResultsQueued + protectedResultReservations) < MAX_PROTECTED_RESULTS)
    {
      hide Fits, Spare;
      if Valid() { EnqueueFits(View(), kind, argument, secondArgument, requestId, clientRevision, now, ticket); }
      if stopping || configGeneration != generation || !serverValid || (!kind.RegisterDevice? && !credentialsValid) {
        return false;
      }
      if |commands| >= MAX_COMMAND_QUEUE { return false; }
      ok := ReserveResult();
      if !ok { return; }
      var deadline := 0;
      if kind.IsTransient() { deadline := now + TRANSIENT_TIMEOUT; }
      commands := commands + [Command(kind, argument, secondArgument, requestId, generation, nextCommandSequence,
        clientRevision, deadline, true, ticket)];
      nextCommandSequence := nextCommandSequence + 1;
    }

    method JoinRoom(roomId: string, name: string, now: int, ticket: nat) returns (ok: bool)
      modifies this
      ensures (ok, View()) == JoinTheRoom(old(View()), roomId, name, now, ticket)
      ensures old(Valid()) ==> Valid() && SpareCredits() == old(SpareCredits())
      ensures old(Valid()) ==>
        (ok <==> old(Open(View(), CommandKind.JoinRoom) && |commands| < MAX_COMMAND_QUEUE) && old(protectedResultsQueued + protectedResultReservations) < MAX_PROTECTED_RESULTS)
    {
      hide Fits, Spare;
      if Valid() { JoinFits(View(), roomId, name, now, ticket); }
      ok := EnqueueCommand(CommandKind.JoinRoom, roomId, name, "", 0, now, ticket);
      if !ok { return; }
      desiredRoom := Some(DesiredRoom(roomId, name, generation, 0));
      joinPending, joinInFlight := Some(generation), None;
    }

    method LeaveRoom(now: int, ticket: nat) returns (ok: bool)
      modifies this
      ensures (ok, View()) == LeaveTheRoom(old(View()), now, ticket)
      ensures old(Valid()) ==> Valid() && SpareCredits() == old(SpareCredits())
      ensures old(Valid()) ==>
        (ok <==> old(Open(View(), CommandKind.LeaveRoom) && |commands| < MAX_COMMAND_QUEUE) && old(protectedResultsQueued + protectedResultReservations) < MAX_PROTECTED_RESULTS)
    {
      hide Fits, Spare;
      if Valid() { LeaveFits(View(), now, ticket); }
      ok := EnqueueCommand(CommandKind.LeaveRoom, "", "", "", 0, now, ticket);
      if !ok { return; }
      ForgetRoom();
    }

    method StoreSnapshot(expected: nat, clientRevision: nat, jsonText: string, ticket: nat)
      returns (ok: bool, replaced: Option<PendingSnapshot>)
      modifies this
      ensures (ok, replaced, View()) == PutSnapshot(old(View()), expected, clientRevision, jsonText, ticket)
      ensures old(Valid()) ==> Valid() && SpareCredits() == old(SpareCredits()) + if replaced.Some? then 1 else 0
      ensures old(Valid()) ==> (ok <==> old(generation == expected && credentialsValid) && old(protectedResultsQueued + protectedResultReservations) < MAX_PROTECTED_RESULTS)
    {
      hide Fits, Spare;
      if Valid() { SnapshotFits(View(), expected, clientRevision, jsonText, ticket); }
      if generation != expected || !credentialsValid { return false, None; }
      ok := ReserveResult();
      if !ok { return false, None; }
      replaced := latestSnapshot;
      latestSnapshot := Some(PendingSnapshot(expected, clientRevision, jsonText, true, ticket));
    }

    // ---- Walking the command queue ----

    /** Take every selected command out of the queue, in order. */
    method TakeSelected(selected: Command -> bool) returns (taken: seq<Command>)
      modifies this`commands
      ensures taken == KeepCommands(old(commands), selected)
      ensures commands == KeepCommands(old(commands), command => !selected(command))
    {
      hide KeepCommands;
      KeepNone(selected);
      KeepNone(command => !selected(command));
      taken := [];
      var i, all := 0, commands;
      var rest: seq<Command> := [];
      while i < |all|
        invariant 0 <= i <= |all|
        invariant commands == rest + all[i..]
        invariant taken == KeepCommands(all[..i], selected)
        invariant rest == KeepCommands(all[..i], command => !selected(command))
      {
        KeepStep(all, i, selected);
        KeepStep(all, i, command => !selected(command));
        KeptShift(rest, all, i);
        if selected(all[i]) {
          taken := taken + [all[i]];
          commands := rest + all[i + 1..];
        } else {
          rest := rest + [all[i]];
        }
        i := i + 1;
      }
      assert all[..i] == all;
    }

    /** Erase the matching requests one by one, each freeing its credit. */
    method Cancel(requestId: string)
      modifies this
      ensures View() == CancelRequest(old(View()), requestId)
      ensures old(Valid()) ==> Valid() && SpareCredits() == old(SpareCredits())
      ensures old(Valid()) ==> forall command | command in commands :: !Cancels(command.kind, command.requestId, requestId)
    {
      hide Fits, Spare;
      if Valid() { CancelFits(View(), requestId); }
      CancelQueued(requestId);
      CancelPending(requestId);
    }

    method CancelQueued(requestId: string)
      modifies this`commands, this`protectedResultReservations
      ensures commands == KeepCommands(old(commands), NotCancelled(requestId))
      ensures protectedResultReservations ==
        Minus(old(protectedResultReservations), |KeepCommands(old(commands), Frees(requestId))|)
    {
      hide KeepCommands;
      KeepNone(NotCancelled(requestId));
      KeepNone(Frees(requestId));
      var i, all := 0, commands;
      var kept: seq<Command> := [];
      while i < |all|
        invariant 0 <= i <= |all|
        invariant commands == kept + all[i..]
        invariant kept == KeepCommands(all[..i], NotCancelled(requestId))
        invariant protectedResultReservations ==
          Minus(old(protectedResultReservations), |KeepCommands(all[..i], Frees(requestId))|)
      {
        KeepStep(all, i, NotCancelled(requestId));
        KeepStep(all, i, Frees(requestId));
        KeptShift(kept, all, i);
        if Cancels(all[i].kind, all[i].requestId, requestId) {
          ReleaseResult(all[i].reserved);
          commands := kept + all[i + 1..];
        } else {
          kept := kept + [all[i]];
        }
        i := i + 1;
      }
      assert all[..i] == all;
    }

    method CancelPending(requestId: string)
      modifies this`pendingAcks, this`protectedResultReservations
      ensures pendingAcks == KeptAcks(old(pendingAcks), requestId)
      ensures protectedResultReservations ==
        Minus(old(protectedResultReservations), |FreedAcks(old(pendingAcks), requestId)|)
    {
      var all, left := pendingAcks, pendingAcks.Keys;
      ghost var freed: set<nat> := {};
      while left != {}
        invariant left <= all.Keys && freed !! left
        invariant forall id: nat :: id in pendingAcks <==>
          id in all && (id in left || !Cancels(all[id].kind, all[id].requestId, requestId))
        invariant forall id: nat | id in pendingAcks :: pendingAcks[id] == all[id]
        invariant forall id: nat :: id in freed <==> id in FreedAcks(all, requestId) && id !in left
        invariant protectedResultReservations == Minus(old(protectedResultReservations), |freed|)
        decreases left
      {
        var id: nat :| id in left;
        left := left - {id};
        if Cancels(all[id].kind, all[id].requestId, requestId) {
          ReleaseResult(all[id].reserved);
          pendingAcks := pendingAcks - {id};
          if all[id].reserved {
            OneMoreFreed(freed, id);
            freed := freed + {id};
          }
        }
      }
      assert freed == FreedAcks(all, requestId);
      assert pendingAcks == KeptAcks(all, requestId);
    }

    method TakeTransient(expected: nat, selected: Command -> bool) returns (taken: seq<Command>)
      modifies this`commands
      ensures (taken, View()) == TakeQueued(old(View()), expected, selected)
      ensures old(Valid()) ==> Valid() && SpareCredits() == old(SpareCredits()) + |taken|
    {
      hide Fits, Spare;
      if Valid() { TakeQueuedFits(View(), expected, selected); }
      if generation != expected { return []; }
      taken := TakeSelected(selected);
    }

    method TakeFront(expected: nat) returns (command: Option<Command>)
      modifies this`commands
      ensures (command, View()) == TakeCommand(old(View()), expected)
      ensures old(Valid()) ==> Valid() && SpareCredits() >= old(SpareCredits()) + if command.Some? then 1 else 0
      ensures old(Valid() && generation == expected) ==>
        SpareCredits() == old(SpareCredits()) + if command.Some? then 1 else 0
    {
      hide Fits, Spare;
      if Valid() { TakeFits(View(), expected); }
      while commands != [] && commands[0].generation != expected
        invariant SkipStale(commands, expected) == SkipStale(old(commands), expected)
        decreases |commands|
      {
        commands := commands[1..];
      }
      command := None;
      if commands != [] && !commands[0].kind.RegisterDevice? && |pendingAcks| < MAX_PENDING_ACKS {
        command := Some(commands[0]);
        commands := commands[1..];
      }
    }

    method TakeRegistration(expected: nat) returns (command: Option<Command>)
      modifies this`commands
      ensures (command, View()) == PopRegistration(old(View()), expected)
      ensures old(Valid()) ==> Valid() && SpareCredits() == old(SpareCredits()) + if command.Some? then 1 else 0
    {
      hide Fits, Spare;
      if Valid() { RegistrationFits(View(), expected); }
      var i := 0;
      while i < |commands| && !(commands[i].generation == expected && commands[i].kind.RegisterDevice?)
        invariant 0 <= i <= |commands|
        invariant forall k | 0 <= k < i :: !(commands[k].generation == expected && commands[k].kind.RegisterDevice?)
      {
        i := i + 1;
      }
      FirstRegistrationAt(commands, expected, i);
      if i == |commands| { return None; }
      command := Some(commands[i]);
      commands := commands[..i] + commands[i + 1..];
    }

    method PutBack(expected: nat, command: Command)
      modifies this`commands
      ensures View() == ReturnCommand(old(View()), expected, command)
      ensures old(Valid() && Returns(View(), expected, command)) ==>
        Valid() && SpareCredits() == old(SpareCredits()) - if generation == expected && command.reserved then 1 else 0
    {
      hide Fits, Spare;
      if Valid() && Returns(View(), expected, command) { ReturnFits(View(), expected, command); }
      if generation == expected && command.reserved { commands := [command] + commands; }
    }

    // ---- The acknowledgement table ----

    method NewAckId(expected: nat) returns (id: Option<nat>)
      modifies this`nextAckId
      ensures (id, View()) == AllocateAck(old(View()), expected)
      ensures old(Valid()) ==> Valid() && SpareCredits() == old(SpareCredits())
      ensures old(Valid()) && id.Some? ==> id.value !in pendingAcks && id.value < nextAckId
    {
      hide Fits, Spare;
      if Valid() { AllocateFits(View(), expected); }
      if generation != expected || nextAckId >= LAST_ACK_ID { return None; }
      id := Some(nextAckId);
      nextAckId := nextAckId + 1;
    }

    method CommandSent(expected: nat, id: nat, command: Command, now: int)
      modifies this`pendingAcks, this`joinInFlight
      ensures View() == CommitAck(old(View()), expected, id, command, now)
      ensures old(Valid() && (generation == expected ==> RowLeft(View(), id, command.reserved))) ==>
        Valid() && SpareCredits() == old(SpareCredits()) - if generation == expected then 1 else 0
    {
      hide Fits, Spare;
      if Valid() && (generation == expected ==> RowLeft(View(), id, command.reserved)) {
        CommitFits(View(), expected, id, command, now);
      }
      if generation != expected { return; }
      if id !in pendingAcks {
        pendingAcks := pendingAcks[id := PendingAck(command.kind, command.requestId, command.clientRevision,
          now + ACK_TIMEOUT, command.sequence, command.reserved, command.ticket)];
      }
      if command.kind.JoinRoom? && desiredRoom.Some? && desiredRoom.value.generation == expected &&
        joinPending == Some(expected) {
        joinInFlight := Some(expected);
      }
    }

    method SnapshotSent(expected: nat, id: nat, snapshot: PendingSnapshot, now: int)
      modifies this`pendingAcks
      ensures View() == CommitSnapshotAck(old(View()), expected, id, snapshot, now)
      ensures old(Valid() && (generation == expected ==> RowLeft(View(), id, snapshot.reserved))) ==>
        Valid() && SpareCredits() == old(SpareCredits()) - if generation == expected then 1 else 0
    {
      hide Fits, Spare;
      if Valid() && (generation == expected ==> RowLeft(View(), id, snapshot.reserved)) {
        CommitSnapshotFits(View(), expected, id, snapshot, now);
      }
      if generation != expected { return; }
      if id !in pendingAcks {
        pendingAcks := pendingAcks[id := PendingAck(UploadSnapshot, "", snapshot.clientRevision, now + ACK_TIMEOUT, 0,
          snapshot.reserved, snapshot.ticket)];
      }
    }

    method TakeLatestSnapshot(expected: nat) returns (snapshot: Option<PendingSnapshot>)
      modifies this`latestSnapshot
      ensures (snapshot, View()) == TakeSnapshot(old(View()), expected)
      ensures old(Valid()) ==> Valid() && SpareCredits() == old(SpareCredits()) + if snapshot.Some? then 1 else 0
    {
      hide Fits, Spare;
      if Valid() { TakeSnapshotFits(View(), expected); }
      if latestSnapshot.None? || latestSnapshot.value.generation != expected || generation != expected { return None; }
      snapshot := latestSnapshot;
      latestSnapshot := None;
    }

    method SnapshotNotSent(expected: nat, snapshot: PendingSnapshot) returns (cancelled: bool)
      modifies this`latestSnapshot
      ensures (cancelled, View()) == ReturnSnapshot(old(View()), expected, snapshot)
      ensures old(Valid() && (generation == expected ==> snapshot.generation == expected && snapshot.reserved && SpareCredits() > 0)) ==>
        Valid() && SpareCredits() == old(SpareCredits()) - (if generation == expected && !cancelled then 1 else 0) &&
        (cancelled <==> generation == expected && old(latestSnapshot).Some?)
    {
      hide Fits, Spare;
      if Valid() && (generation == expected ==> snapshot.generation == expected && snapshot.reserved && SpareCredits() > 0) {
        ReturnSnapshotFits(View(), expected, snapshot);
      }
      if latestSnapshot.None? && generation == expected {
        latestSnapshot := Some(snapshot);
        return false;
      }
      return generation == expected && snapshot.reserved;
    }

    method SettleDesiredJoin(expected: nat)
      modifies this`joinPending, this`joinInFlight
      ensures View() == SettleJoin(old(View()), expected)
    {
      if joinPending == Some(expected) { joinPending := None; }
      if joinInFlight == Some(expected) { joinInFlight := None; }
    }

    method DropRow(expected: nat, id: nat)
      requires id in pendingAcks
      modifies this
      ensures View() == Dropped(old(View()), expected, id)
    {
      var join := pendingAcks[id].kind.JoinRoom?;
      pendingAcks := pendingAcks - {id};
      if join { SettleDesiredJoin(expected); }
    }

    method TakePending(expected: nat, id: nat) returns (pending: Option<PendingAck>)
      modifies this
      ensures (pending, View()) == TakeAck(old(View()), expected, id)
      ensures old(Valid()) ==> Valid() && SpareCredits() == old(SpareCredits()) + if pending.Some? then 1 else 0
    {
      hide Fits, Spare;
      if Valid() { TakeAckFits(View(), expected, id); }
      if generation != expected || id !in pendingAcks { return None; }
      pending := Some(pendingAcks[id]);
      DropRow(expected, id);
    }

    /** Walk the table in any order, as a hash table is walked. */
    method TakeExpired(expected: nat, now: int) returns (expired: map<nat, PendingAck>)
      modifies this
      ensures (expired, View()) == ExpireAcks(old(View()), expected, now)
      ensures old(Valid()) ==> Valid() && SpareCredits() == old(SpareCredits()) + |expired|
    {
      hide SettleJoin, Settling, HasJoinIn, ExpireAcks, Collected, Dropped, Fits, Spare;
      if Valid() { ExpireFits(View(), expected, now); }
      ghost var start := View();
      expired := map[];
      if generation != expected {
        NotExpiring(start, expected, now);
        return;
      }
      NothingSettled(start, expected);
      CollectsNothing(pendingAcks, now);
      var all: map<nat, PendingAck>, left: set<nat>, settled := pendingAcks, pendingAcks.Keys, false;
      while left != {}
        invariant Collected(all, left, expired, now)
        invariant pendingAcks == all - expired.Keys
        invariant settled <==> HasJoinIn(expired)
        invariant View() == Settling(start, expected, settled).(acks := pendingAcks)
        decreases left
      {
        var id: nat :| id in left;
        CollectsNext(all, left, expired, now, id);
        left := left - {id};
        if all[id].deadline <= now {
          ghost var before := expired;
          expired := expired[id := all[id]];
          JoinAdded(before, id, all[id]);
          RowRemoved(all, before, id);
          SettlesOnce(start, expected, settled, pendingAcks, id);
          DropRow(expected, id);
          settled := settled || all[id].kind.JoinRoom?;
        }
      }
      ExpiredIs(start, expected, now, expired, settled);
    }

    method TakeAll(expected: nat) returns (failed: map<nat, PendingAck>)
      modifies this
      ensures (failed, View()) == FailAcks(old(View()), expected)
      ensures old(Valid()) ==> Valid() && SpareCredits() == old(SpareCredits()) + |failed|
    {
      hide Fits, Spare;
      if Valid() { FailFits(View(), expected); }
      if generation != expected { return map[]; }
      failed := pendingAcks;
      pendingAcks := map[];
      if joinInFlight == Some(expected) {
        joinInFlight := None;
        if desiredRoom.Some? && desiredRoom.value.generation == expected { joinPending := Some(expected); }
      }
    }

    method ClearPending()
      modifies this`pendingAcks, this`nextAckId
      ensures View() == ClearAcks(old(View()))
      ensures old(Valid()) ==> Valid() && SpareCredits() == old(SpareCredits()) + |old(pendingAcks)|
    {
      hide Fits, Spare;
      if Valid() { ClearFits(View()); }
      pendingAcks, nextAckId := map[], 1;
    }

    // ---- The remembered room ----

    method MarkJoin(expected: nat)
      modifies this`joinPending, this`joinInFlight
      ensures View() == MarkJoinPending(old(View()), expected)
      ensures old(Valid()) ==> Valid() && SpareCredits() == old(SpareCredits())
    {
      hide Fits, Spare;
      if Valid() { MarkFits(View(), expected); }
      if generation != expected || desiredRoom.None? || desiredRoom.value.generation != expected { return; }
      joinPending, joinInFlight := Some(expected), None;
    }

    method HasJoin(expected: nat) returns (has: bool)
      ensures has == HasJoinCommandOrAck(View(), expected)
    {
      var i := 0;
      while i < |commands|
        invariant 0 <= i <= |commands|
        invariant forall k | 0 <= k < i :: !(commands[k].generation == expected && commands[k].kind.JoinRoom?)
      {
        if commands[i].generation == expected && commands[i].kind.JoinRoom? { return true; }
        i := i + 1;
      }
      var left := pendingAcks.Keys;
      while left != {}
        invariant left <= pendingAcks.Keys
        invariant forall id | id in pendingAcks && id !in left :: !pendingAcks[id].kind.JoinRoom?
        decreases left
      {
        var id: nat :| id in left;
        if pendingAcks[id].kind.JoinRoom? { return true; }
        left := left - {id};
      }
      return false;
    }

    method PrepareRememberedJoin(expected: nat, ticket: nat) returns (preparation: JoinPreparation)
      modifies this
      ensures (preparation, View()) == PrepareJoin(old(View()), expected, ticket)
      ensures old(Valid()) ==> Valid() && SpareCredits() == old(SpareCredits()) + if preparation.Ready? then 1 else 0
    {
      hide Fits, Spare;
      if Valid() { PrepareFits(View(), expected, ticket); }
      if generation != expected || desiredRoom.None? || desiredRoom.value.generation != expected ||
        joinPending != Some(expected) { return NoDesired; }
      if joinInFlight == Some(expected) { return AlreadyInFlight; }
      var has := HasJoin(expected);
      if has { return AlreadyInFlight; }
      if |pendingAcks| >= MAX_PENDING_ACKS { return NoCapacity; }
      var ok := ReserveResult();
      if !ok { return NoCapacity; }
      return Ready(Command(CommandKind.JoinRoom, desiredRoom.value.roomId, desiredRoom.value.broadcasterName, "",
        expected, 0, 0, 0, true, ticket));
    }

    method RenameConfirmed(expected: nat, sequence: nat, name: string)
      modifies this`desiredRoom
      ensures View() == CommitRename(old(View()), expected, sequence, name)
      ensures old(Valid()) ==> Valid() && SpareCredits() == old(SpareCredits())
    {
      hide Fits, Spare;
      if Valid() { RenameFits(View(), expected, sequence, name); }
      if sequence == 0 || name == "" || |name| > MAX_NAME_BYTES { return; }
      if generation != expected || desiredRoom.None? || desiredRoom.value.generation != expected ||
        sequence <= desiredRoom.value.confirmedRenameSequence { return; }
      desiredRoom := Some(desiredRoom.value.(broadcasterName := name, confirmedRenameSequence := sequence));
    }
  }
}
