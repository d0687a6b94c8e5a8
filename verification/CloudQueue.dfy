/** The cloud client's shared state as a value, and each of its critical sections as a
    function of that state. A ticket numbers the credit an operation reserves for its
    result, so that the same operation can be followed from place to place. */
module CloudQueue {
  import opened Options

  const MAX_COMMAND_QUEUE := 64
  const MAX_PENDING_ACKS := 64
  const MAX_INBOUND_QUEUE := 128
  const MAX_PROTECTED_RESULTS := 96
  const MAX_INBOUND_PAYLOAD := 131072
  const MAX_NAME_BYTES := 512
  const ACK_TIMEOUT := 8
  const TRANSIENT_TIMEOUT := 8
  const LAST_ACK_ID := 0xFFFF_FFFF_FFFF_FFFF

  datatype CommandKind =
    | RegisterDevice | JoinRoom | RenameRoom | LeaveRoom | UploadSnapshot | RequestComparison
    | RequestSnapshot | JoinUnified | RenameUnified | RequestBroadcasters | RequestBroadcasterSnapshot
    | RequestSyncHistory | RequestSyncRelations | RecordSync | StartRealtime | HeartbeatRealtime | StopRealtime
  {
    predicate IsTransient() {
      RequestComparison? || RequestSnapshot? || RequestBroadcasters? || RequestBroadcasterSnapshot? ||
      RequestSyncHistory? || RequestSyncRelations?
    }

    function ResultType(): MessageType {
      match this
      case RegisterDevice => DeviceRegistrationError
      case JoinRoom => RoomJoinResult
      case RenameRoom => RoomRenameResult
      case LeaveRoom => RoomLeaveResult
      case UploadSnapshot => SnapshotUploadResult
      case RequestComparison => RoomComparisonResult
      case RequestSnapshot => SnapshotResult
      case JoinUnified => BroadcasterJoinResult
      case RenameUnified => BroadcasterRenameResult
      case RequestBroadcasters => BroadcastersListResult
      case RequestBroadcasterSnapshot => BroadcasterSnapshotResult
      case RequestSyncHistory => SyncHistoryResult
      case RequestSyncRelations => SyncRelationsResult
      case RecordSync => SyncRecordResult
      case StartRealtime => RealtimeStartResult
      case HeartbeatRealtime => RealtimeHeartbeatResult
      case StopRealtime => RealtimeStopResult
    }
  }

  /** One constructor for each message type text. */
  datatype MessageType =
    | DeviceRegistered | DeviceRegistrationError | RoomJoinResult | SnapshotUploadResult | RoomRenameResult
    | RoomLeaveResult | RoomComparisonResult | SnapshotResult | BroadcasterJoinResult | BroadcasterRenameResult
    | BroadcastersListResult | BroadcasterSnapshotResult | SyncHistoryResult | SyncRelationsResult
    | SyncRecordResult | RealtimeStartResult | RealtimeHeartbeatResult | RealtimeStopResult
    | RoomChanged | RoomPresence | BroadcastersChanged | SyncRelationsChanged | RealtimeSnapshot | CloudError
  {
    predicate IsCoalescible() {
      RoomChanged? || RoomPresence? || BroadcastersChanged? || SyncRelationsChanged? || RealtimeSnapshot?
    }

    predicate IsProtected() {
      DeviceRegistered? || DeviceRegistrationError? || RoomJoinResult? || SnapshotUploadResult? ||
      RoomRenameResult? || RoomLeaveResult? || RoomComparisonResult? || SnapshotResult? ||
      BroadcasterJoinResult? || BroadcasterRenameResult? || BroadcastersListResult? ||
      BroadcasterSnapshotResult? || SyncHistoryResult? || SyncRelationsResult? || SyncRecordResult? ||
      RealtimeStartResult? || RealtimeHeartbeatResult? || RealtimeStopResult?
    }
  }

  datatype Command = Command(
    kind: CommandKind, argument: string, secondArgument: string, requestId: string,
    generation: nat, sequence: nat, clientRevision: nat, deadline: int, reserved: bool, ticket: nat)

  datatype PendingAck = PendingAck(
    kind: CommandKind, requestId: string, clientRevision: nat, deadline: int,
    commandSequence: nat, reserved: bool, ticket: nat)

  datatype PendingSnapshot = PendingSnapshot(
    generation: nat, clientRevision: nat, jsonText: string, reserved: bool, ticket: nat)

  datatype DesiredRoom = DesiredRoom(
    roomId: string, broadcasterName: string, generation: nat, confirmedRenameSequence: nat)

  /** The stamp numbers arrivals; a message that replaces an older payload keeps the older stamp. */
  datatype InboundMessage = InboundMessage(
    generation: nat, kind: MessageType, coalesceKey: string, serialized: string, stamp: nat)
  {
    predicate IsProtected() { kind.IsProtected() }

    predicate Matches(other: InboundMessage) {
      generation == other.generation && kind == other.kind && coalesceKey == other.coalesceKey
    }
  }

  datatype Core = Core(
    generation: nat, configGeneration: nat, stopping: bool, serverValid: bool, credentialsValid: bool,
    commands: seq<Command>, latest: Option<PendingSnapshot>, acks: map<nat, PendingAck>, nextAckId: nat,
    desired: Option<DesiredRoom>, joinPending: Option<nat>, joinInFlight: Option<nat>, nextSequence: nat,
    inbound: seq<InboundMessage>, queued: nat, reservations: nat)

  function Minus(a: nat, b: nat): nat { if a < b then 0 else a - b }

  // ---- The inbound queue and the credits ----

  function DropOldestNotification(inbound: seq<InboundMessage>): Option<seq<InboundMessage>> {
    if inbound == [] then None
    else if !inbound[0].IsProtected() then Some(inbound[1..])
    else match DropOldestNotification(inbound[1..])
      case None => None
      case Some(rest) => Some([inbound[0]] + rest)
  }

  lemma {:induction false} DropShrinks(inbound: seq<InboundMessage>)
    ensures match DropOldestNotification(inbound)
      case None => forall m | m in inbound :: m.IsProtected()
      case Some(rest) => |rest| == |inbound| - 1
  {
    if inbound != [] && inbound[0].IsProtected() { DropShrinks(inbound[1..]); }
  }

  /** Drop notifications until the queue and the credits leave one place free. */
  function MakeRoom(inbound: seq<InboundMessage>, reservations: nat): (bool, seq<InboundMessage>)
    decreases |inbound|
  {
    if |inbound| + reservations < MAX_INBOUND_QUEUE then (true, inbound)
    else
      DropShrinks(inbound);
      match DropOldestNotification(inbound)
      case None => (false, inbound)
      case Some(rest) => MakeRoom(rest, reservations)
  }

  function Reserve(c: Core): (bool, Core) {
    if c.queued + c.reservations >= MAX_PROTECTED_RESULTS then (false, c)
    else
      var (ok, inbound) := MakeRoom(c.inbound, c.reservations);
      (ok, c.(inbound := inbound, reservations := c.reservations + if ok then 1 else 0))
  }

  function Release(c: Core, reserved: bool): Core {
    if reserved then c.(reservations := Minus(c.reservations, 1)) else c
  }

  /** The last queued message with the same generation, type and key. */
  function LastMatch(inbound: seq<InboundMessage>, m: InboundMessage): Option<nat> {
    if inbound == [] then None
    else if inbound[|inbound| - 1].Matches(m) then Some(|inbound| - 1)
    else LastMatch(inbound[..|inbound| - 1], m)
  }

  lemma {:induction false} LastMatchFinds(inbound: seq<InboundMessage>, m: InboundMessage)
    ensures match LastMatch(inbound, m)
      case None => forall i | 0 <= i < |inbound| :: !inbound[i].Matches(m)
      case Some(i) => i < |inbound| && inbound[i].Matches(m)
  {
    if inbound != [] && !inbound[|inbound| - 1].Matches(m) {
      LastMatchFinds(inbound[..|inbound| - 1], m);
    }
  }

  function EnqueueInbound(c: Core, m: InboundMessage, reserved: bool): Core {
    LastMatchFinds(c.inbound, m);
    if c.generation != m.generation then c
    else if m.IsProtected() then
      if !reserved || c.reservations == 0 then c
      else c.(reservations := c.reservations - 1, queued := c.queued + 1, inbound := c.inbound + [m])
    else
      var found := if m.kind.IsCoalescible() then LastMatch(c.inbound, m) else None;
      if found.Some? then
        c.(inbound := c.inbound[found.value := c.inbound[found.value].(serialized := m.serialized)])
      else if |c.inbound| + c.reservations >= MAX_INBOUND_QUEUE then
        match DropOldestNotification(c.inbound)
        case None => c
        case Some(rest) => c.(inbound := rest + [m])
      else c.(inbound := c.inbound + [m])
  }

  /** A message that is empty or too large is dropped, unless a credit is held for it:
      then a small message of the same type takes its place. */
  function Fitting(m: InboundMessage, reserved: bool): Option<InboundMessage> {
    if m.serialized != "" && |m.serialized| <= MAX_INBOUND_PAYLOAD then Some(m)
    else if reserved && m.IsProtected() then Some(m.(serialized := "payload_too_large"))
    else None
  }

  function Notify(c: Core, m: InboundMessage, reserved: bool): Core {
    match Fitting(m, reserved)
    case None => c
    case Some(fitting) => EnqueueInbound(c, fitting, reserved)
  }

  function Dispatch(c: Core): (Option<InboundMessage>, Core) {
    if c.inbound == [] then (None, c)
    else
      var m := c.inbound[0];
      (Some(m), c.(inbound := c.inbound[1..], queued := if m.IsProtected() then Minus(c.queued, 1) else c.queued))
  }

  // ---- Operations of the user's threads ----

  function Configure(c: Core, serverValid: bool, credentialsValid: bool): Core {
    Core(c.configGeneration + 1, c.configGeneration + 1, c.stopping, serverValid, credentialsValid,
      [], None, map[], 1, None, None, None, c.nextSequence, [], 0, 0)
  }

  function StopBegin(c: Core): Core {
    c.(stopping := true, configGeneration := c.configGeneration + 1)
  }

  function StopEnd(c: Core): Core {
    Core(c.configGeneration, c.configGeneration, false, false, false,
      [], None, map[], 1, None, None, None, c.nextSequence, [], 0, 0)
  }

  function Enqueue(c: Core, kind: CommandKind, argument: string, secondArgument: string, requestId: string,
    clientRevision: nat, now: int, ticket: nat): (bool, Core)
  {
    if c.stopping || c.configGeneration != c.generation || !c.serverValid ||
      (!kind.RegisterDevice? && !c.credentialsValid) then (false, c)
    else if |c.commands| >= MAX_COMMAND_QUEUE then (false, c)
    else
      var (ok, r) := Reserve(c);
      if !ok then (false, r)
      else
        var deadline := if kind.IsTransient() then now + TRANSIENT_TIMEOUT else 0;
        var command := Command(kind, argument, secondArgument, requestId, c.generation, c.nextSequence,
          clientRevision, deadline, true, ticket);
        (true, r.(commands := r.commands + [command], nextSequence := c.nextSequence + 1))
  }

  function JoinTheRoom(c: Core, roomId: string, name: string, now: int, ticket: nat): (bool, Core) {
    var (ok, q) := Enqueue(c, JoinRoom, roomId, name, "", 0, now, ticket);
    if !ok then (false, q)
    else (true, q.(desired := Some(DesiredRoom(roomId, name, c.generation, 0)),
      joinPending := Some(c.generation), joinInFlight := None))
  }

  function ClearDesired(c: Core): Core {
    c.(desired := None, joinPending := None, joinInFlight := None)
  }

  function LeaveTheRoom(c: Core, now: int, ticket: nat): (bool, Core) {
    var (ok, q) := Enqueue(c, LeaveRoom, "", "", "", 0, now, ticket);
    if ok then (true, ClearDesired(q)) else (false, q)
  }

  /** Put a snapshot in the one slot; the snapshot it replaces is handed back. */
  function PutSnapshot(c: Core, generation: nat, clientRevision: nat, jsonText: string, ticket: nat)
    : (bool, Option<PendingSnapshot>, Core)
  {
    if c.generation != generation || !c.credentialsValid then (false, None, c)
    else
      var (ok, r) := Reserve(c);
      if !ok then (false, None, r)
      else (true, c.latest, r.(latest := Some(PendingSnapshot(generation, clientRevision, jsonText, true, ticket))))
  }

  predicate Cancels(kind: CommandKind, id: string, requestId: string) {
    kind.IsTransient() && id == requestId
  }

  function KeepCommands(commands: seq<Command>, keep: Command -> bool): (r: seq<Command>)
    ensures |r| <= |commands|
  {
    if commands == [] then []
    else if keep(commands[0]) then [commands[0]] + KeepCommands(commands[1..], keep)
    else KeepCommands(commands[1..], keep)
  }

  function NotCancelled(requestId: string): Command -> bool {
    (command: Command) => !Cancels(command.kind, command.requestId, requestId)
  }

  function Frees(requestId: string): Command -> bool {
    (command: Command) => Cancels(command.kind, command.requestId, requestId) && command.reserved
  }

  function FreedAcks(acks: map<nat, PendingAck>, requestId: string): set<nat> {
    set id | id in acks && Cancels(acks[id].kind, acks[id].requestId, requestId) && acks[id].reserved
  }

  function KeptAcks(acks: map<nat, PendingAck>, requestId: string): map<nat, PendingAck> {
    map id | id in acks && !Cancels(acks[id].kind, acks[id].requestId, requestId) :: acks[id]
  }

  /** Remove every queued or unacknowledged transient request with this ID, and free its credits. */
  function CancelRequest(c: Core, requestId: string): Core {
    c.(commands := KeepCommands(c.commands, NotCancelled(requestId)), acks := KeptAcks(c.acks, requestId),
      reservations := Minus(c.reservations,
        |KeepCommands(c.commands, Frees(requestId))| + |FreedAcks(c.acks, requestId)|))
  }

  // ---- Operations of the worker, under the generation it last read ----

  function SkipStale(commands: seq<Command>, generation: nat): (r: seq<Command>)
    ensures |r| <= |commands|
    ensures r != [] ==> r[0].generation == generation
  {
    if commands == [] || commands[0].generation == generation then commands
    else SkipStale(commands[1..], generation)
  }

  /** Pop commands of other generations from the front, then take the next one to send. */
  function TakeCommand(c: Core, generation: nat): (Option<Command>, Core) {
    var rest := SkipStale(c.commands, generation);
    if rest != [] && !rest[0].kind.RegisterDevice? && |c.acks| < MAX_PENDING_ACKS then
      (Some(rest[0]), c.(commands := rest[1..]))
    else (None, c.(commands := rest))
  }

  function FirstRegistration(commands: seq<Command>, generation: nat): Option<nat> {
    if commands == [] then None
    else if commands[0].generation == generation && commands[0].kind.RegisterDevice? then Some(0)
    else match FirstRegistration(commands[1..], generation)
      case None => None
      case Some(i) => Some(i + 1)
  }

  lemma {:induction false} FirstRegistrationFinds(commands: seq<Command>, generation: nat)
    ensures match FirstRegistration(commands, generation)
      case None => true
      case Some(i) => i < |commands| && commands[i].generation == generation && commands[i].kind.RegisterDevice?
  {
    if commands != [] { FirstRegistrationFinds(commands[1..], generation); }
  }

  /** It is the first of its kind, and there is none only if there is none. */
  lemma {:induction false} FirstRegistrationIsFirst(commands: seq<Command>, generation: nat, j: nat)
    requires j < |commands| && commands[j].generation == generation && commands[j].kind.RegisterDevice?
    ensures FirstRegistration(commands, generation).Some? && FirstRegistration(commands, generation).value <= j
  {
    if j > 0 { FirstRegistrationIsFirst(commands[1..], generation, j - 1); }
  }

  function PopRegistration(c: Core, generation: nat): (Option<Command>, Core) {
    FirstRegistrationFinds(c.commands, generation);
    match FirstRegistration(c.commands, generation)
    case None => (None, c)
    case Some(i) => (Some(c.commands[i]), c.(commands := c.commands[..i] + c.commands[i + 1..]))
  }

  function ReturnCommand(c: Core, generation: nat, command: Command): Core {
    if c.generation == generation && command.reserved then c.(commands := [command] + c.commands) else c
  }

  function AllocateAck(c: Core, generation: nat): (Option<nat>, Core) {
    if c.generation != generation || c.nextAckId >= LAST_ACK_ID then (None, c)
    else (Some(c.nextAckId), c.(nextAckId := c.nextAckId + 1))
  }

  function TrackAck(acks: map<nat, PendingAck>, id: nat, pending: PendingAck): map<nat, PendingAck> {
    if id in acks then acks else acks[id := pending]
  }

  /** The command went out: keep its credit until its acknowledgement. */
  function CommitAck(c: Core, generation: nat, id: nat, command: Command, now: int): Core {
    if c.generation != generation then c
    else
      var pending := PendingAck(command.kind, command.requestId, command.clientRevision, now + ACK_TIMEOUT,
        command.sequence, command.reserved, command.ticket);
      var marks := command.kind.JoinRoom? && c.desired.Some? && c.desired.value.generation == generation &&
        c.joinPending == Some(generation);
      c.(acks := TrackAck(c.acks, id, pending), joinInFlight := if marks then Some(generation) else c.joinInFlight)
  }

  function TakeSnapshot(c: Core, generation: nat): (Option<PendingSnapshot>, Core) {
    if c.latest.None? || c.latest.value.generation != generation || c.generation != generation then (None, c)
    else (c.latest, c.(latest := None))
  }

  function CommitSnapshotAck(c: Core, generation: nat, id: nat, s: PendingSnapshot, now: int): Core {
    if c.generation != generation then c
    else c.(acks := TrackAck(c.acks, id,
      PendingAck(UploadSnapshot, "", s.clientRevision, now + ACK_TIMEOUT, 0, s.reserved, s.ticket)))
  }

  /** After a failed send: back into an empty slot, or owed a cancellation if the slot was refilled. */
  function ReturnSnapshot(c: Core, generation: nat, s: PendingSnapshot): (bool, Core) {
    if c.latest.None? && c.generation == generation then (false, c.(latest := Some(s)))
    else (c.generation == generation && s.reserved, c)
  }

  function SettleJoin(c: Core, generation: nat): Core {
    c.(joinPending := if c.joinPending == Some(generation) then None else c.joinPending,
      joinInFlight := if c.joinInFlight == Some(generation) then None else c.joinInFlight)
  }

  function TakeAck(c: Core, generation: nat, id: nat): (Option<PendingAck>, Core) {
    if c.generation != generation || id !in c.acks then (None, c)
    else
      var taken := c.(acks := c.acks - {id});
      (Some(c.acks[id]), if c.acks[id].kind.JoinRoom? then SettleJoin(taken, generation) else taken)
  }

  function ExpireAcks(c: Core, generation: nat, now: int): (map<nat, PendingAck>, Core) {
    if c.generation != generation then (map[], c)
    else
      var expired := map id | id in c.acks && c.acks[id].deadline <= now :: c.acks[id];
      var taken := c.(acks := c.acks - expired.Keys);
      (expired, if exists id :: id in expired && expired[id].kind.JoinRoom? then SettleJoin(taken, generation) else taken)
  }

  function FailAcks(c: Core, generation: nat): (map<nat, PendingAck>, Core) {
    if c.generation != generation then (map[], c)
    else
      var flying := c.joinInFlight == Some(generation);
      var wanted := c.desired.Some? && c.desired.value.generation == generation;
      (c.acks, c.(acks := map[], joinInFlight := if flying then None else c.joinInFlight,
        joinPending := if flying && wanted then Some(generation) else c.joinPending))
  }

  function Failing(generation: nat): Command -> bool {
    (command: Command) => command.generation == generation && command.kind.IsTransient()
  }

  function Expiring(generation: nat, now: int): Command -> bool {
    (command: Command) => command.generation == generation && command.kind.IsTransient() &&
      command.deadline != 0 && command.deadline <= now
  }

  /** Take out the queued commands selected, to be owed a failure result. */
  function TakeQueued(c: Core, generation: nat, selected: Command -> bool): (seq<Command>, Core) {
    if c.generation != generation then ([], c)
    else (KeepCommands(c.commands, selected), c.(commands := KeepCommands(c.commands, command => !selected(command))))
  }

  function ClearAcks(c: Core): Core { c.(acks := map[], nextAckId := 1) }

  // ---- Remembered room ----

  function MarkJoinPending(c: Core, generation: nat): Core {
    if c.generation != generation || c.desired.None? || c.desired.value.generation != generation then c
    else c.(joinPending := Some(generation), joinInFlight := None)
  }

  predicate HasJoinCommandOrAck(c: Core, generation: nat) {
    (exists command :: command in c.commands && command.generation == generation && command.kind.JoinRoom?) ||
    (exists id :: id in c.acks && c.acks[id].kind.JoinRoom?)
  }

  datatype JoinPreparation = NoDesired | AlreadyInFlight | NoCapacity | Ready(join: Command)

  function PrepareJoin(c: Core, generation: nat, ticket: nat): (JoinPreparation, Core) {
    if c.generation != generation || c.desired.None? || c.desired.value.generation != generation ||
      c.joinPending != Some(generation) then (NoDesired, c)
    else if c.joinInFlight == Some(generation) || HasJoinCommandOrAck(c, generation) then (AlreadyInFlight, c)
    else if |c.acks| >= MAX_PENDING_ACKS then (NoCapacity, c)
    else
      var (ok, r) := Reserve(c);
      if !ok then (NoCapacity, r)
      else (Ready(Command(JoinRoom, c.desired.value.roomId, c.desired.value.broadcasterName, "", generation, 0, 0, 0,
        true, ticket)), r)
  }

  function ReleaseJoin(c: Core, join: Command): Core {
    if c.generation == join.generation then Release(c, join.reserved) else c
  }

  function CommitRename(c: Core, generation: nat, sequence: nat, name: string): Core {
    if sequence == 0 || name == "" || |name| > MAX_NAME_BYTES || c.generation != generation || c.desired.None? ||
      c.desired.value.generation != generation || sequence <= c.desired.value.confirmedRenameSequence then c
    else c.(desired := Some(c.desired.value.(broadcasterName := name, confirmedRenameSequence := sequence)))
  }
}
