/** Pushing team snapshots over the LAN: the server's edits, its push loop, the two message
    streams, and the client's subscription, as one state machine. A snapshot's version is its
    place in the history of the server's edits. */
module LanTeamSync {

  const DEBOUNCE := 200

  datatype Push = Push(subscription: nat, revision: nat, version: nat)

  datatype Subscribe = Subscribe(enabled: bool, subscription: nat)

  /** The push loop: between deciding to send and reading the snapshot it holds the label. */
  datatype Server = Server(
    subscribed: bool, subscription: nat, lastPushed: nat, pending: nat, changedAt: nat, immediately: bool,
    sending: bool, sent: seq<Push>)

  /** `read` is the value of `desired` that the client loop has loaded; `bumps` counts calls that
      have stored `desired` but not yet advanced the subscription number; `missed` records that a push
      of this subscription was dropped because none was desired. */
  datatype Client = Client(
    desired: bool, subscription: nat, bumps: nat, read: bool, sentSubscription: nat, sentEnabled: bool,
    lastReceived: nat, handed: seq<Push>, missed: bool)

  datatype State = State(
    history: seq<string>, revision: nat, locked: bool, clock: nat,
    server: Server, client: Client, toServer: seq<Subscribe>, toClient: seq<Push>)

  const INITIAL := State([""], 0, false, 0,
    Server(false, 0, 0, 0, 0, false, false, []), Client(false, 0, 0, false, 0, false, 0, [], false), [], [])

  datatype Step =
    | BeginEdit(snapshot: string)
    | EndEdit
    | Wait(time: nat)
    | Accept
    | Tick(now: nat)
    | Send
    | Toggle(enabled: bool)
    | BumpSubscription
    | ReadDesired
    | SendSubscribe
    | Receive
    | Disconnect

  function Snapshot(s: State): string
    requires s.history != []
  {
    s.history[|s.history| - 1]
  }

  predicate Enabled(s: State, step: Step) {
    match step
    case BeginEdit(_) => !s.locked && s.history != []
    case EndEdit => s.locked
    case Accept => s.toServer != [] && !s.server.sending
    case Tick(now) => s.server.changedAt <= now <= s.clock && !s.server.sending
    case Send => s.server.sending && !s.locked && s.history != []
    case BumpSubscription => s.client.bumps > 0
    case Receive => s.toClient != []
    case _ => true
  }

  function Next(s: State, step: Step): State
    requires Enabled(s, step)
  {
    match step
    case BeginEdit(snapshot) =>
      if snapshot == Snapshot(s) then s else s.(history := s.history + [snapshot], locked := true)
    case EndEdit => s.(revision := s.revision + 1, locked := false)
    case Wait(time) => s.(clock := s.clock + time)
    case Accept => s.(server := Accepted(s.server, s.toServer[0], s.revision, s.clock), toServer := s.toServer[1..])
    case Tick(now) => s.(server := Ticked(s.server, s.revision, now))
    case Send => SendNext(s)
    case Toggle(enabled) =>
      s.(client := s.client.(desired := enabled, bumps := s.client.bumps + if s.client.desired != enabled then 1 else 0))
    case BumpSubscription =>
      s.(client := s.client.(subscription := s.client.subscription + 1, bumps := s.client.bumps - 1, missed := false))
    case ReadDesired => s.(client := s.client.(read := s.client.desired))
    case SendSubscribe => SubscribeNext(s)
    case Receive => s.(client := Received(s.client, s.toClient[0]), toClient := s.toClient[1..])
    case Disconnect => s.(
      server := s.server.(subscribed := false, subscription := 0, sending := false, sent := []),
      client := s.client.(sentSubscription := 0, sentEnabled := false, lastReceived := 0, handed := []),
      toServer := [], toClient := [])
  }

  /** A subscribe message starts the push state afresh. */
  function Accepted(server: Server, m: Subscribe, revision: nat, now: nat): Server {
    Server(m.enabled, m.subscription, 0, revision, now, m.enabled, false, [])
  }

  /** One round of the push loop: note a new revision, then decide whether to push it. */
  function Ticked(server: Server, revision: nat, now: nat): Server
    requires server.changedAt <= now
  {
    var noted := if server.subscribed && revision != server.pending then server.(pending := revision, changedAt := now)
      else server;
    if noted.subscribed && noted.pending != noted.lastPushed &&
      (noted.immediately || now - noted.changedAt >= DEBOUNCE) then noted.(sending := true) else noted
  }

  /** Read the snapshot under its lock and send it under the label decided before. */
  function SendNext(s: State): State
    requires s.history != []
  {
    var push := Push(s.server.subscription, s.server.pending, |s.history| - 1);
    s.(server := s.server.(lastPushed := s.server.pending, immediately := false, sending := false,
        sent := s.server.sent + [push]),
      toClient := s.toClient + [push])
  }

  function SubscribeNext(s: State): State {
    var c := s.client;
    if c.subscription == 0 || (c.subscription == c.sentSubscription && c.read == c.sentEnabled) then s
    else s.(toServer := s.toServer + [Subscribe(c.read, c.subscription)],
      client := c.(sentSubscription := c.subscription, sentEnabled := c.read, lastReceived := 0, handed := []))
  }

  function Received(c: Client, m: Push): Client {
    if c.desired && m.subscription == c.subscription && m.revision > c.lastReceived then
      c.(lastReceived := m.revision, handed := c.handed + [m])
    else if !c.desired && m.subscription == c.subscription then c.(missed := true)
    else c
  }

  // ---- Runs ----

  ghost predicate CanRun(s: State, steps: seq<Step>)
    decreases |steps|
  {
    steps != [] ==> Enabled(s, steps[0]) && CanRun(Next(s, steps[0]), steps[1..])
  }

  ghost function After(s: State, steps: seq<Step>): State
    requires CanRun(s, steps)
    decreases |steps|
  {
    if steps == [] then s else After(Next(s, steps[0]), steps[1..])
  }

  ghost predicate Reachable(s: State) {
    exists steps :: CanRun(INITIAL, steps) && After(INITIAL, steps) == s
  }

  // ---- Invariants ----

  /** The revision counts the edits that are complete. */
  predicate Counted(s: State) {
    |s.history| == s.revision + 1 + (if s.locked then 1 else 0)
  }

  predicate Newer(push: Push, latest: int) { push.revision <= push.version <= latest }

  predicate Increasing(pushes: seq<Push>) {
    && (forall i, j | 0 <= i < j < |pushes| :: pushes[i].revision < pushes[j].revision)
    && (forall push | push in pushes :: push.revision > 0)
  }

  /** What the server has pushed in this subscription, in order, up to the last label. */
  predicate ServerFits(s: State) {
    && s.server.lastPushed <= s.server.pending <= s.revision && s.server.changedAt <= s.clock
    && (s.server.sending ==> s.server.subscribed && s.server.lastPushed < s.server.pending)
    && Increasing(s.server.sent)
    && (forall push | push in s.server.sent :: Newer(push, |s.history| - 1) && push.subscription == s.server.subscription)
    && (s.server.subscribed && s.server.lastPushed > 0 ==> s.server.sent != [])
    && (s.server.subscribed && s.server.sent != [] ==>
      s.server.sent[|s.server.sent| - 1].revision == s.server.lastPushed)
  }

  /** What the client has handed on since its last subscribe message. */
  predicate ClientFits(s: State) {
    && (forall push | push in s.toClient :: Newer(push, |s.history| - 1))
    && Increasing(s.client.handed)
    && (forall push | push in s.client.handed :: Newer(push, |s.history| - 1))
    && (if s.client.handed == [] then s.client.lastReceived == 0
      else s.client.handed[|s.client.handed| - 1].revision == s.client.lastReceived)
    && (s.client.missed ==> s.client.bumps > 0 || !s.client.desired)
  }

  /** No subscription number runs ahead of the client's. */
  predicate NumbersFit(s: State) {
    && s.client.sentSubscription <= s.client.subscription && s.server.subscription <= s.client.subscription
    && (forall m | m in s.toServer :: m.subscription <= s.client.subscription)
  }

  /** Messages and server speak of no later subscription than the one last asked for, and all that was
      handed on since belongs to that one. */
  predicate SubscriptionsFit(s: State) {
    && s.client.sentSubscription <= s.client.subscription && s.server.subscription <= s.client.sentSubscription
    && (forall m | m in s.toServer :: m.subscription <= s.client.sentSubscription)
    && (forall push | push in s.toClient :: push.subscription <= s.client.sentSubscription)
    && (forall push | push in s.client.handed :: push.subscription == s.client.sentSubscription)
  }

  /** Client and server agree on the subscription: nothing about it is on its way. */
  predicate Agreed(s: State) {
    && s.toServer == [] && s.server.subscribed
    && s.server.subscription == s.client.subscription && s.client.sentSubscription == s.client.subscription
  }

  predicate OnItsWay(s: State, push: Push) {
    push in s.toClient && push.subscription == s.server.subscription && push.revision == s.server.lastPushed
  }

  /** The last push of an agreed subscription is on its way, or the client has its label or a later one. */
  ghost predicate NothingLost(s: State) {
    Agreed(s) && !s.client.missed && s.server.lastPushed > 0 ==>
      s.client.lastReceived >= s.server.lastPushed || exists push :: OnItsWay(s, push)
  }

  ghost predicate Inv(s: State) {
    Counted(s) && ServerFits(s) && ClientFits(s) && NumbersFit(s) && NothingLost(s)
  }

  // ---- Each step keeps them ----

  predicate SameServer(s: State, t: State) {
    t.server == s.server && s.revision <= t.revision && |s.history| <= |t.history| && s.clock <= t.clock
  }

  lemma {:induction false} NewerLater(pushes: seq<Push>, latest: int, later: int)
    requires latest <= later && forall push | push in pushes :: Newer(push, latest)
    ensures forall push | push in pushes :: Newer(push, later)
  {
  }

  lemma {:induction false} SameServerFits(s: State, t: State)
    requires ServerFits(s) && s.history != [] && SameServer(s, t)
    ensures ServerFits(t)
  {
    hide Newer, Increasing;
    NewerLater(s.server.sent, |s.history| - 1, |t.history| - 1);
  }

  lemma {:induction false} IncreasingWith(pushes: seq<Push>, push: Push)
    requires Increasing(pushes) && push.revision > 0
    requires pushes != [] ==> pushes[|pushes| - 1].revision < push.revision
    ensures Increasing(pushes + [push])
  {
    var more := pushes + [push];
    forall i, j | 0 <= i < j < |more| ensures more[i].revision < more[j].revision {
      if j == |pushes| && i < j - 1 { assert pushes[i].revision < pushes[j - 1].revision; }
    }
  }

  lemma {:induction false} SendFits(s: State)
    requires Counted(s) && ServerFits(s) && Enabled(s, Send)
    ensures ServerFits(SendNext(s))
  {
    hide Increasing;
    var push := Push(s.server.subscription, s.server.pending, |s.history| - 1);
    SendIncreases(s, push);
    assert Newer(push, |s.history| - 1);
  }

  lemma {:induction false} SendIncreases(s: State, push: Push)
    requires ServerFits(s) && s.server.sending
    requires push.revision == s.server.pending
    ensures Increasing(s.server.sent + [push])
  {
    IncreasingWith(s.server.sent, push);
  }

  lemma {:induction false} ServerKept(s: State, step: Step)
    requires Counted(s) && ServerFits(s) && Enabled(s, step)
    ensures Counted(Next(s, step)) && ServerFits(Next(s, step))
  {
    hide ServerFits, SendNext, SubscribeNext, Received, Ticked, Accepted;
    match step
    case Accept => AcceptFits(s);
    case Tick(now) => TickFits(s, now);
    case Send => SendFits(s); SendCounts(s);
    case Disconnect => DisconnectFits(s);
    case SendSubscribe => SubscribeTouches(s); SameServerFits(s, Next(s, step));
    case _ => SameServerFits(s, Next(s, step));
  }

  lemma {:induction false} SendCounts(s: State)
    requires Counted(s)
    ensures Counted(SendNext(s))
  {
  }

  lemma {:induction false} SubscribeTouches(s: State)
    ensures SubscribeNext(s) == s.(toServer := SubscribeNext(s).toServer, client := SubscribeNext(s).client)
  {
  }

  lemma {:induction false} AcceptFits(s: State)
    requires Counted(s) && ServerFits(s) && Enabled(s, Accept)
    ensures ServerFits(Next(s, Accept))
  {
  }

  lemma {:induction false} TickFits(s: State, now: nat)
    requires Counted(s) && ServerFits(s) && Enabled(s, Tick(now))
    ensures ServerFits(Next(s, Tick(now)))
  {
    hide Increasing, Newer;
  }

  lemma {:induction false} DisconnectFits(s: State)
    requires Counted(s) && ServerFits(s)
    ensures ServerFits(Next(s, Disconnect))
  {
  }

  predicate SameClient(s: State, t: State) {
    t.client == s.client && |s.history| <= |t.history| && forall push | push in t.toClient ::
      push in s.toClient || Newer(push, |t.history| - 1)
  }

  lemma {:induction false} SameClientFits(s: State, t: State)
    requires ClientFits(s) && s.history != [] && SameClient(s, t)
    ensures ClientFits(t)
  {
    hide Newer, Increasing;
    NewerLater(s.toClient, |s.history| - 1, |t.history| - 1);
    NewerLater(s.client.handed, |s.history| - 1, |t.history| - 1);
  }

  lemma {:induction false} SendIsNewer(s: State)
    requires Counted(s) && ServerFits(s) && Enabled(s, Send)
    ensures SameClient(s, SendNext(s))
  {
    hide Increasing;
    var push := Push(s.server.subscription, s.server.pending, |s.history| - 1);
    assert Newer(push, |s.history| - 1);
  }

  lemma {:induction false} ReceiveFits(s: State)
    requires ClientFits(s) && Enabled(s, Receive)
    ensures ClientFits(Next(s, Receive))
  {
    hide Increasing, Newer;
    var m := s.toClient[0];
    assert m in s.toClient && forall push | push in s.toClient[1..] :: push in s.toClient;
    if m.revision > s.client.lastReceived { HandedIncreases(s, m); }
  }

  lemma {:induction false} HandedIncreases(s: State, m: Push)
    requires ClientFits(s) && m.revision > s.client.lastReceived
    ensures Increasing(s.client.handed + [m])
  {
    IncreasingWith(s.client.handed, m);
  }

  lemma {:induction false} SubscriptionFits(s: State, step: Step)
    requires ClientFits(s) && Enabled(s, step)
    requires step.Toggle? || step.BumpSubscription? || step.ReadDesired? || step.SendSubscribe? || step.Disconnect?
    ensures ClientFits(Next(s, step))
  {
    hide Newer;
  }

  lemma {:induction false} ClientKept(s: State, step: Step)
    requires Counted(s) && ServerFits(s) && ClientFits(s) && Enabled(s, step)
    ensures ClientFits(Next(s, step))
  {
    hide ServerFits, ClientFits, SendNext, SubscribeNext, Received, Ticked, Accepted, Newer;
    match step
    case Send =>
      SendIsNewer(s);
      SameClientFits(s, SendNext(s));
    case Receive => ReceiveFits(s);
    case BeginEdit(_) => SameClientFits(s, Next(s, step));
    case EndEdit => SameClientFits(s, Next(s, step));
    case Wait(_) => SameClientFits(s, Next(s, step));
    case Accept => SameClientFits(s, Next(s, step));
    case Tick(_) => SameClientFits(s, Next(s, step));
    case _ => SubscriptionFits(s, step);
  }

  lemma {:induction false} NumbersKept(s: State, step: Step)
    requires NumbersFit(s) && Enabled(s, step)
    ensures NumbersFit(Next(s, step))
  {
  }

  // ---- Nothing is lost ----

  lemma {:induction false} SentIsOnItsWay(s: State)
    requires Enabled(s, Send)
    ensures NothingLost(SendNext(s))
  {
    var push := Push(s.server.subscription, s.server.pending, |s.history| - 1);
    assert OnItsWay(SendNext(s), push);
  }

  lemma {:induction false} ReceivedOrOnItsWay(s: State)
    requires NothingLost(s) && Enabled(s, Receive)
    ensures NothingLost(Next(s, Receive))
  {
    var t := Next(s, Receive);
    if Agreed(t) && !t.client.missed && t.server.lastPushed > 0 && s.client.lastReceived < s.server.lastPushed {
      var push :| OnItsWay(s, push);
      if push != s.toClient[0] { assert OnItsWay(t, push); }
    }
  }

  lemma {:induction false} SameOnItsWay(s: State, t: State)
    requires NothingLost(s) && (Agreed(t) && !t.client.missed && t.server.lastPushed > 0 ==> Agreed(s) && !s.client.missed)
    requires t.server.lastPushed == s.server.lastPushed && t.server.subscription == s.server.subscription
    requires t.client.lastReceived == s.client.lastReceived && t.toClient == s.toClient
    ensures NothingLost(t)
  {
    if push :| OnItsWay(s, push) { assert OnItsWay(t, push); }
  }

  lemma {:induction false} NothingLostKept(s: State, step: Step)
    requires NumbersFit(s) && NothingLost(s) && Enabled(s, step)
    ensures NothingLost(Next(s, step))
  {
    hide NothingLost, SendNext;
    match step
    case Send => SentIsOnItsWay(s);
    case Receive => ReceivedOrOnItsWay(s);
    case Accept => AcceptLosesNothing(s);
    case Disconnect => DisconnectLosesNothing(s);
    case SendSubscribe => SubscribeLosesNothing(s);
    case _ => SameOnItsWay(s, Next(s, step));
  }

  lemma {:induction false} AcceptLosesNothing(s: State)
    requires Enabled(s, Accept)
    ensures NothingLost(Next(s, Accept))
  {
  }

  lemma {:induction false} DisconnectLosesNothing(s: State)
    ensures NothingLost(Next(s, Disconnect))
  {
  }

  lemma {:induction false} SubscribeLosesNothing(s: State)
    requires NothingLost(s)
    ensures NothingLost(SubscribeNext(s))
  {
    hide OnItsWay;
  }

  lemma {:induction false} StepKeepsInvariant(s: State, step: Step)
    requires Inv(s) && Enabled(s, step)
    ensures Inv(Next(s, step))
  {
    hide Counted, ServerFits, ClientFits, NumbersFit, NothingLost, Enabled, Next;
    ServerKept(s, step);
    ClientKept(s, step);
    NumbersKept(s, step);
    NothingLostKept(s, step);
  }

  lemma {:induction false} RunKeepsInvariant(s: State, steps: seq<Step>)
    requires Inv(s) && CanRun(s, steps)
    ensures Inv(After(s, steps))
    decreases |steps|
  {
    hide Inv, Enabled, Next;
    if steps != [] {
      StepKeepsInvariant(s, steps[0]);
      RunKeepsInvariant(Next(s, steps[0]), steps[1..]);
    }
  }

  lemma {:induction false} ReachableInvariant(s: State)
    requires Reachable(s)
    ensures Inv(s)
  {
    hide Enabled, Next;
    var steps :| CanRun(INITIAL, steps) && After(INITIAL, steps) == s;
    assert Inv(INITIAL) by { InitialInvariant(); }
    hide Inv;
    RunKeepsInvariant(INITIAL, steps);
  }

  lemma {:induction false} InitialInvariant()
    ensures Inv(INITIAL)
  {
  }

  // ---- What the protocol promises ----

  /** Between two subscribe messages the client hands on pushes with strictly increasing labels, each
      with content at least as new as its label. */
  lemma {:induction false} HandedOnInOrder(s: State)
    requires Reachable(s)
    ensures forall i, j | 0 <= i < j < |s.client.handed| :: s.client.handed[i].revision < s.client.handed[j].revision
    ensures forall push | push in s.client.handed :: push.revision <= push.version < |s.history|
    ensures forall push | push in s.toClient :: push.revision <= push.version < |s.history|
  {
    hide Reachable, ServerFits, NumbersFit, NothingLost;
    ReachableInvariant(s);
    assert forall push | push in s.client.handed :: Newer(push, |s.history| - 1);
    assert forall push | push in s.toClient :: Newer(push, |s.history| - 1);
  }

  lemma {:induction false} SubscriptionsKept(s: State, step: Step)
    requires SubscriptionsFit(s) && Enabled(s, step)
    ensures SubscriptionsFit(Next(s, step))
  {
    hide Counted, Newer;
    match step
    case Receive => assert s.toClient[0] in s.toClient;
    case Accept => assert s.toServer[0] in s.toServer;
    case _ =>
  }

  lemma {:induction false} RunKeepsSubscriptions(s: State, steps: seq<Step>)
    requires SubscriptionsFit(s) && CanRun(s, steps)
    ensures SubscriptionsFit(After(s, steps))
    decreases |steps|
  {
    hide SubscriptionsFit, Enabled, Next;
    if steps != [] {
      SubscriptionsKept(s, steps[0]);
      RunKeepsSubscriptions(Next(s, steps[0]), steps[1..]);
    }
  }

  /** In every run, all the client has handed on since its last subscribe message was pushed for the
      subscription that message asked for, whatever older pushes arrived in between. */
  lemma {:induction false} HandsOnItsOwn(s: State)
    requires Reachable(s)
    ensures forall push | push in s.client.handed :: push.subscription == s.client.sentSubscription
    ensures s.server.subscription <= s.client.sentSubscription <= s.client.subscription
  {
    hide Enabled, Next;
    var steps :| CanRun(INITIAL, steps) && After(INITIAL, steps) == s;
    RunKeepsSubscriptions(INITIAL, steps);
  }

  /** The server has nothing more to push, and no edit is under way. */
  predicate Settled(s: State) {
    !s.locked && s.server.subscribed && !s.server.sending && s.server.lastPushed == s.server.pending == s.revision &&
    s.revision > 0
  }

  /** When the server has settled, its last push carries the present snapshot. */
  lemma {:induction false} SettledPushIsCurrent(s: State)
    requires Reachable(s) && Settled(s)
    ensures s.server.sent != [] && s.server.sent[|s.server.sent| - 1].version == |s.history| - 1
  {
    hide Reachable, ClientFits, NumbersFit, NothingLost;
    ReachableInvariant(s);
    assert s.server.sent[|s.server.sent| - 1] in s.server.sent;
  }

  /** When moreover nothing is on its way and the subscription stands, the client's last push is the
      present snapshot too. */
  lemma {:induction false} ClientConverges(s: State)
    requires Reachable(s) && Settled(s) && Agreed(s) && s.toClient == []
    requires s.client.desired && s.client.bumps == 0
    ensures s.client.handed != [] && s.client.handed[|s.client.handed| - 1].version == |s.history| - 1
  {
    hide Reachable, ServerFits, NumbersFit;
    ReachableInvariant(s);
    assert forall push | push in s.client.handed :: Newer(push, |s.history| - 1);
    assert !exists push :: OnItsWay(s, push);
    if s.client.handed != [] { assert s.client.handed[|s.client.handed| - 1] in s.client.handed; }
  }

  // ---- Edits have stopped ----

  /** Steps while nobody edits and the connection and the subscription of the server last. */
  predicate Quiet(step: Step) { !step.BeginEdit? && !step.EndEdit? && !step.Accept? && !step.Disconnect? }

  predicate QuietRun(steps: seq<Step>) { forall step | step in steps :: Quiet(step) }

  /** The server has noted the present revision, no later than `since`. */
  predicate Noted(s: State, since: nat) {
    && Counted(s) && !s.locked && s.server.subscribed && s.revision > 0
    && s.server.pending == s.revision && s.server.changedAt <= since
  }

  /** It has pushed that revision, or has decided to. */
  predicate Due(s: State) {
    && Counted(s) && !s.locked && s.server.subscribed && s.revision > 0
    && s.server.pending == s.revision && (s.server.sending || s.server.lastPushed == s.revision)
  }

  lemma {:induction false} TickNotes(s: State, now: nat)
    requires Counted(s) && !s.locked && s.server.subscribed && s.revision > 0 && Enabled(s, Tick(now))
    ensures Noted(Next(s, Tick(now)), now)
  {
  }

  lemma {:induction false} QuietKeeps(s: State, step: Step, since: nat)
    requires Enabled(s, step) && Quiet(step)
    ensures Noted(s, since) ==> Noted(Next(s, step), since)
    ensures Due(s) ==> Due(Next(s, step))
  {
  }

  lemma {:induction false} QuietRunKeeps(s: State, steps: seq<Step>, since: nat)
    requires CanRun(s, steps) && QuietRun(steps)
    ensures Noted(s, since) ==> Noted(After(s, steps), since)
    ensures Due(s) ==> Due(After(s, steps))
    decreases |steps|
  {
    hide Enabled, Next, Noted, Due, Quiet;
    if steps != [] {
      assert steps[0] in steps && forall step | step in steps[1..] :: step in steps;
      QuietKeeps(s, steps[0], since);
      QuietRunKeeps(Next(s, steps[0]), steps[1..], since);
    }
  }

  lemma {:induction false} TickDecides(s: State, since: nat, now: nat)
    requires Noted(s, since) && Enabled(s, Tick(now)) && since + DEBOUNCE <= now
    ensures Due(Next(s, Tick(now)))
  {
  }

  lemma {:induction false} DueSettles(s: State)
    requires Due(s)
    ensures !s.server.sending ==> Settled(s)
    ensures s.server.sending ==> Enabled(s, Send) && Settled(Next(s, Send))
  {
  }

  /** A round of the server's loop, any steps, a round more than the debounce after the first, and again any
      steps. */
  ghost predicate TwoRounds(s: State, first: nat, between: seq<Step>, second: nat, later: seq<Step>) {
    && Enabled(s, Tick(first)) && QuietRun(between) && CanRun(Next(s, Tick(first)), between)
    && first + 200 <= second && Enabled(After(Next(s, Tick(first)), between), Tick(second))
    && QuietRun(later) && CanRun(Next(After(Next(s, Tick(first)), between), Tick(second)), later)
  }

  ghost function AfterRounds(s: State, first: nat, between: seq<Step>, second: nat, later: seq<Step>): State
    requires TwoRounds(s, first, between, second, later)
  {
    After(Next(After(Next(s, Tick(first)), between), Tick(second)), later)
  }

  /** Once edits have stopped, whatever rounds and other steps come between, the server has settled from the
      first round on that is the debounce after another: at once, or with the push it then decides on; and
      it stays so. */
  lemma {:induction false} TwoRoundsSettle(s: State, first: nat, between: seq<Step>, second: nat, later: seq<Step>)
    requires Counted(s) && !s.locked && s.server.subscribed && s.revision > 0
    requires TwoRounds(s, first, between, second, later)
    ensures var t := AfterRounds(s, first, between, second, later);
      if t.server.sending then Enabled(t, Send) && Settled(Next(t, Send)) else Settled(t)
  {
    hide Enabled, Next, Noted, Due, Counted, Settled;
    TickNotes(s, first);
    var t := Next(s, Tick(first));
    QuietRunKeeps(t, between, first);
    var u := After(t, between);
    TickDecides(u, first, second);
    QuietRunKeeps(Next(u, Tick(second)), later, first);
    DueSettles(After(Next(u, Tick(second)), later));
  }

  lemma {:induction false} RunOn(s: State, steps: seq<Step>, more: seq<Step>)
    requires CanRun(s, steps) && CanRun(After(s, steps), more)
    ensures CanRun(s, steps + more) && After(s, steps + more) == After(After(s, steps), more)
    decreases |steps|
  {
    hide Enabled, Next;
    if steps == [] {
      assert [] + more == more;
    } else {
      assert (steps + more)[1..] == steps[1..] + more;
      RunOn(Next(s, steps[0]), steps[1..], more);
    }
  }

  lemma {:induction false} ReachesOn(s: State, more: seq<Step>)
    requires Reachable(s) && CanRun(s, more)
    ensures Reachable(After(s, more))
  {
    hide Enabled, Next;
    var steps :| CanRun(INITIAL, steps) && After(INITIAL, steps) == s;
    RunOn(INITIAL, steps, more);
  }

  lemma {:induction false} ReachesNext(s: State, step: Step)
    requires Reachable(s) && Enabled(s, step)
    ensures Reachable(Next(s, step))
  {
    hide Enabled, Next, Reachable;
    var one, t := [step], Next(s, step);
    assert one[0] == step && one[1..] == [];
    assert After(t, one[1..]) == t && CanRun(t, one[1..]);
    assert CanRun(s, one) && After(s, one) == After(Next(s, one[0]), one[1..]);
    ReachesOn(s, one);
  }

  /** So in every run, when edits have stopped, two such rounds have passed and nothing is on its way under
      the subscription that stands, the last push the client has handed on is the present snapshot. */
  lemma {:induction false} EditsArrive(s: State, first: nat, between: seq<Step>, second: nat, later: seq<Step>)
    requires Reachable(s) && !s.locked && s.server.subscribed && s.revision > 0
    requires TwoRounds(s, first, between, second, later)
    requires var t := AfterRounds(s, first, between, second, later);
      !t.server.sending && Agreed(t) && t.toClient == [] && t.client.desired && t.client.bumps == 0
    ensures var t := AfterRounds(s, first, between, second, later);
      t.client.handed != [] && t.client.handed[|t.client.handed| - 1].version == |t.history| - 1
  {
    hide Enabled, Next, Reachable, Agreed, Settled, Counted, ServerFits, ClientFits, NumbersFit, NothingLost;
    ReachableInvariant(s);
    TwoRoundsSettle(s, first, between, second, later);
    ReachesNext(s, Tick(first));
    ReachesOn(Next(s, Tick(first)), between);
    ReachesNext(After(Next(s, Tick(first)), between), Tick(second));
    ReachesOn(Next(After(Next(s, Tick(first)), between), Tick(second)), later);
    ClientConverges(AfterRounds(s, first, between, second, later));
  }

  // ---- Not before the debounce ----

  /** Until a subscription has had its first push the server does not wait, and from then on it does. */
  predicate FirstAtOnce(s: State) { s.server.subscribed ==> (s.server.immediately <==> s.server.sent == []) }

  lemma {:induction false} FirstKept(s: State, step: Step)
    requires FirstAtOnce(s) && (s.server.sending ==> s.server.subscribed) && Enabled(s, step)
    ensures FirstAtOnce(Next(s, step)) && (Next(s, step).server.sending ==> Next(s, step).server.subscribed)
  {
  }

  lemma {:induction false} RunKeepsFirst(s: State, steps: seq<Step>)
    requires FirstAtOnce(s) && (s.server.sending ==> s.server.subscribed) && CanRun(s, steps)
    ensures FirstAtOnce(After(s, steps))
    decreases |steps|
  {
    hide FirstAtOnce, Enabled, Next;
    if steps != [] {
      FirstKept(s, steps[0]);
      RunKeepsFirst(Next(s, steps[0]), steps[1..]);
    }
  }

  lemma {:induction false} ReachableFirst(s: State)
    requires Reachable(s)
    ensures FirstAtOnce(s)
  {
    hide Enabled, Next;
    var steps :| CanRun(INITIAL, steps) && After(INITIAL, steps) == s;
    RunKeepsFirst(INITIAL, steps);
  }

  /** The first round after an enabling subscribe message, whenever it comes, decides the first push, unless
      there has never been an edit. */
  lemma {:induction false} FirstPushAtOnce(s: State, now: nat)
    requires Reachable(s) && s.server.subscribed && s.server.sent == [] && Enabled(s, Tick(now))
    ensures Next(s, Tick(now)).server.sending <==> s.revision != 0
  {
    hide Reachable, ClientFits, NumbersFit, NothingLost, Increasing, Newer;
    ReachableInvariant(s);
    ReachableFirst(s);
  }

  lemma {:induction false} AcceptingStartsAfresh(s: State)
    requires Enabled(s, Accept)
    ensures var t := Next(s, Accept);
      t.server.subscribed == s.toServer[0].enabled && t.server.subscription == s.toServer[0].subscription &&
      t.server.sent == [] && t.server.lastPushed == 0 && t.server.immediately == s.toServer[0].enabled
  {
  }

  /** Steps while the subscription of the server lasts, with rounds only before the given time. */
  predicate Before(step: Step, time: nat) {
    !step.Accept? && !step.Disconnect? && (step.Tick? ==> step.now < time)
  }

  predicate RunBefore(steps: seq<Step>, time: nat) { forall step | step in steps :: Before(step, time) }

  /** The server waits: what it last noted is not older than `since`, and it has sent nothing since. */
  predicate Waits(s: State, since: nat, sent: seq<Push>) {
    !s.server.immediately && !s.server.sending && since <= s.server.changedAt && s.server.sent == sent
  }

  lemma {:induction false} StillWaits(s: State, step: Step, since: nat, sent: seq<Push>)
    requires Waits(s, since, sent) && Enabled(s, step) && Before(step, since + DEBOUNCE)
    ensures Waits(Next(s, step), since, sent)
  {
  }

  lemma {:induction false} RunWaits(s: State, steps: seq<Step>, since: nat, sent: seq<Push>)
    requires Waits(s, since, sent) && CanRun(s, steps) && RunBefore(steps, since + DEBOUNCE)
    ensures Waits(After(s, steps), since, sent)
    decreases |steps|
  {
    hide Waits, Enabled, Next, Before;
    if steps != [] {
      assert steps[0] in steps && forall step | step in steps[1..] :: step in steps;
      StillWaits(s, steps[0], since, sent);
      RunWaits(Next(s, steps[0]), steps[1..], since, sent);
    }
  }

  /** After the first push of a subscription, when a round notes a new revision, no run whose rounds all come
      before the debounce is over decides on a push or sends one, whatever is edited meanwhile. */
  lemma {:induction false} NothingBeforeDebounce(s: State, first: nat, steps: seq<Step>)
    requires Reachable(s) && s.server.subscribed && s.server.sent != [] && Enabled(s, Tick(first))
    requires s.revision != s.server.pending
    requires CanRun(Next(s, Tick(first)), steps) && RunBefore(steps, first + 200)
    ensures var t := After(Next(s, Tick(first)), steps);
      !t.server.sending && t.server.sent == s.server.sent
  {
    hide Reachable, CanRun, After, RunBefore;
    ReachableFirst(s);
    RunWaits(Next(s, Tick(first)), steps, first, s.server.sent);
  }

  /** A later edit, noted while the server waits, makes it wait anew. */
  lemma {:induction false} EditsDelay(s: State, first: nat, between: seq<Step>, second: nat, later: seq<Step>)
    requires Reachable(s) && s.server.subscribed && s.server.sent != [] && Enabled(s, Tick(first))
    requires s.revision != s.server.pending
    requires CanRun(Next(s, Tick(first)), between) && RunBefore(between, first + 200)
    requires var t := After(Next(s, Tick(first)), between);
      t.server.subscribed && t.revision != t.server.pending && Enabled(t, Tick(second)) &&
      CanRun(Next(t, Tick(second)), later) && RunBefore(later, second + 200)
    ensures var u := After(Next(After(Next(s, Tick(first)), between), Tick(second)), later);
      !u.server.sending && u.server.sent == s.server.sent
  {
    hide Reachable, CanRun, After, RunBefore;
    ReachableFirst(s);
    var sent := s.server.sent;
    RunWaits(Next(s, Tick(first)), between, first, sent);
    var t := After(Next(s, Tick(first)), between);
    RunWaits(Next(t, Tick(second)), later, second, sent);
  }
}
