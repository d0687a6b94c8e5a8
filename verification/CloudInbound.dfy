/** The inbound queue over whole runs: its bounds, its order, and its coalescing. */
module CloudInbound {
  import opened Options
  import opened CloudQueue
  import opened CloudTickets
  import opened CloudRuns

  function ProtectedCount(inbound: seq<InboundMessage>): nat {
    if inbound == [] then 0
    else (if inbound[0].IsProtected() then 1 else 0) + ProtectedCount(inbound[1..])
  }

  predicate AllCurrent(inbound: seq<InboundMessage>, generation: nat) {
    forall m | m in inbound :: m.generation == generation
  }

  /** Queued messages stand in the order they arrived, after everything already dispatched. */
  predicate InArrivalOrder(inbound: seq<InboundMessage>, feed: Feed) {
    && (forall i, j | 0 <= i < j < |inbound| :: inbound[i].stamp < inbound[j].stamp)
    && (forall m | m in inbound :: m.stamp < feed.nextStamp)
    && (forall i, j | 0 <= i < j < |feed.dispatched| :: feed.dispatched[i] < feed.dispatched[j])
    && (forall d | d in feed.dispatched :: d < feed.nextStamp)
    && (forall d, m | d in feed.dispatched && m in inbound :: d < m.stamp)
  }

  /** No two queued notifications of one type and key; each holds the newest payload. */
  predicate Coalesced(inbound: seq<InboundMessage>, newest: map<(MessageType, string), string>) {
    && (forall i, j | 0 <= i < j < |inbound| && inbound[i].kind.IsCoalescible() :: !inbound[i].Matches(inbound[j]))
    && (forall m | m in inbound && m.kind.IsCoalescible() ::
      (m.kind, m.coalesceKey) in newest && newest[(m.kind, m.coalesceKey)] == m.serialized)
  }

  predicate Healthy(inbound: seq<InboundMessage>, queued: nat, generation: nat, feed: Feed) {
    && AllCurrent(inbound, generation)
    && queued == ProtectedCount(inbound)
    && InArrivalOrder(inbound, feed)
    && Coalesced(inbound, feed.newest)
  }

  predicate Bounded(c: Core) {
    c.queued + c.reservations <= MAX_PROTECTED_RESULTS && |c.inbound| + c.reservations <= MAX_INBOUND_QUEUE
  }

  predicate InboundHolds(s: Sys) {
    Healthy(s.core.inbound, s.core.queued, s.core.generation, s.feed) && Bounded(s.core)
  }

  // ---- Sequences ----

  function Without(inbound: seq<InboundMessage>, i: nat): seq<InboundMessage>
    requires i < |inbound|
  {
    inbound[..i] + inbound[i + 1..]
  }

  lemma {:induction false} CountConcat(a: seq<InboundMessage>, b: seq<InboundMessage>)
    ensures ProtectedCount(a + b) == ProtectedCount(a) + ProtectedCount(b)
  {
    if a == [] { assert a + b == b; }
    else {
      assert (a + b)[1..] == a[1..] + b;
      CountConcat(a[1..], b);
    }
  }

  lemma {:induction false} CountWithout(inbound: seq<InboundMessage>, i: nat)
    requires i < |inbound|
    ensures ProtectedCount(Without(inbound, i)) ==
      ProtectedCount(inbound) - if inbound[i].IsProtected() then 1 else 0
  {
    assert inbound == inbound[..i] + ([inbound[i]] + inbound[i + 1..]);
    CountConcat(inbound[..i], [inbound[i]] + inbound[i + 1..]);
    CountConcat([inbound[i]], inbound[i + 1..]);
    CountConcat(inbound[..i], inbound[i + 1..]);
    assert [inbound[i]][1..] == [];
  }

  lemma {:induction false} CountBelow(inbound: seq<InboundMessage>)
    ensures ProtectedCount(inbound) <= |inbound|
  {
    if inbound != [] { CountBelow(inbound[1..]); }
  }

  /** A queue of protected messages only is its own count. */
  lemma {:induction false} CountAll(inbound: seq<InboundMessage>)
    requires forall m | m in inbound :: m.IsProtected()
    ensures ProtectedCount(inbound) == |inbound|
  {
    if inbound != [] {
      assert inbound[0] in inbound;
      CountAll(inbound[1..]);
    }
  }

  lemma {:induction false} WithoutStaysOrdered(inbound: seq<InboundMessage>, i: nat, feed: Feed)
    requires i < |inbound| && InArrivalOrder(inbound, feed)
    ensures InArrivalOrder(Without(inbound, i), feed)
  {
    var rest := Without(inbound, i);
    assert forall k | 0 <= k < |rest| :: rest[k] == inbound[if k < i then k else k + 1];
    assert forall m | m in rest :: m in inbound;
  }

  lemma {:induction false} WithoutStaysCoalesced(inbound: seq<InboundMessage>, i: nat,
    newest: map<(MessageType, string), string>)
    requires i < |inbound| && Coalesced(inbound, newest)
    ensures Coalesced(Without(inbound, i), newest)
  {
    var rest := Without(inbound, i);
    assert forall k | 0 <= k < |rest| :: rest[k] == inbound[if k < i then k else k + 1];
    assert forall m | m in rest :: m in inbound;
  }

  lemma {:induction false} WithoutStaysHealthy(inbound: seq<InboundMessage>, queued: nat, generation: nat, feed: Feed,
    i: nat)
    requires i < |inbound| && !inbound[i].IsProtected()
    requires Healthy(inbound, queued, generation, feed)
    ensures Healthy(Without(inbound, i), queued, generation, feed)
  {
    hide InArrivalOrder, Coalesced, ProtectedCount;
    WithoutStaysOrdered(inbound, i, feed);
    WithoutStaysCoalesced(inbound, i, feed.newest);
    CountWithout(inbound, i);
  }

  // ---- Dropping ----

  /** What is dropped is the oldest notification, and nothing else. */
  lemma {:induction false} DropIsWithout(inbound: seq<InboundMessage>) returns (i: nat)
    ensures match DropOldestNotification(inbound)
      case None => forall m | m in inbound :: m.IsProtected()
      case Some(rest) => i < |inbound| && !inbound[i].IsProtected() && rest == Without(inbound, i)
    ensures DropOldestNotification(inbound).Some? ==> forall k | 0 <= k < i :: inbound[k].IsProtected()
  {
    hide Without;
    i := 0;
    if inbound != [] && !inbound[0].IsProtected() { WithoutFirst(inbound); }
    if inbound != [] && inbound[0].IsProtected() {
      var tail := DropIsWithout(inbound[1..]);
      if DropOldestNotification(inbound[1..]).Some? {
        i := tail + 1;
        WithoutLater(inbound, tail);
      }
    }
  }

  lemma {:induction false} WithoutFirst(inbound: seq<InboundMessage>)
    requires inbound != []
    ensures Without(inbound, 0) == inbound[1..]
  {
  }

  lemma {:induction false} WithoutLater(inbound: seq<InboundMessage>, i: nat)
    requires i + 1 < |inbound|
    ensures Without(inbound, i + 1) == [inbound[0]] + Without(inbound[1..], i)
    ensures inbound[1..][i] == inbound[i + 1]
  {
  }

  lemma {:induction false} DropStaysHealthy(inbound: seq<InboundMessage>, queued: nat, generation: nat, feed: Feed)
    requires Healthy(inbound, queued, generation, feed)
    ensures match DropOldestNotification(inbound)
      case None => queued == |inbound|
      case Some(rest) => Healthy(rest, queued, generation, feed) && |rest| == |inbound| - 1
  {
    hide Healthy, DropOldestNotification;
    var i := DropIsWithout(inbound);
    if DropOldestNotification(inbound).Some? {
      WithoutStaysHealthy(inbound, queued, generation, feed, i);
    } else {
      CountAll(inbound);
      HealthyCount(inbound, queued, generation, feed);
    }
  }

  lemma {:induction false} HealthyCount(inbound: seq<InboundMessage>, queued: nat, generation: nat, feed: Feed)
    requires Healthy(inbound, queued, generation, feed)
    ensures queued == ProtectedCount(inbound) <= |inbound|
  {
    hide InArrivalOrder, Coalesced;
    CountBelow(inbound);
  }

  /** In a healthy state the queue always makes room while the credits allow it: the exit that
      finds nothing left to drop is never taken. */
  lemma {:induction false} RoomIsFound(inbound: seq<InboundMessage>, queued: nat, generation: nat, feed: Feed,
    reservations: nat)
    requires Healthy(inbound, queued, generation, feed)
    requires queued + reservations < MAX_PROTECTED_RESULTS
    ensures MakeRoom(inbound, reservations).0
    ensures Healthy(MakeRoom(inbound, reservations).1, queued, generation, feed)
    ensures |MakeRoom(inbound, reservations).1| + reservations < MAX_INBOUND_QUEUE
    decreases |inbound|
  {
    hide Healthy;
    if |inbound| + reservations >= MAX_INBOUND_QUEUE {
      DropStaysHealthy(inbound, queued, generation, feed);
      DropShrinks(inbound);
      if DropOldestNotification(inbound).Some? {
        RoomIsFound(DropOldestNotification(inbound).value, queued, generation, feed, reservations);
      }
    }
  }

  // ---- The operations of the core ----

  predicate CoreHealthy(c: Core, feed: Feed) { Healthy(c.inbound, c.queued, c.generation, feed) && Bounded(c) }

  /** A credit is refused only when 96 results are already queued or promised. */
  lemma {:induction false} ReserveStaysHealthy(c: Core, feed: Feed)
    requires CoreHealthy(c, feed)
    ensures CoreHealthy(Reserve(c).1, feed)
    ensures Reserve(c).0 <==> c.queued + c.reservations < MAX_PROTECTED_RESULTS
    ensures Reserve(c).1.reservations == c.reservations + if Reserve(c).0 then 1 else 0
    ensures Reserve(c).1 == c.(inbound := Reserve(c).1.inbound, reservations := Reserve(c).1.reservations)
  {
    hide Healthy;
    if c.queued + c.reservations < MAX_PROTECTED_RESULTS {
      RoomIsFound(c.inbound, c.queued, c.generation, feed, c.reservations);
    }
  }

  lemma {:induction false} DispatchStaysHealthy(s: Sys)
    requires InboundHolds(s)
    ensures InboundHolds(DispatchNext(s))
  {
    hide ProtectedCount, InArrivalOrder, Coalesced;
    if s.core.inbound != [] {
      assert Without(s.core.inbound, 0) == s.core.inbound[1..];
      CountWithout(s.core.inbound, 0);
      WithoutStaysCoalesced(s.core.inbound, 0, s.feed.newest);
      DispatchStaysOrdered(s.core.inbound, s.feed);
    }
  }

  lemma {:induction false} FirstIsOldest(inbound: seq<InboundMessage>, feed: Feed)
    requires inbound != [] && InArrivalOrder(inbound, feed)
    ensures forall m | m in inbound[1..] :: m in inbound && inbound[0].stamp < m.stamp
    ensures forall d | d in feed.dispatched :: d < inbound[0].stamp
    ensures inbound[0].stamp < feed.nextStamp
  {
    assert inbound[0] in inbound;
    forall m | m in inbound[1..] ensures m in inbound && inbound[0].stamp < m.stamp {
      var k :| 0 <= k < |inbound[1..]| && inbound[1..][k] == m;
      assert inbound[k + 1] == m;
    }
  }

  lemma {:induction false} DispatchStaysOrdered(inbound: seq<InboundMessage>, feed: Feed)
    requires inbound != [] && InArrivalOrder(inbound, feed)
    ensures InArrivalOrder(inbound[1..], feed.(dispatched := feed.dispatched + [inbound[0].stamp]))
  {
    FirstIsOldest(inbound, feed);
    var rest, stamp := inbound[1..], inbound[0].stamp;
    var dispatched := feed.dispatched + [stamp];
    assert forall i | 0 <= i < |rest| :: rest[i] == inbound[i + 1];
    assert forall i | 0 <= i < |feed.dispatched| :: dispatched[i] == feed.dispatched[i] && feed.dispatched[i] in feed.dispatched;
    assert forall d | d in dispatched :: d == stamp || d in feed.dispatched;
  }

  lemma {:induction false} AppendStaysOrdered(inbound: seq<InboundMessage>, feed: Feed, m: InboundMessage)
    requires InArrivalOrder(inbound, feed) && m.stamp == feed.nextStamp
    ensures InArrivalOrder(inbound + [m], feed.(nextStamp := feed.nextStamp + 1))
  {
  }

  lemma {:induction false} OrderIgnoresNewest(inbound: seq<InboundMessage>, feed: Feed,
    newest: map<(MessageType, string), string>)
    ensures InArrivalOrder(inbound, feed) == InArrivalOrder(inbound, feed.(newest := newest))
  {
  }

  lemma {:induction false} AppendStaysCoalesced(inbound: seq<InboundMessage>,
    newest: map<(MessageType, string), string>, m: InboundMessage)
    requires Coalesced(inbound, newest)
    requires m.kind.IsCoalescible() ==> forall i | 0 <= i < |inbound| :: !inbound[i].Matches(m)
    requires m.kind.IsCoalescible() ==> forall q | q in inbound :: q.generation == m.generation
    ensures m.kind.IsCoalescible() ==> Coalesced(inbound + [m], newest[(m.kind, m.coalesceKey) := m.serialized])
    ensures !m.kind.IsCoalescible() ==> Coalesced(inbound + [m], newest)
  {
  }

  lemma {:induction false} ReplaceStaysCoalesced(inbound: seq<InboundMessage>,
    newest: map<(MessageType, string), string>, i: nat, m: InboundMessage)
    requires i < |inbound| && inbound[i].Matches(m) && m.kind.IsCoalescible()
    requires Coalesced(inbound, newest)
    requires forall q | q in inbound :: q.generation == m.generation
    ensures Coalesced(inbound[i := inbound[i].(serialized := m.serialized)],
      newest[(m.kind, m.coalesceKey) := m.serialized])
  {
    var after := inbound[i := inbound[i].(serialized := m.serialized)];
    forall k | 0 <= k < |after| && after[k].kind.IsCoalescible()
      ensures (after[k].kind, after[k].coalesceKey) in newest[(m.kind, m.coalesceKey) := m.serialized]
      ensures newest[(m.kind, m.coalesceKey) := m.serialized][(after[k].kind, after[k].coalesceKey)] == after[k].serialized
    {
      assert inbound[k] in inbound;
      if k != i && after[k].kind == m.kind && after[k].coalesceKey == m.coalesceKey {
        assert inbound[k].Matches(inbound[i]) && inbound[i].Matches(inbound[k]);
        assert false;
      }
    }
  }

  lemma {:induction false} ReplaceStaysOrdered(inbound: seq<InboundMessage>, feed: Feed, i: nat, serialized: string)
    requires i < |inbound| && InArrivalOrder(inbound, feed)
    ensures InArrivalOrder(inbound[i := inbound[i].(serialized := serialized)], feed.(nextStamp := feed.nextStamp + 1))
  {
    var after := inbound[i := inbound[i].(serialized := serialized)];
    forall m | m in after ensures exists q :: q in inbound && q.stamp == m.stamp {
      var k :| 0 <= k < |after| && after[k] == m;
      assert inbound[k] in inbound;
    }
  }

  lemma {:induction false} CountReplace(inbound: seq<InboundMessage>, i: nat, serialized: string)
    requires i < |inbound|
    ensures ProtectedCount(inbound[i := inbound[i].(serialized := serialized)]) == ProtectedCount(inbound)
  {
    var after := inbound[i := inbound[i].(serialized := serialized)];
    CountWithout(inbound, i);
    CountWithout(after, i);
    assert Without(after, i) == Without(inbound, i);
  }

  /** A stale message changes nothing but the stamp. */
  lemma {:induction false} LaterStamp(inbound: seq<InboundMessage>, feed: Feed)
    requires InArrivalOrder(inbound, feed)
    ensures InArrivalOrder(inbound, feed.(nextStamp := feed.nextStamp + 1))
  {
  }

  lemma {:induction false} LaterStampHealthy(inbound: seq<InboundMessage>, queued: nat, generation: nat, feed: Feed)
    requires Healthy(inbound, queued, generation, feed)
    ensures Healthy(inbound, queued, generation, feed.(nextStamp := feed.nextStamp + 1))
  {
    hide ProtectedCount, InArrivalOrder, Coalesced;
    LaterStamp(inbound, feed);
  }

  lemma {:induction false} AppendStaysHealthy(inbound: seq<InboundMessage>, queued: nat, generation: nat, feed: Feed,
    m: InboundMessage)
    requires Healthy(inbound, queued, generation, feed)
    requires m.stamp == feed.nextStamp && m.generation == generation
    requires m.kind.IsCoalescible() ==> forall i | 0 <= i < |inbound| :: !inbound[i].Matches(m)
    ensures m.IsProtected() ==>
      Healthy(inbound + [m], queued + 1, generation, feed.(nextStamp := feed.nextStamp + 1))
    ensures !m.IsProtected() && m.kind.IsCoalescible() ==> Healthy(inbound + [m], queued, generation,
      feed.(nextStamp := feed.nextStamp + 1, newest := feed.newest[(m.kind, m.coalesceKey) := m.serialized]))
    ensures !m.IsProtected() && !m.kind.IsCoalescible() ==>
      Healthy(inbound + [m], queued, generation, feed.(nextStamp := feed.nextStamp + 1))
  {
    hide ProtectedCount, InArrivalOrder, Coalesced;
    AppendStaysOrdered(inbound, feed, m);
    AppendStaysCoalesced(inbound, feed.newest, m);
    AppendCounts(inbound, m);
    OrderIgnoresNewest(inbound + [m], feed.(nextStamp := feed.nextStamp + 1), Seen(feed, m).newest);
  }

  lemma {:induction false} AppendCounts(inbound: seq<InboundMessage>, m: InboundMessage)
    ensures ProtectedCount(inbound + [m]) == ProtectedCount(inbound) + if m.IsProtected() then 1 else 0
  {
    CountConcat(inbound, [m]);
    assert [m][1..] == [];
  }

  lemma {:induction false} NewestElsewhere(inbound: seq<InboundMessage>, queued: nat, generation: nat, feed: Feed,
    kind: MessageType, key: string, serialized: string)
    requires Healthy(inbound, queued, generation, feed)
    requires kind.IsCoalescible() ==> forall m | m in inbound :: m.kind != kind || m.coalesceKey != key
    ensures Healthy(inbound, queued, generation, feed.(newest := feed.newest[(kind, key) := serialized]))
  {
    hide ProtectedCount;
  }

  lemma {:induction false} ReplaceStaysHealthy(inbound: seq<InboundMessage>, queued: nat, generation: nat, feed: Feed,
    i: nat, m: InboundMessage)
    requires Healthy(inbound, queued, generation, feed)
    requires i < |inbound| && inbound[i].Matches(m) && m.kind.IsCoalescible() && m.generation == generation
    ensures Healthy(inbound[i := inbound[i].(serialized := m.serialized)], queued, generation,
      feed.(nextStamp := feed.nextStamp + 1, newest := feed.newest[(m.kind, m.coalesceKey) := m.serialized]))
  {
    hide ProtectedCount, InArrivalOrder, Coalesced;
    ReplaceStaysCoalesced(inbound, feed.newest, i, m);
    ReplaceStaysOrdered(inbound, feed, i, m.serialized);
    CountReplace(inbound, i, m.serialized);
    OrderIgnoresNewest(inbound[i := inbound[i].(serialized := m.serialized)],
      feed.(nextStamp := feed.nextStamp + 1), Seen(feed, m).newest);
  }

  /** A result with a credit joins the end of the queue and uses the credit up. */
  lemma {:induction false} ResultIsQueued(c: Core, feed: Feed, m: InboundMessage)
    requires CoreHealthy(c, feed) && m.stamp == feed.nextStamp
    requires m.IsProtected() && m.generation == c.generation && c.reservations > 0
    ensures EnqueueInbound(c, m, true) ==
      c.(inbound := c.inbound + [m], queued := c.queued + 1, reservations := c.reservations - 1)
    ensures CoreHealthy(EnqueueInbound(c, m, true), feed.(nextStamp := feed.nextStamp + 1))
  {
    hide Healthy;
    AppendStaysHealthy(c.inbound, c.queued, c.generation, feed, m);
  }

  function Seen(feed: Feed, m: InboundMessage): Feed {
    feed.(nextStamp := feed.nextStamp + 1, newest := feed.newest[(m.kind, m.coalesceKey) := m.serialized])
  }

  /** A notification never takes a place that a promised result needs. */
  lemma {:induction false} NotificationStaysHealthy(c: Core, feed: Feed, m: InboundMessage)
    requires CoreHealthy(c, feed) && m.stamp == feed.nextStamp
    requires !m.IsProtected() && m.generation == c.generation
    ensures CoreHealthy(EnqueueInbound(c, m, false), Seen(feed, m))
    ensures EnqueueInbound(c, m, false) == c.(inbound := EnqueueInbound(c, m, false).inbound)
  {
    hide Healthy;
    LastMatchFinds(c.inbound, m);
    var found := if m.kind.IsCoalescible() then LastMatch(c.inbound, m) else None;
    if found.Some? {
      ReplaceStaysHealthy(c.inbound, c.queued, c.generation, feed, found.value, m);
    } else if |c.inbound| + c.reservations >= MAX_INBOUND_QUEUE {
      DropStaysHealthy(c.inbound, c.queued, c.generation, feed);
      if DropOldestNotification(c.inbound).Some? {
        var rest := DropOldestNotification(c.inbound).value;
        var i := DropIsWithout(c.inbound);
        assert forall q | q in rest :: q in c.inbound;
        FreshNotification(rest, c.queued, c.generation, feed, m);
      } else {
        FreshKey(c.inbound, c.queued, c.generation, feed, m);
      }
    } else {
      FreshNotification(c.inbound, c.queued, c.generation, feed, m);
    }
  }

  lemma {:induction false} FreshKey(inbound: seq<InboundMessage>, queued: nat, generation: nat, feed: Feed,
    m: InboundMessage)
    requires Healthy(inbound, queued, generation, feed) && m.generation == generation
    requires m.kind.IsCoalescible() ==> forall i | 0 <= i < |inbound| :: !inbound[i].Matches(m)
    ensures Healthy(inbound, queued, generation, Seen(feed, m))
  {
    assert AllCurrent(inbound, generation);
    hide Healthy;
    LaterStampHealthy(inbound, queued, generation, feed);
    NewestElsewhere(inbound, queued, generation, feed.(nextStamp := feed.nextStamp + 1), m.kind, m.coalesceKey,
      m.serialized);
  }

  lemma {:induction false} FreshNotification(inbound: seq<InboundMessage>, queued: nat, generation: nat, feed: Feed,
    m: InboundMessage)
    requires Healthy(inbound, queued, generation, feed)
    requires m.stamp == feed.nextStamp && m.generation == generation && !m.IsProtected()
    requires m.kind.IsCoalescible() ==> forall q | q in inbound :: !q.Matches(m)
    ensures Healthy(inbound + [m], queued, generation, Seen(feed, m))
  {
    hide Healthy;
    AppendStaysHealthy(inbound, queued, generation, feed, m);
    if !m.kind.IsCoalescible() {
      NewestElsewhere(inbound + [m], queued, generation, feed.(nextStamp := feed.nextStamp + 1), m.kind, m.coalesceKey,
        m.serialized);
    }
  }

  // ---- The steps ----

  lemma {:induction false} NotifyStaysHealthy(s: Sys, m: InboundMessage)
    requires InboundHolds(s) && m.stamp == s.feed.nextStamp && !m.IsProtected()
    ensures InboundHolds(NotifyNext(s, m))
  {
    hide Healthy, EnqueueInbound;
    if m.generation != s.core.generation || Fitting(m, false).None? {
      if m.generation != s.core.generation { StaleIsIgnored(s.core, m, false); }
      LaterStampHealthy(s.core.inbound, s.core.queued, s.core.generation, s.feed);
    } else {
      NotificationStaysHealthy(s.core, s.feed, m);
    }
  }

  /** A message of another generation changes nothing. */
  lemma {:induction false} StaleIsIgnored(c: Core, m: InboundMessage, reserved: bool)
    requires m.generation != c.generation
    ensures Notify(c, m, reserved) == c && EnqueueInbound(c, m, reserved) == c
  {
  }

  /** What the delivery of a result in hand does: it is queued, unless its generation is over or
      no credit is left. */
  lemma {:induction false} DeliverCases(s: Sys, i: nat, serialized: string)
    requires InboundHolds(s) && i < |s.hand| && s.hand[i].kind.IsProtected()
    ensures InboundHolds(DeliverNext(s, i, serialized))
    ensures s.hand[i].generation == s.core.generation && s.core.reservations > 0 ==>
      |DeliverNext(s, i, serialized).core.inbound| == |s.core.inbound| + 1 &&
      var last := DeliverNext(s, i, serialized).core.inbound[|s.core.inbound|];
      last.kind == s.hand[i].kind && last.serialized != "" &&
      DeliverNext(s, i, serialized).core == s.core.(inbound := s.core.inbound + [last], queued := s.core.queued + 1,
        reservations := s.core.reservations - 1)
    ensures s.hand[i].generation != s.core.generation || s.core.reservations == 0 ==>
      DeliverNext(s, i, serialized).core == s.core
  {
    hide Healthy;
    var owed := s.hand[i];
    var m := InboundMessage(owed.generation, owed.kind, "", serialized, s.feed.nextStamp);
    assert Fitting(m, true).Some?;
    var fitting := Fitting(m, true).value;
    assert Notify(s.core, m, true) == EnqueueInbound(s.core, fitting, true);
    if owed.generation == s.core.generation && s.core.reservations > 0 {
      ResultIsQueued(s.core, s.feed, fitting);
    } else {
      LaterStampHealthy(s.core.inbound, s.core.queued, s.core.generation, s.feed);
    }
  }

  /** The state on which the health of the inbound queue depends. */
  predicate SameInbound(s: Sys, t: Sys) {
    t.core.inbound == s.core.inbound && t.core.queued == s.core.queued && t.core.generation == s.core.generation &&
    t.feed == s.feed && t.core.reservations <= s.core.reservations
  }

  predicate ReservesOnly(s: Sys, t: Sys) {
    t.core.inbound == Reserve(s.core).1.inbound && t.core.queued == s.core.queued &&
    t.core.generation == s.core.generation && t.feed == s.feed && t.core.reservations == Reserve(s.core).1.reservations
  }

  lemma {:induction false} ReserveStepStaysHealthy(s: Sys, t: Sys)
    requires InboundHolds(s) && (SameInbound(s, t) || ReservesOnly(s, t))
    ensures InboundHolds(t)
  {
    hide Healthy, Reserve;
    if ReservesOnly(s, t) { ReserveStaysHealthy(s.core, s.feed); }
  }

  lemma {:induction false} EmptyIsHealthy(generation: nat, feed: Feed, cleared: Feed)
    requires InArrivalOrder([], feed)
    requires cleared == feed.(newest := map[])
    ensures Healthy([], 0, generation, cleared)
  {
  }

  lemma {:induction false} DispatchedStaysOrdered(inbound: seq<InboundMessage>, feed: Feed)
    requires InArrivalOrder(inbound, feed)
    ensures InArrivalOrder([], feed)
  {
  }

  lemma {:induction false} SupersedeStaysHealthy(s: Sys, core: Core)
    requires InboundHolds(s) && core.inbound == [] && core.queued == 0 && core.reservations == 0
    ensures InboundHolds(Supersede(s, core))
  {
    hide ProtectedCount, InArrivalOrder, Coalesced, Held;
    DispatchedStaysOrdered(s.core.inbound, s.feed);
    hide Healthy;
    EmptyIsHealthy(core.generation, s.feed, s.feed.(newest := map[]));
  }

  lemma {:induction false} UserStepStaysHealthy(s: Sys, step: Step)
    requires InboundHolds(s) && Enabled(s, step)
    requires step.EnqueueStep? || step.JoinRoomStep? || step.LeaveRoomStep? || step.UploadRejectedStep? ||
      step.UploadStep? || step.CancelStep? || step.StopBeginStep?
    ensures InboundHolds(Next(s, step))
  {
    hide InboundHolds, Reserve;
    assert SameInbound(s, Next(s, step)) || ReservesOnly(s, Next(s, step)) by { hide Held; ReserveKeeps(s.core); }
    ReserveStepStaysHealthy(s, Next(s, step));
  }

  lemma {:induction false} ReserveKeeps(c: Core)
    ensures Reserve(c).1 == c.(inbound := Reserve(c).1.inbound, reservations := Reserve(c).1.reservations)
    ensures !Reserve(c).0 ==> Reserve(c).1.reservations == c.reservations
    ensures Reserve(c).0 ==> Reserve(c).1.reservations == c.reservations + 1
  {
  }

  lemma {:induction false} WorkerStepStaysHealthy(s: Sys, step: Step)
    requires InboundHolds(s) && Enabled(s, step)
    requires step.AbortDropStep? || step.AllocateAckStep? || step.AckTableFullStep? || step.CommitAckStep? ||
      step.SendFailStep?
    ensures InboundHolds(Next(s, step))
  {
    hide InboundHolds, SameInbound, ReservesOnly, CommitAckNext, SendFailNext, LoseWorker, AllocateAckNext;
    assert SameInbound(s, Next(s, step)) by {
      match step
      case CommitAckStep(now) => CommitSameInbound(s, now);
      case SendFailStep => SendFailSameInbound(s);
      case _ => LoseSameInbound(s);
    }
    ReserveStepStaysHealthy(s, Next(s, step));
  }

  lemma {:induction false} CommitSameInbound(s: Sys, now: int)
    requires s.worker.Sending? && s.worker.ack.Some?
    ensures SameInbound(s, CommitAckNext(s, now))
  {
  }

  lemma {:induction false} SendFailSameInbound(s: Sys)
    requires s.worker.Sending?
    ensures SameInbound(s, SendFailNext(s))
  {
    hide WorkerTickets;
  }

  lemma {:induction false} LoseSameInbound(s: Sys)
    ensures SameInbound(s, LoseWorker(s))
    ensures s.worker.Sending? || s.worker.Uploading? ==> SameInbound(s, AllocateAckNext(s))
  {
    hide WorkerTickets;
  }

  lemma {:induction false} QueueStepStaysHealthy(s: Sys, step: Step)
    requires InboundHolds(s) && Enabled(s, step)
    requires step.ObserveStep? || step.PopRegistrationStep? || step.RegisterResultStep? || step.RegisterSilentStep? ||
      step.TakeStep?
    ensures InboundHolds(Next(s, step))
  {
    hide InboundHolds, CommandTickets, PoppedStale, FirstRegistration;
    FirstRegistrationFinds(s.core.commands, s.worker.generation);
    assert SameInbound(s, Next(s, step));
    ReserveStepStaysHealthy(s, Next(s, step));
  }

  lemma {:induction false} SnapshotStepStaysHealthy(s: Sys, step: Step)
    requires InboundHolds(s) && Enabled(s, step)
    requires step.TakeSnapshotStep? || step.SnapshotRejectedStep? || step.SnapshotFailStep? || step.CommitSnapshotStep?
    ensures InboundHolds(Next(s, step))
  {
    hide InboundHolds;
    assert SameInbound(s, Next(s, step));
    ReserveStepStaysHealthy(s, Next(s, step));
  }

  lemma {:induction false} AnswerStepStaysHealthy(s: Sys, step: Step)
    requires InboundHolds(s) && Enabled(s, step) && (step.HandleAckStep? || step.CommitRenameStep?)
    ensures InboundHolds(Next(s, step))
  {
    hide InboundHolds;
    assert SameInbound(s, Next(s, step));
    ReserveStepStaysHealthy(s, Next(s, step));
  }

  lemma {:induction false} TableStepStaysHealthy(s: Sys, step: Step)
    requires InboundHolds(s) && Enabled(s, step)
    requires step.ExpireAcksStep? || step.FailAcksStep? || step.ExpireQueuedStep? || step.FailQueuedStep? ||
      step.ClearAcksStep? || step.MarkJoinStep?
    ensures InboundHolds(Next(s, step))
  {
    hide InboundHolds, AcksOwed, AckTickets, KeepCommands;
    assert SameInbound(s, Next(s, step));
    ReserveStepStaysHealthy(s, Next(s, step));
  }

  lemma {:induction false} PrepareStaysHealthy(s: Sys)
    requires InboundHolds(s) && s.worker.Idle?
    ensures InboundHolds(PrepareJoinNext(s))
  {
    hide InboundHolds, Reserve, HasJoinCommandOrAck;
    assert SameInbound(s, PrepareJoinNext(s)) || ReservesOnly(s, PrepareJoinNext(s)) by { ReserveKeeps(s.core); }
    ReserveStepStaysHealthy(s, PrepareJoinNext(s));
  }

  predicate ResultsInHand(s: Sys) { forall owed | owed in s.hand :: owed.kind.IsProtected() }

  /** Every step keeps the inbound queue within its bounds, in order and coalesced. */
  lemma {:induction false} StepStaysHealthy(s: Sys, step: Step)
    requires InboundHolds(s) && ResultsInHand(s) && Enabled(s, step)
    ensures InboundHolds(Next(s, step))
  {
    hide InboundHolds;
    match step
    case DispatchStep => DispatchStaysHealthy(s);
    case ConfigureStep(_, _) => SupersedeStaysHealthy(s, Configure(s.core, step.serverValid, step.credentialsValid));
    case StopEndStep => SupersedeStaysHealthy(s, StopEnd(s.core));
    case DeliverStep(i, serialized) => DeliverCases(s, i, serialized);
    case NotifyStep(generation, kind, key, serialized) =>
      NotifyStaysHealthy(s, InboundMessage(generation, kind, key, serialized, s.feed.nextStamp));
    case EnqueueStep(_, _, _, _, _, _) => UserStepStaysHealthy(s, step);
    case JoinRoomStep(_, _, _) => UserStepStaysHealthy(s, step);
    case LeaveRoomStep(_) => UserStepStaysHealthy(s, step);
    case UploadRejectedStep(_) => UserStepStaysHealthy(s, step);
    case UploadStep(_, _, _) => UserStepStaysHealthy(s, step);
    case CancelStep(_) => UserStepStaysHealthy(s, step);
    case StopBeginStep => UserStepStaysHealthy(s, step);
    case TakeSnapshotStep => SnapshotStepStaysHealthy(s, step);
    case SnapshotRejectedStep => SnapshotStepStaysHealthy(s, step);
    case SnapshotFailStep => SnapshotStepStaysHealthy(s, step);
    case CommitSnapshotStep(_) => SnapshotStepStaysHealthy(s, step);
    case HandleAckStep(_, _) => AnswerStepStaysHealthy(s, step);
    case CommitRenameStep => AnswerStepStaysHealthy(s, step);
    case ExpireAcksStep(_) => TableStepStaysHealthy(s, step);
    case FailAcksStep => TableStepStaysHealthy(s, step);
    case ExpireQueuedStep(_) => TableStepStaysHealthy(s, step);
    case FailQueuedStep => TableStepStaysHealthy(s, step);
    case ClearAcksStep => TableStepStaysHealthy(s, step);
    case PrepareJoinStep => PrepareStaysHealthy(s);
    case MarkJoinStep => TableStepStaysHealthy(s, step);
    case AbortDropStep => WorkerStepStaysHealthy(s, step);
    case AllocateAckStep => WorkerStepStaysHealthy(s, step);
    case AckTableFullStep => WorkerStepStaysHealthy(s, step);
    case CommitAckStep(_) => WorkerStepStaysHealthy(s, step);
    case SendFailStep => WorkerStepStaysHealthy(s, step);
    case _ => QueueStepStaysHealthy(s, step);
  }
}
