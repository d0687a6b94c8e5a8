/** The tickets held in each place where an operation can wait, as multisets, and how they
    move when the place changes. */
module CloudTickets {
  import opened Options
  import opened CloudQueue

  /** A result that some thread has taken out of the tables and is about to deliver. */
  datatype Owed = Owed(generation: nat, kind: MessageType, ticket: nat)

  function One(held: bool, ticket: nat): multiset<nat> {
    if held then multiset{ticket} else multiset{}
  }

  lemma {:induction false} OneSize(held: bool, ticket: nat)
    ensures |One(held, ticket)| == if held then 1 else 0
    ensures !held ==> One(held, ticket) == multiset{}
  {
  }

  function CommandTickets(commands: seq<Command>): multiset<nat> {
    if commands == [] then multiset{} else One(true, commands[0].ticket) + CommandTickets(commands[1..])
  }

  function LatestTickets(latest: Option<PendingSnapshot>): multiset<nat> {
    if latest.Some? then One(true, latest.value.ticket) else multiset{}
  }

  /** The tickets of the acknowledgements with IDs below n. */
  function AckTickets(acks: map<nat, PendingAck>, n: nat): multiset<nat> {
    if n == 0 then multiset{}
    else if n - 1 in acks then AckTickets(acks, n - 1) + One(true, acks[n - 1].ticket)
    else AckTickets(acks, n - 1)
  }

  function HandTickets(hand: seq<Owed>, generation: nat): multiset<nat> {
    if hand == [] then multiset{}
    else One(hand[0].generation == generation, hand[0].ticket) + HandTickets(hand[1..], generation)
  }

  function CommandsOwed(commands: seq<Command>): (r: seq<Owed>)
    ensures |r| == |commands|
    ensures forall i | 0 <= i < |r| ::
      r[i] == Owed(commands[i].generation, commands[i].kind.ResultType(), commands[i].ticket)
  {
    seq(|commands|, i requires 0 <= i < |commands| =>
      Owed(commands[i].generation, commands[i].kind.ResultType(), commands[i].ticket))
  }

  function AcksOwed(acks: map<nat, PendingAck>, n: nat, generation: nat): seq<Owed> {
    if n == 0 then []
    else if n - 1 in acks then
      AcksOwed(acks, n - 1, generation) + [Owed(generation, acks[n - 1].kind.ResultType(), acks[n - 1].ticket)]
    else AcksOwed(acks, n - 1, generation)
  }

  // ---- Commands ----

  lemma {:induction false} CommandsConcat(a: seq<Command>, b: seq<Command>)
    ensures CommandTickets(a + b) == CommandTickets(a) + CommandTickets(b)
  {
    if a == [] { assert a + b == b; }
    else {
      assert (a + b)[1..] == a[1..] + b;
      CommandsConcat(a[1..], b);
    }
  }

  lemma {:induction false} OneCommand(c: Command)
    ensures CommandTickets([c]) == One(true, c.ticket)
  {
    assert CommandTickets([c][1..]) == multiset{};
  }

  lemma {:induction false} CommandsWithout(commands: seq<Command>, i: nat)
    requires i < |commands|
    ensures CommandTickets(commands) ==
      CommandTickets(commands[..i] + commands[i + 1..]) + One(true, commands[i].ticket)
  {
    assert commands == commands[..i] + ([commands[i]] + commands[i + 1..]);
    CommandsConcat(commands[..i], [commands[i]] + commands[i + 1..]);
    CommandsConcat([commands[i]], commands[i + 1..]);
    OneCommand(commands[i]);
    CommandsConcat(commands[..i], commands[i + 1..]);
  }

  lemma {:induction false} CommandsSize(commands: seq<Command>)
    ensures |CommandTickets(commands)| == |commands|
  {
    if commands != [] { CommandsSize(commands[1..]); }
  }

  lemma {:induction false} KeepUnfold(commands: seq<Command>, keep: Command -> bool)
    requires commands != []
    ensures CommandTickets(KeepCommands(commands, keep)) ==
      One(keep(commands[0]), commands[0].ticket) + CommandTickets(KeepCommands(commands[1..], keep))
  {
    CommandsConcat([commands[0]], KeepCommands(commands[1..], keep));
    OneCommand(commands[0]);
  }

  lemma {:induction false} KeepSplits(commands: seq<Command>, keep: Command -> bool, drop: Command -> bool)
    requires forall c | c in commands :: keep(c) == !drop(c)
    ensures CommandTickets(commands) ==
      CommandTickets(KeepCommands(commands, keep)) + CommandTickets(KeepCommands(commands, drop))
  {
    if commands != [] {
      KeepSplits(commands[1..], keep, drop);
      assert keep(commands[0]) == !drop(commands[0]);
      KeepUnfold(commands, keep);
      KeepUnfold(commands, drop);
    }
  }

  lemma {:induction false} KeepKeeps(commands: seq<Command>, keep: Command -> bool)
    ensures forall c :: c in KeepCommands(commands, keep) <==> c in commands && keep(c)
  {
    if commands != [] {
      KeepKeeps(commands[1..], keep);
      assert commands == [commands[0]] + commands[1..];
    }
  }

  // ---- Acknowledgements ----

  ghost predicate Splits(all: map<nat, PendingAck>, left: map<nat, PendingAck>, right: map<nat, PendingAck>) {
    && (forall id: nat :: id in all <==> id in left || id in right)
    && (forall id: nat :: !(id in left && id in right))
    && (forall id: nat | id in left :: id in all && all[id] == left[id])
    && (forall id: nat | id in right :: id in all && all[id] == right[id])
  }

  lemma {:induction false} AcksSplit(all: map<nat, PendingAck>, left: map<nat, PendingAck>,
    right: map<nat, PendingAck>, n: nat)
    requires Splits(all, left, right)
    ensures AckTickets(all, n) == AckTickets(left, n) + AckTickets(right, n)
  {
    if n != 0 { AcksSplit(all, left, right, n - 1); }
  }

  lemma {:induction false} NoAcks(n: nat)
    ensures AckTickets(map[], n) == multiset{}
  {
    if n != 0 { NoAcks(n - 1); }
  }

  lemma {:induction false} OneAck(id: nat, pending: PendingAck, n: nat)
    ensures AckTickets(map[id := pending], n) == One(id < n, pending.ticket)
  {
    if n != 0 { OneAck(id, pending, n - 1); }
  }

  lemma {:induction false} AcksWiden(acks: map<nat, PendingAck>, n: nat, wider: nat)
    requires n <= wider
    requires forall id: nat | id in acks :: id < n
    ensures AckTickets(acks, wider) == AckTickets(acks, n)
  {
    if n < wider { AcksWiden(acks, n, wider - 1); }
  }

  lemma {:induction false} AckAdded(acks: map<nat, PendingAck>, id: nat, pending: PendingAck, n: nat)
    requires id !in acks && id < n
    ensures AckTickets(acks[id := pending], n) == AckTickets(acks, n) + One(true, pending.ticket)
  {
    assert Splits(acks[id := pending], acks, map[id := pending]);
    AcksSplit(acks[id := pending], acks, map[id := pending], n);
    OneAck(id, pending, n);
  }

  lemma {:induction false} AckRemoved(acks: map<nat, PendingAck>, id: nat, n: nat)
    requires id in acks && id < n
    ensures AckTickets(acks, n) == AckTickets(acks - {id}, n) + One(true, acks[id].ticket)
  {
    AckAdded(acks - {id}, id, acks[id], n);
    assert (acks - {id})[id := acks[id]] == acks;
  }

  lemma {:induction false} MapWithout(acks: map<nat, PendingAck>, id: nat)
    requires id in acks
    ensures |acks| == |acks - {id}| + 1
  {
    assert acks.Keys == (acks - {id}).Keys + {id};
  }

  lemma {:induction false} AcksSize(acks: map<nat, PendingAck>, n: nat)
    requires forall id: nat | id in acks :: id < n
    ensures |AckTickets(acks, n)| == |acks|
  {
    hide AckTickets;
    if n == 0 {
      assert acks == map[];
      NoAcks(n);
    } else if n - 1 in acks {
      AcksSizeStep(acks, n);
      AcksSize(acks - {n - 1}, n - 1);
    } else {
      AcksSize(acks, n - 1);
      AcksWiden(acks, n - 1, n);
    }
  }

  lemma {:induction false} AcksSizeStep(acks: map<nat, PendingAck>, n: nat)
    requires n > 0 && n - 1 in acks
    requires forall id: nat | id in acks :: id < n
    ensures |acks| == |acks - {n - 1}| + 1
    ensures |AckTickets(acks, n)| == |AckTickets(acks - {n - 1}, n - 1)| + 1
  {
    hide AckTickets;
    MapWithout(acks, n - 1);
    AckRemoved(acks, n - 1, n);
    AcksWiden(acks - {n - 1}, n - 1, n);
  }

  // ---- Results in hand ----

  lemma {:induction false} HandConcat(a: seq<Owed>, b: seq<Owed>, generation: nat)
    ensures HandTickets(a + b, generation) == HandTickets(a, generation) + HandTickets(b, generation)
  {
    if a == [] { assert a + b == b; }
    else {
      assert (a + b)[1..] == a[1..] + b;
      HandConcat(a[1..], b, generation);
    }
  }

  lemma {:induction false} OneOwed(owed: Owed, generation: nat)
    ensures HandTickets([owed], generation) == One(owed.generation == generation, owed.ticket)
  {
    assert HandTickets([owed][1..], generation) == multiset{};
  }

  lemma {:induction false} HandWithout(hand: seq<Owed>, i: nat, generation: nat)
    requires i < |hand|
    ensures HandTickets(hand, generation) ==
      HandTickets(hand[..i] + hand[i + 1..], generation) + One(hand[i].generation == generation, hand[i].ticket)
  {
    assert hand == hand[..i] + ([hand[i]] + hand[i + 1..]);
    HandConcat(hand[..i], [hand[i]] + hand[i + 1..], generation);
    HandConcat([hand[i]], hand[i + 1..], generation);
    OneOwed(hand[i], generation);
    HandConcat(hand[..i], hand[i + 1..], generation);
  }

  lemma {:induction false} HandOfOthers(hand: seq<Owed>, generation: nat)
    requires forall owed | owed in hand :: owed.generation != generation
    ensures HandTickets(hand, generation) == multiset{}
  {
    if hand != [] {
      assert hand[0] in hand;
      HandOfOthers(hand[1..], generation);
    }
  }

  lemma {:induction false} CommandsBecomeOwed(commands: seq<Command>, generation: nat)
    requires forall c | c in commands :: c.generation == generation
    ensures HandTickets(CommandsOwed(commands), generation) == CommandTickets(commands)
  {
    if commands != [] {
      assert commands[0] in commands;
      assert CommandsOwed(commands)[1..] == CommandsOwed(commands[1..]);
      CommandsBecomeOwed(commands[1..], generation);
    }
  }

  lemma {:induction false} AcksBecomeOwed(acks: map<nat, PendingAck>, n: nat, generation: nat)
    ensures HandTickets(AcksOwed(acks, n, generation), generation) == AckTickets(acks, n)
  {
    hide HandTickets;
    if n == 0 {
      HandOfOthers([], generation);
    } else {
      AcksBecomeOwed(acks, n - 1, generation);
      if n - 1 in acks {
        var last := Owed(generation, acks[n - 1].kind.ResultType(), acks[n - 1].ticket);
        HandConcat(AcksOwed(acks, n - 1, generation), [last], generation);
        OneOwed(last, generation);
      }
    }
  }

  lemma {:induction false} AcksOwedAreProtected(acks: map<nat, PendingAck>, n: nat, generation: nat)
    ensures forall owed | owed in AcksOwed(acks, n, generation) ::
      owed.generation == generation && owed.kind.IsProtected()
  {
    if n != 0 { AcksOwedAreProtected(acks, n - 1, generation); }
  }
}
