/** Runs that reach the states the other files warn of: an operation whose result never comes
    although the client is neither reconfigured again nor stopped, and a command queue over its limit. */
module CloudLosses {
  import opened Options
  import opened CloudQueue
  import opened CloudTickets
  import opened CloudRuns

  lemma {:induction false} Extend(s: Sys, steps: seq<Step>, step: Step)
    requires CanRun(s, steps) && Enabled(After(s, steps), step)
    ensures CanRun(s, steps + [step]) && After(s, steps + [step]) == Next(After(s, steps), step)
    decreases |steps|
  {
    hide Enabled, Next;
    var more := steps + [step];
    if steps == [] {
      assert more[0] == step && more[1..] == [];
    } else {
      Extend(Next(s, steps[0]), steps[1..], step);
      assert more[0] == steps[0] && more[1..] == steps[1..] + [step];
    }
  }

  lemma {:induction false} ReachesNext(s: Sys, step: Step)
    requires Reachable(s) && Enabled(s, step)
    ensures Reachable(Next(s, step))
  {
    hide Enabled, Next;
    var steps :| CanRun(INITIAL, steps) && After(INITIAL, steps) == s;
    Extend(INITIAL, steps, step);
  }

  lemma {:induction false} ReachesInitial()
    ensures Reachable(INITIAL)
  {
    assert CanRun(INITIAL, []) && After(INITIAL, []) == INITIAL;
  }

  /** A freshly configured client whose worker has read configuration `seen`. */
  predicate Ready(s: Sys, generation: nat, seen: nat) {
    && s.core == Core(generation, generation, false, true, true, [], None, map[], 1, None, None, None, 1, [], 0, 0)
    && s.worker == Idle(seen) && s.hand == [] && s.nextTicket == 0
    && s.book == Book([], multiset{}, multiset{}, multiset{})
  }

  lemma {:induction false} ConfigureWhenIdle(s: Sys)
    requires Ready(s, s.core.generation, s.worker.generation) || s == INITIAL
    ensures Ready(Next(s, ConfigureStep(true, true)), s.core.generation + 1, s.worker.generation)
  {
    assert CommandTickets([]) == multiset{} && HandTickets([], s.core.generation) == multiset{};
    NoAcks(1);
    assert Held(s) == multiset{};
  }

  lemma {:induction false} ReadyState() returns (s: Sys)
    ensures Reachable(s) && Ready(s, 1, 1)
  {
    hide Reachable;
    ReachesInitial();
    s := Next(INITIAL, ConfigureStep(true, true));
    ConfigureWhenIdle(INITIAL);
    ReachesNext(INITIAL, ConfigureStep(true, true));
    ReachesNext(s, ObserveStep);
    s := Next(s, ObserveStep);
  }

  const RENAME := EnqueueStep(RenameRoom, "name", "", "", 0, 0)
  const REGISTER := EnqueueStep(RegisterDevice, "device", "", "", 0, 0)

  lemma {:induction false} EnqueueWhenReady(s: Sys, step: Step)
    requires Ready(s, s.core.generation, s.worker.generation) && (step == RENAME || step == REGISTER)
    ensures var t := EnqueueNext(s, step.kind, step.argument, "", "", 0, 0);
      t.core.commands == [Command(step.kind, step.argument, "", "", s.core.generation, 1, 0, 0, true, 0)] &&
      t == s.(nextTicket := 1, core := s.core.(commands := t.core.commands, nextSequence := 2, reservations := 1),
        naming := t.naming)
  {
  }

  /** What is left after such a run: a credit that no one holds, and no result. */
  predicate Stranded(s: Sys) {
    && !s.core.stopping && s.core.commands == [] && s.core.latest.None? && s.core.acks == map[] && s.hand == []
    && s.worker.Idle? && s.book == Book([], multiset{}, multiset{0}, multiset{}) && s.core.reservations == 1
  }

  /** The front-pop loop of a pass under an earlier configuration discards a command accepted
      under the present one, and its credit stays taken. */
  lemma {:induction false} StalePassStrands() returns (s: Sys)
    ensures Reachable(s) && Stranded(s)
  {
    hide Reachable, Enqueue, Held;
    s := ReadyState();
    ConfigureWhenIdle(s);
    ReachesNext(s, ConfigureStep(true, true));
    s := Next(s, ConfigureStep(true, true));
    EnqueueWhenReady(s, RENAME);
    ReachesNext(s, RENAME);
    s := Next(s, RENAME);
    ReachesNext(s, TakeStep);
    TakeWhenStale(s);
    s := Next(s, TakeStep);
  }

  lemma {:induction false} TakeWhenStale(s: Sys)
    requires |s.core.commands| == 1 && s.worker.Idle? && s.core.commands[0].generation != s.worker.generation
    requires s.core.commands[0].ticket == 0 && s.book.lost == multiset{}
    ensures TakeNext(s) == s.(core := s.core.(commands := []), book := s.book.(lost := multiset{0}))
  {
    assert SkipStale(s.core.commands[1..], s.worker.generation) == [];
    assert PoppedStale(s.core.commands, s.worker.generation) == [s.core.commands[0]];
    OneCommand(s.core.commands[0]);
  }

  /** A registration that finds the cancel slot held returns without a result, though nothing
      was reconfigured or stopped. */
  lemma {:induction false} HeldSlotStrands() returns (s: Sys)
    ensures Reachable(s) && Stranded(s)
  {
    hide Reachable, Enqueue, Held, WorkerTickets;
    s := ReadyState();
    EnqueueWhenReady(s, REGISTER);
    ReachesNext(s, REGISTER);
    s := Next(s, REGISTER);
    PopWhenFirst(s);
    ReachesNext(s, PopRegistrationStep);
    s := Next(s, PopRegistrationStep);
    RegistrationTicket(s);
    ReachesNext(s, RegisterSilentStep(true));
    s := Next(s, RegisterSilentStep(true));
  }

  lemma {:induction false} PopWhenFirst(s: Sys)
    requires |s.core.commands| == 1 && s.worker.Idle? && s.core.commands[0].generation == s.worker.generation
    requires s.core.commands[0].kind.RegisterDevice?
    ensures PopRegistrationNext(s) ==
      s.(core := s.core.(commands := []), worker := Registering(s.worker.generation, s.core.commands[0]))
  {
    assert FirstRegistration(s.core.commands, s.worker.generation) == Some(0);
  }

  lemma {:induction false} RegistrationTicket(s: Sys)
    requires s.worker.Registering? && s.worker.generation == s.core.generation
    ensures WorkerTickets(s.worker, s.core.generation) == multiset{s.worker.command.ticket}
  {
  }

  /** Generation 1, n renames queued, and room for more. */
  predicate Filled(s: Sys, n: nat) {
    && s.core.generation == 1 && s.core.configGeneration == 1 && !s.core.stopping && s.core.serverValid
    && s.core.credentialsValid && |s.core.commands| == n && s.core.acks == map[]
    && (forall command | command in s.core.commands ::
      command.generation == 1 && command.reserved && command.kind.RenameRoom?)
    && s.core.inbound == [] && s.core.queued == 0 && s.core.reservations <= MAX_COMMAND_QUEUE + 1
    && s.worker.generation == 1
  }

  lemma {:induction false} EnqueueWhenFilled(s: Sys, n: nat)
    requires Filled(s, n) && n < MAX_COMMAND_QUEUE && s.core.reservations <= MAX_COMMAND_QUEUE
    ensures Filled(Next(s, RENAME), n + 1) && Next(s, RENAME).worker == s.worker
    ensures Next(s, RENAME).core.reservations == s.core.reservations + 1
  {
  }

  lemma {:induction false} FillQueue(n: nat) returns (s: Sys)
    requires n <= MAX_COMMAND_QUEUE
    ensures Reachable(s) && Filled(s, n) && s.worker == Idle(1) && s.core.reservations == n
  {
    hide Reachable, Next;
    if n == 0 {
      s := ReadyState();
    } else {
      var fewer := FillQueue(n - 1);
      EnqueueWhenFilled(fewer, n - 1);
      ReachesNext(fewer, RENAME);
      s := Next(fewer, RENAME);
    }
  }

  lemma {:induction false} TakeWhenFilled(s: Sys, n: nat)
    requires Filled(s, n) && n > 0 && s.worker == Idle(1)
    ensures Filled(TakeNext(s), n - 1) && TakeNext(s).worker == Sending(1, s.core.commands[0], None, false)
    ensures TakeNext(s).core.reservations == s.core.reservations
  {
    hide CommandTickets, PoppedStale;
  }

  lemma {:induction false} ReturnWhenFilled(s: Sys, n: nat)
    requires Filled(s, n) && s.worker.Sending? && !s.worker.remembered && s.worker.command.reserved
    ensures |SendFailNext(s).core.commands| == n + 1
  {
  }

  /** A command returned to the front while the queue was refilled takes it one over its limit. */
  lemma {:induction false} QueueOverLimit() returns (s: Sys)
    ensures Reachable(s) && |s.core.commands| == MAX_COMMAND_QUEUE + 1
  {
    hide Reachable, Enqueue, TakeNext, SendFailNext;
    s := FillQueue(MAX_COMMAND_QUEUE);
    assert s.core.commands[0] in s.core.commands;
    TakeWhenFilled(s, MAX_COMMAND_QUEUE);
    ReachesNext(s, TakeStep);
    s := Next(s, TakeStep);
    EnqueueWhenFilled(s, MAX_COMMAND_QUEUE - 1);
    ReachesNext(s, RENAME);
    s := Next(s, RENAME);
    ReturnWhenFilled(s, MAX_COMMAND_QUEUE);
    ReachesNext(s, SendFailStep);
    s := Next(s, SendFailStep);
  }
}
