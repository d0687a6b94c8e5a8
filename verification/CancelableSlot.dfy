/** The one slot through which a blocking network call can be cancelled: publishers put their
    handle in, cancellers exchange it out and close it. A step is one atomic operation. The
    right to close a handle moves like a token. */
module CancelableSlot {
  import opened Options

  /** Where the owner of a handle stands. A scope is active from Checking to Published. */
  datatype Phase =
    | Owned                                            // no scope; the owner will close the handle
    | Checking(generation: nat, flag: Option<nat>)     // about to test the flags for the first time
    | Swapping(generation: nat, flag: Option<nat>)     // about to put the handle in the slot
    | Rechecking(generation: nat, flag: Option<nat>, read: nat) // put in; flags read again so far
    | Withdrawing                                      // a flag was up: about to take the handle back
    | ClosingOwn                                       // taken back: about to close it
    | Published(generation: nat, flag: Option<nat>)    // the blocking call runs
    | Gone                                             // the owner has let go of the handle

  /** Handles by number, the slot, handles exchanged out but not yet closed, handles closed, the
      flags that publishers test, and what the last exchange came after. */
  datatype State = State(
    phases: map<nat, Phase>, slot: Option<nat>, taken: multiset<nat>, closed: multiset<nat>,
    generation: nat, stopRequested: bool, raised: set<nat>,
    sweptGeneration: nat, sweptFlags: set<nat>)

  const INITIAL := State(map[], None, multiset{}, multiset{}, 0, false, {}, 0, {})

  datatype Step =
    | Open(handle: nat)
    | BeginScope(handle: nat, generation: nat, flag: Option<nat>)
    | Check(handle: nat, passes: bool)
    | Swap(handle: nat)
    | Recheck(handle: nat)
    | Withdraw(handle: nat)
    | CloseOwn(handle: nat)
    | Finish(handle: nat)
    | Destroy(handle: nat)
    | Bump
    | SetStop(stop: bool)
    | Raise(raising: nat)
    | Exchange
    | CloseTaken(handle: nat)

  predicate Enabled(s: State, step: Step) {
    match step
    case Open(h) => h !in s.phases
    case BeginScope(h, _, _) => h in s.phases && s.phases[h].Owned?
    case Check(h, _) => h in s.phases && s.phases[h].Checking?
    case Swap(h) => h in s.phases && s.phases[h].Swapping?
    case Recheck(h) => h in s.phases && s.phases[h].Rechecking?
    case Withdraw(h) => h in s.phases && s.phases[h].Withdrawing?
    case CloseOwn(h) => h in s.phases && s.phases[h].ClosingOwn?
    case Finish(h) => h in s.phases && s.phases[h].Published?
    case Destroy(h) => h in s.phases && s.phases[h].Owned?
    case CloseTaken(h) => h in s.taken
    case _ => true
  }

  function Move(s: State, handle: nat, phase: Phase): State { s.(phases := s.phases[handle := phase]) }

  function Next(s: State, step: Step): State
    requires Enabled(s, step)
  {
    match step
    case Open(h) => Move(s, h, Owned)
    case BeginScope(h, generation, flag) => Move(s, h, Checking(generation, flag))
    case Check(h, passes) =>
      // three separate loads, so either outcome is possible
      Move(s, h, if passes then Swapping(s.phases[h].generation, s.phases[h].flag) else Owned)
    case Swap(h) =>
      var p := s.phases[h];
      if s.slot.Some? then Move(s, h, Owned)
      else Move(s, h, Rechecking(p.generation, p.flag, 0)).(slot := Some(h))
    case Recheck(h) => RecheckNext(s, h)
    case Withdraw(h) =>
      if s.slot == Some(h) then Move(s, h, ClosingOwn).(slot := None) else Move(s, h, Gone)
    case CloseOwn(h) => Move(s, h, Gone).(closed := s.closed + multiset{h})
    case Finish(h) => if s.slot == Some(h) then Move(s, h, Owned).(slot := None) else Move(s, h, Gone)
    case Destroy(h) => Move(s, h, Gone).(closed := s.closed + multiset{h})
    case Bump => s.(generation := s.generation + 1)
    case SetStop(stop) => s.(stopRequested := stop)
    case Raise(flag) => s.(raised := s.raised + {flag})
    case Exchange =>
      s.(slot := None, taken := if s.slot.Some? then s.taken + multiset{s.slot.value} else s.taken,
        sweptGeneration := s.generation, sweptFlags := s.raised)
    case CloseTaken(h) => s.(taken := s.taken - multiset{h}, closed := s.closed + multiset{h})
  }

  /** The flags are read one after the other: the scope's own, the stop request, the generation. */
  function RecheckNext(s: State, h: nat): State
    requires h in s.phases && s.phases[h].Rechecking?
  {
    var p := s.phases[h];
    if p.read == 0 then
      Move(s, h, if p.flag.Some? && p.flag.value in s.raised then Withdrawing else p.(read := 1))
    else if p.read == 1 then Move(s, h, if s.stopRequested then Withdrawing else p.(read := 2))
    else Move(s, h, if s.generation != p.generation then Withdrawing else Published(p.generation, p.flag))
  }

  // ---- The token ----

  predicate OwnerHolds(phase: Phase) { phase.Owned? || phase.Checking? || phase.Swapping? }

  predicate InScope(phase: Phase) { phase.Rechecking? || phase.Withdrawing? || phase.Published? }

  function Bit(b: bool): nat { if b then 1 else 0 }

  /** How often the right to close a handle exists: with its owner, in the slot, with a canceller,
      with the publisher that took it back, or spent. */
  function Tokens(s: State, h: nat): nat
    requires h in s.phases
  {
    Bit(OwnerHolds(s.phases[h])) + Bit(s.slot == Some(h)) + s.taken[h] + Bit(s.phases[h].ClosingOwn?) + s.closed[h]
  }

  ghost predicate OneToken(s: State) {
    && (forall h: nat | h in s.phases :: Tokens(s, h) == 1)
    && (s.slot.Some? ==> s.slot.value in s.phases && InScope(s.phases[s.slot.value]))
    && (forall h: nat | h in s.taken || h in s.closed :: h in s.phases)
  }

  /** A published handle in the slot was published under a generation and a flag that no exchange
      has swept since. */
  predicate Fresh(s: State) {
    && s.sweptGeneration <= s.generation && s.sweptFlags <= s.raised
    && (s.slot.Some? && s.slot.value in s.phases ==> FreshPhase(s, s.phases[s.slot.value]))
  }

  predicate FreshPhase(s: State, phase: Phase) {
    && (phase.Rechecking? && phase.read > 0 && phase.flag.Some? ==> phase.flag.value !in s.sweptFlags)
    && (phase.Published? ==> s.sweptGeneration <= phase.generation)
    && (phase.Published? && phase.flag.Some? ==> phase.flag.value !in s.sweptFlags)
  }

  ghost predicate Inv(s: State) { OneToken(s) && Fresh(s) }

  lemma {:induction false} ScopeMovesTokens(s: State, step: Step, h: nat)
    requires h in s.phases && Enabled(s, step)
    requires step.BeginScope? || step.Check? || step.Swap? || step.Recheck?
    ensures h in Next(s, step).phases && Tokens(Next(s, step), h) == Tokens(s, h)
  {
  }

  lemma {:induction false} ReturnMovesTokens(s: State, step: Step, h: nat)
    requires h in s.phases && Enabled(s, step)
    requires step.Withdraw? || step.CloseOwn? || step.Finish? || step.Destroy?
    ensures h in Next(s, step).phases && Tokens(Next(s, step), h) == Tokens(s, h)
  {
  }

  lemma {:induction false} CancelMovesTokens(s: State, step: Step, h: nat)
    requires h in s.phases && Enabled(s, step)
    requires step.Open? || step.Bump? || step.SetStop? || step.Raise? || step.Exchange? || step.CloseTaken?
    ensures h in Next(s, step).phases && Tokens(Next(s, step), h) == Tokens(s, h)
  {
  }

  /** No step creates or destroys a token of an open handle. */
  lemma {:induction false} TokenMoves(s: State, step: Step, h: nat)
    requires h in s.phases && Enabled(s, step)
    ensures h in Next(s, step).phases && Tokens(Next(s, step), h) == Tokens(s, h)
  {
    hide Tokens, Next, Enabled;
    if step.BeginScope? || step.Check? || step.Swap? || step.Recheck? { ScopeMovesTokens(s, step, h); }
    else if step.Withdraw? || step.CloseOwn? || step.Finish? || step.Destroy? { ReturnMovesTokens(s, step, h); }
    else { CancelMovesTokens(s, step, h); }
  }

  lemma {:induction false} SlotKept(s: State, step: Step)
    requires OneToken(s) && Enabled(s, step)
    ensures var t := Next(s, step);
      t.slot.Some? ==> t.slot.value in t.phases && InScope(t.phases[t.slot.value])
  {
    hide OneToken;
    SlotInScope(s);
    if s.slot.Some? { TokenUnique(s, s.slot.value); }
  }

  lemma {:induction false} SlotInScope(s: State)
    requires OneToken(s)
    ensures s.slot.Some? ==> s.slot.value in s.phases && InScope(s.phases[s.slot.value])
  {
  }

  lemma {:induction false} TokenUnique(s: State, h: nat)
    requires OneToken(s) && h in s.phases
    ensures Tokens(s, h) == 1
  {
  }

  predicate Known(s: State, h: nat) { h in s.taken || h in s.closed ==> h in s.phases }

  predicate SlotHolds(s: State) { s.slot.Some? ==> s.slot.value in s.phases && InScope(s.phases[s.slot.value]) }

  lemma {:induction false} KnownHandles(s: State, step: Step, h: nat)
    requires Enabled(s, step) && Known(s, h) && SlotHolds(s)
    ensures Known(Next(s, step), h)
  {
  }

  lemma {:induction false} OpensWithOneToken(s: State, h: nat)
    requires OneToken(s) && Enabled(s, Open(h))
    ensures Tokens(Next(s, Open(h)), h) == 1
  {
  }

  lemma {:induction false} StepKeepsTokens(s: State, step: Step)
    requires OneToken(s) && Enabled(s, step)
    ensures OneToken(Next(s, step))
  {
    hide Tokens, Next, Enabled, InScope;
    var t := Next(s, step);
    SlotKept(s, step);
    forall h: nat | h in t.phases ensures Tokens(t, h) == 1 {
      if h in s.phases { TokenMoves(s, step, h); }
      else { OnlyOpenOpens(s, step, h); }
    }
    SlotInScope(s);
    forall h: nat | h in t.taken || h in t.closed ensures h in t.phases {
      assert Known(s, h);
      KnownHandles(s, step, h);
    }
  }

  lemma {:induction false} OnlyOpenOpens(s: State, step: Step, h: nat)
    requires OneToken(s) && Enabled(s, step) && h !in s.phases && h in Next(s, step).phases
    ensures Tokens(Next(s, step), h) == 1
  {
    hide Tokens, OneToken;
    assert step == Open(h);
    OpensWithOneToken(s, h);
  }

  lemma {:induction false} ScopeKeepsFresh(s: State, step: Step)
    requires SlotHolds(s) && Fresh(s) && Enabled(s, step)
    requires step.BeginScope? || step.Check? || step.Swap? || step.Open?
    ensures Fresh(Next(s, step))
  {
  }

  lemma {:induction false} RecheckKeepsFresh(s: State, step: Step)
    requires SlotHolds(s) && Fresh(s) && Enabled(s, step) && step.Recheck?
    ensures Fresh(Next(s, step))
  {
  }

  lemma {:induction false} ReturnKeepsFresh(s: State, step: Step)
    requires SlotHolds(s) && Fresh(s) && Enabled(s, step)
    requires step.Withdraw? || step.CloseOwn? || step.Finish? || step.Destroy?
    ensures Fresh(Next(s, step))
  {
  }

  lemma {:induction false} CancelKeepsFresh(s: State, step: Step)
    requires Fresh(s) && Enabled(s, step)
    requires step.Bump? || step.SetStop? || step.Raise? || step.Exchange? || step.CloseTaken?
    ensures Fresh(Next(s, step))
  {
  }

  lemma {:induction false} StepKeepsFresh(s: State, step: Step)
    requires OneToken(s) && Fresh(s) && Enabled(s, step)
    ensures Fresh(Next(s, step))
  {
    hide Tokens, Next, Fresh, Enabled;
    SlotInScope(s);
    if step.BeginScope? || step.Check? || step.Swap? || step.Open? { ScopeKeepsFresh(s, step); }
    else if step.Recheck? { RecheckKeepsFresh(s, step); }
    else if step.Withdraw? || step.CloseOwn? || step.Finish? || step.Destroy? { ReturnKeepsFresh(s, step); }
    else { CancelKeepsFresh(s, step); }
  }

  // ---- Runs ----

  ghost predicate CanRun(s: State, steps: seq<Step>)
    decreases |steps|
  {
    steps != [] ==> Enabled(s, steps[0]) && CanRun(Next(s, steps[0]), steps[1..])
  }

  ghost function After(s: State, steps: seq<Step>): State
    requires CanRun(s, steps)
    decreases |steps|
  {
    if steps == [] then s else After(Next(s, steps[0]), steps[1..])
  }

  ghost predicate Reachable(s: State) {
    exists steps :: CanRun(INITIAL, steps) && After(INITIAL, steps) == s
  }

  lemma {:induction false} RunKeepsInvariant(s: State, steps: seq<Step>)
    requires Inv(s) && CanRun(s, steps)
    ensures Inv(After(s, steps))
    decreases |steps|
  {
    hide Next, Enabled, OneToken, Fresh;
    if steps != [] {
      StepKeepsTokens(s, steps[0]);
      StepKeepsFresh(s, steps[0]);
      RunKeepsInvariant(Next(s, steps[0]), steps[1..]);
    }
  }

  lemma {:induction false} ReachableInvariant(s: State)
    requires Reachable(s)
    ensures Inv(s)
  {
    hide Next, Enabled;
    var steps :| CanRun(INITIAL, steps) && After(INITIAL, steps) == s;
    RunKeepsInvariant(INITIAL, steps);
  }

  // ---- What the protocol promises ----

  /** Under every interleaving a handle is closed at most once, and exactly once as soon as its
      owner has let go of it and no canceller still holds it. */
  lemma {:induction false} ClosedExactlyOnce(s: State, h: nat)
    requires Reachable(s) && h in s.phases
    ensures s.closed[h] <= 1 && s.taken[h] <= 1
    ensures s.phases[h].Gone? && h !in s.taken ==> s.closed[h] == 1
    ensures OwnerHolds(s.phases[h]) ==> s.closed[h] == 0 && h !in s.taken && s.slot != Some(h)
  {
    hide Fresh, Reachable;
    ReachableInvariant(s);
    assert Tokens(s, h) == 1;
  }

  /** A handle is in the slot only while its scope lasts. */
  lemma {:induction false} SlotBelongsToScope(s: State)
    requires Reachable(s) && s.slot.Some?
    ensures s.slot.value in s.phases && InScope(s.phases[s.slot.value])
    ensures s.closed[s.slot.value] == 0 && s.slot.value !in s.taken
  {
    hide Fresh, Reachable;
    ReachableInvariant(s);
    assert Tokens(s, s.slot.value) == 1;
  }

  /** After the generation is raised and the slot exchanged, no call published under an earlier
      generation is left running out of a canceller's reach: its handle is taken or closed. The
      same holds for a scope's own flag. */
  lemma {:induction false} SweptCallsAreCancelled(s: State, h: nat)
    requires Reachable(s) && h in s.phases && s.phases[h].Published?
    requires s.phases[h].generation < s.sweptGeneration ||
      (s.phases[h].flag.Some? && s.phases[h].flag.value in s.sweptFlags)
    ensures s.slot != Some(h)
    ensures h in s.taken || h in s.closed
  {
    hide Reachable;
    ReachableInvariant(s);
    assert Tokens(s, h) == 1;
  }
}
