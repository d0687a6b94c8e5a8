/** Assembling WebSocket text messages from the buffers in which they arrive (section 5.4 of RFC 6455). */
module WebSocketText {
  import opened Collections
  import opened Utf8

  const MAX_INBOUND := 131072

  datatype Kind = Utf8Fragment | Utf8Message | BinaryFragment | BinaryMessage

  datatype Result = Incomplete | Complete(message: seq<byte>) | Rejected

  datatype Input = Input(bytes: seq<byte>, kind: Kind)

  /** What one buffer does to the fragments held so far. */
  ghost function Outcome(held: seq<byte>, input: Input): Result {
    if input.kind.BinaryFragment? || input.kind.BinaryMessage? then Rejected
    else if |held| + |input.bytes| > MAX_INBOUND then Rejected
    else if input.kind.Utf8Fragment? then Incomplete
    else if IsEncoded(held + input.bytes) then Complete(held + input.bytes)
    else Rejected
  }

  ghost function HeldAfter(held: seq<byte>, input: Input): seq<byte> {
    if Outcome(held, input).Incomplete? then held + input.bytes else []
  }

  class TextAssembler {
    var buffer: seq<byte>

    ghost predicate Valid()
      reads this
    {
      |buffer| <= MAX_INBOUND
    }

    constructor ()
      ensures Valid() && buffer == []
    {
      buffer := [];
    }

    /** The size is compared by subtracting from the limit, which cannot underflow. */
    method Add(bytes: seq<byte>, kind: Kind) returns (result: Result)
      requires Valid()
      modifies this
      ensures Valid()
      ensures result == Outcome(old(buffer), Input(bytes, kind))
      ensures buffer == HeldAfter(old(buffer), Input(bytes, kind))
    {
      if kind == BinaryFragment || kind == BinaryMessage {
        Reset();
        return Rejected;
      }
      var space: nat := MAX_INBOUND - |buffer|;
      if |bytes| > space {
        Reset();
        return Rejected;
      }
      buffer := buffer + bytes;
      if kind == Utf8Fragment { return Incomplete; }
      var valid := IsValid(buffer);
      if !valid {
        Reset();
        return Rejected;
      }
      result := Complete(buffer);
      buffer := [];
    }

    method Reset()
      modifies this
      ensures buffer == []
    {
      buffer := [];
    }
  }

  // ---- Runs ----

  /** What is held after a run of buffers, and what the run gave back. */
  ghost function Held(inputs: seq<Input>): seq<byte> {
    if inputs == [] then [] else HeldAfter(Held(inputs[..|inputs| - 1]), inputs[|inputs| - 1])
  }

  ghost function ResultAt(inputs: seq<Input>, i: nat): Result
    requires i < |inputs|
  {
    Outcome(Held(inputs[..i]), inputs[i])
  }

  function Joined(inputs: seq<Input>): seq<byte> {
    if inputs == [] then [] else Joined(inputs[..|inputs| - 1]) + inputs[|inputs| - 1].bytes
  }

  /** The buffers from j up to i are the fragments since the last reset: all before i were kept, and
      the one before j, if any, was not. */
  ghost predicate SinceReset(inputs: seq<Input>, j: nat, i: nat) {
    && j <= i < |inputs|
    && (forall k | j <= k < i :: ResultAt(inputs, k).Incomplete?)
    && (j > 0 ==> !ResultAt(inputs, j - 1).Incomplete?)
  }

  lemma {:induction false} HeldSinceReset(inputs: seq<Input>, j: nat, i: nat)
    requires SinceReset(inputs, j, i)
    ensures Held(inputs[..i]) == Joined(inputs[j..i])
    decreases i - j
  {
    hide Outcome, Held, Joined;
    NothingHeld();
    if i == j {
      assert inputs[j..i] == [];
      if i == 0 {
        assert inputs[..i] == [];
      } else {
        SliceFront(inputs, 0, i);
        HeldAfterLast(inputs[..i]);
      }
    } else {
      HeldSinceReset(inputs, j, i - 1);
      assert ResultAt(inputs, i - 1).Incomplete?;
      SliceFront(inputs, j, i);
      HeldAfterLast(inputs[..i]);
      JoinedLast(inputs[j..i]);
    }
  }

  lemma {:induction false} NothingHeld()
    ensures Held([]) == [] && Joined([]) == []
  {
  }

  lemma {:induction false} HeldAfterLast(inputs: seq<Input>)
    requires inputs != []
    ensures Held(inputs) == HeldAfter(Held(inputs[..|inputs| - 1]), inputs[|inputs| - 1])
  {
  }

  lemma {:induction false} JoinedLast(inputs: seq<Input>)
    requires inputs != []
    ensures Joined(inputs) == Joined(inputs[..|inputs| - 1]) + inputs[|inputs| - 1].bytes
  {
  }

  /** Where the fragments held when buffer i arrives begin. */
  ghost function LastReset(inputs: seq<Input>, i: nat): nat
    requires i < |inputs|
  {
    if i == 0 || !ResultAt(inputs, i - 1).Incomplete? then i else LastReset(inputs, i - 1)
  }

  lemma {:induction false} LastResetIsReset(inputs: seq<Input>, i: nat)
    requires i < |inputs|
    ensures SinceReset(inputs, LastReset(inputs, i), i)
  {
    if i > 0 && ResultAt(inputs, i - 1).Incomplete? { LastResetIsReset(inputs, i - 1); }
  }

  ghost predicate IsText(kind: Kind) { kind.Utf8Fragment? || kind.Utf8Message? }

  lemma {:induction false} ResultSinceReset(inputs: seq<Input>, j: nat, i: nat)
    requires SinceReset(inputs, j, i)
    ensures var whole := Joined(inputs[j..i + 1]);
      ResultAt(inputs, i) == (if !IsText(inputs[i].kind) || |whole| > MAX_INBOUND then Rejected
        else if inputs[i].kind.Utf8Fragment? then Incomplete
        else if IsEncoded(whole) then Complete(whole) else Rejected)
  {
    hide Joined, Held;
    HeldSinceReset(inputs, j, i);
    SliceFront(inputs, j, i + 1);
    JoinedLast(inputs[j..i + 1]);
  }

  /** Over any run, a message is given back exactly when the last buffer of a text message arrives,
      and the fragments since the last reset together are well-formed UTF-8 within the limit; and
      then it is those fragments put together. */
  lemma {:induction false} MessageIsItsFragments(inputs: seq<Input>, i: nat)
    requires i < |inputs|
    ensures SinceReset(inputs, LastReset(inputs, i), i)
    ensures var whole := Joined(inputs[LastReset(inputs, i)..i + 1]);
      ResultAt(inputs, i) == (if !IsText(inputs[i].kind) || |whole| > MAX_INBOUND then Rejected
        else if inputs[i].kind.Utf8Fragment? then Incomplete
        else if IsEncoded(whole) then Complete(whole) else Rejected)
  {
    LastResetIsReset(inputs, i);
    ResultSinceReset(inputs, LastReset(inputs, i), i);
  }

  /** What is held never exceeds the limit. */
  lemma {:induction false} HeldIsBounded(inputs: seq<Input>)
    ensures |Held(inputs)| <= 131072
  {
    if inputs != [] { HeldIsBounded(inputs[..|inputs| - 1]); }
  }

  /** After a message or a rejection the assembler starts afresh: what came before has no influence. */
  lemma {:induction false} ResetForgets(before: seq<Input>, after: seq<Input>, i: nat)
    requires before != [] && !ResultAt(before, |before| - 1).Incomplete? && i < |after|
    ensures ResultAt(before + after, |before| + i) == ResultAt(after, i)
  {
    HeldForgets(before, after[..i]);
    assert (before + after)[..|before| + i] == before + after[..i];
  }

  lemma {:induction false} HeldForgets(before: seq<Input>, after: seq<Input>)
    requires before != [] && !ResultAt(before, |before| - 1).Incomplete?
    ensures Held(before + after) == Held(after)
  {
    if after == [] {
      assert before + after == before;
    } else {
      HeldForgets(before, after[..|after| - 1]);
      assert (before + after)[..|before| + |after| - 1] == before + after[..|after| - 1];
    }
  }
}
