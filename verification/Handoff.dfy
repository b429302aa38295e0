/**
 * How the result of the replay reaches main: the try-lock that lets one matching
 * flow in, the unbuffered channel, and the unlock when main returns.
 */
module Handoff {
  import opened Common

  /** A matching flow in the addon's Request hook. */
  datatype FlowPc = Fresh | TurnedAway | Replaying | Sending(ok: bool) | Sent(ok: bool)

  datatype MainPc = Waiting | Choosing(ok: bool) | Returned

  /** The fields of the addon that main reads; the versions and the user agent stand for any values. */
  datatype Shared = Shared(history: seq<nat>, userAgent: nat)

  datatype State = State(
    flows: map<nat, FlowPc>,
    main: MainPc,
    locked: bool,
    shared: Shared,
    taken: Option<Shared>,   // what main took when it received
    starts: nat,             // how often handleBuyRequest started
    sends: nat,              // how many values went through the channel
    badUnlocks: nat          // unlocks of an unlocked mutex
  )

  datatype Step =
    | Arrive(i: nat)
    | TryLock(i: nat)
    | Write(i: nat, shared: Shared)
    | End(i: nat, ok: bool)     // the replay is over, or it panicked
    | Receive(i: nat)           // the flow and main meet at the channel
    | Return                    // main returns and unlocks

  const INIT: State := State(map[], Waiting, false, Shared([], 0), None, 0, 0, 0)

  predicate Enabled(s: State, step: Step) {
    match step
    case Arrive(i) => i !in s.flows
    case TryLock(i) => i in s.flows && s.flows[i].Fresh?
    case Write(i, _) => i in s.flows && s.flows[i].Replaying?
    case End(i, _) => i in s.flows && s.flows[i].Replaying?
    case Receive(i) => i in s.flows && s.flows[i].Sending? && s.main.Waiting?
    case Return => s.main.Choosing?
  }

  function Apply(s: State, step: Step): State
    requires Enabled(s, step)
  {
    match step
    case Arrive(i) => s.(flows := s.flows[i := Fresh])
    case TryLock(i) =>
      if s.locked then s.(flows := s.flows[i := TurnedAway])
      else s.(flows := s.flows[i := Replaying], locked := true, starts := s.starts + 1)
    case Write(i, shared) => s.(shared := shared)
    case End(i, ok) => s.(flows := s.flows[i := Sending(ok)])
    case Receive(i) =>
      var ok := s.flows[i].ok;
      s.(flows := s.flows[i := Sent(ok)], main := Choosing(ok), taken := Some(s.shared), sends := s.sends + 1)
    case Return => s.(main := Returned, locked := false, badUnlocks := s.badUnlocks + if s.locked then 0 else 1)
  }

  ghost predicate Runs(s: State, steps: seq<Step>, t: State)
    decreases |steps|
  {
    if steps == [] then t == s
    else Enabled(s, steps[0]) && Runs(Apply(s, steps[0]), steps[1..], t)
  }

  predicate Outside(pc: FlowPc) {
    pc.Fresh? || pc.TurnedAway?
  }

  /** Until main returns: nobody holds the lock, or exactly one flow, which has got as far as main knows. */
  ghost predicate Held(s: State, holder: Option<nat>) {
    && (forall i :: i in s.flows && holder != Some(i) ==> Outside(s.flows[i]))
    && (s.locked <==> holder.Some?)
    && s.starts == (if holder.Some? then 1 else 0)
    && s.sends == (if s.main.Choosing? then 1 else 0)
    && s.badUnlocks == 0
    && match holder
       case None => s.main.Waiting? && s.taken.None?
       case Some(i) =>
         && i in s.flows && !Outside(s.flows[i])
         && (s.main.Choosing? <==> s.flows[i].Sent?)
         && (s.main.Choosing? ==> s.taken == Some(s.shared) && s.flows[i].ok == s.main.ok)
  }

  lemma StepKeepsHeld(s: State, holder: Option<nat>, step: Step) returns (holder': Option<nat>)
    requires Held(s, holder) && !s.main.Returned? && Enabled(s, step) && !step.Return?
    ensures Held(Apply(s, step), holder')
    ensures s.main.Choosing? ==> Apply(s, step).shared == s.shared && Apply(s, step).main == s.main
  {
    holder' := if step.TryLock? && !s.locked then Some(step.i) else holder;
  }

  /** main never goes back once it has returned. */
  lemma {:induction false} ReturnedStays(s: State, steps: seq<Step>, t: State)
    requires Runs(s, steps, t) && s.main.Returned?
    ensures t.main.Returned?
    decreases |steps|
  {
    if steps != [] {
      ReturnedStays(Apply(s, steps[0]), steps[1..], t);
    }
  }

  lemma {:induction false} RunKeepsHeld(s: State, holder: Option<nat>, steps: seq<Step>, t: State) returns (holder': Option<nat>)
    requires Held(s, holder) && !s.main.Returned? && Runs(s, steps, t) && !t.main.Returned?
    ensures Held(t, holder')
    ensures s.main.Choosing? ==> t.shared == s.shared && t.main == s.main
    decreases |steps|
  {
    holder' := holder;
    if steps != [] {
      if steps[0].Return? {
        ReturnedStays(Apply(s, steps[0]), steps[1..], t);
      }
      holder' := StepKeepsHeld(s, holder, steps[0]);
      holder' := RunKeepsHeld(Apply(s, steps[0]), holder', steps[1..], t);
    }
  }

  // ---- main results -----------------------------------------------------

  /** Until main returns, the replay has started at most once and at most one value was sent; if one was, main has it. */
  lemma OneShot(steps: seq<Step>, t: State)
    requires Runs(INIT, steps, t) && !t.main.Returned?
    ensures t.starts <= 1 && t.sends <= t.starts
    ensures t.sends == 1 <==> t.main.Choosing?
    ensures forall i, j :: i in t.flows && j in t.flows && !Outside(t.flows[i]) && !Outside(t.flows[j]) ==> i == j
    ensures forall i :: i in t.flows && t.flows[i].Sent? ==> t.main == Choosing(t.flows[i].ok)
  {
    var holder := RunKeepsHeld(INIT, None, steps, t);
  }

  /** From the moment main has received until it returns, nothing is written to what it reads. */
  lemma NothingWrittenAfterReceive(before: seq<Step>, s: State, after: seq<Step>, t: State)
    requires Runs(INIT, before, s) && s.main.Choosing?
    requires Runs(s, after, t) && !t.main.Returned?
    ensures t.shared == s.shared && t.taken == Some(t.shared)
  {
    var holder := RunKeepsHeld(INIT, None, before, s);
    var later := RunKeepsHeld(s, holder, after, t);
  }

  /** The deferred unlock finds the mutex locked. */
  lemma UnlockIsGood(steps: seq<Step>, t: State)
    requires Runs(INIT, steps, t) && Enabled(t, Return)
    ensures t.locked && Apply(t, Return).badUnlocks == 0
  {
    var holder := RunKeepsHeld(INIT, None, steps, t);
  }

  /** A flow that wants to send before main has received can always do so at once. */
  lemma SenderIsServed(steps: seq<Step>, t: State, i: nat)
    requires Runs(INIT, steps, t) && !t.main.Returned? && i in t.flows && t.flows[i].Sending?
    ensures Enabled(t, Receive(i))
  {
    var holder := RunKeepsHeld(INIT, None, steps, t);
  }

  /** The flow that tried the lock first is the one that replays; all others that tried are turned away. */
  lemma FirstTryWins(steps: seq<Step>, t: State, i: nat)
    requires Runs(INIT, steps, t) && !t.main.Returned?
    ensures i in t.flows && !Outside(t.flows[i]) <==> FirstTry(steps) == Some(i)
    ensures TryLock(i) in steps && FirstTry(steps) != Some(i) ==> i in t.flows && t.flows[i].TurnedAway?
    ensures t.starts == if FirstTry(steps).Some? then 1 else 0
    ensures TryLock(i) in steps ==> FirstTry(steps).Some?
  {
    Recorded(steps, t);
    assert FlowLedger(steps, t, i);
  }

  /** What main receives is how that flow's replay ended, and what it takes then is what was written last. */
  lemma MainGetsTheReplay(steps: seq<Step>, t: State)
    requires Runs(INIT, steps, t) && t.main.Choosing?
    ensures FirstTry(steps).Some?
    ensures var i := FirstTry(steps).value;
            && Receive(i) in steps && End(i, t.main.ok) in steps && End(i, !t.main.ok) !in steps
            && t.taken == Some(LastWritten(steps)) && t.shared == LastWritten(steps)
  {
    Recorded(steps, t);
    var holder := RunKeepsHeld(INIT, None, steps, t);
    assert FlowLedger(steps, t, holder.value);
    assert End(holder.value, t.main.ok) in steps;
  }

  /** Only a flow that replays writes, and what is there is the last that was written. */
  lemma WritesAreTheReplays(steps: seq<Step>, t: State, i: nat, shared: Shared)
    requires Runs(INIT, steps, t) && !t.main.Returned?
    ensures t.shared == LastWritten(steps)
    ensures Write(i, shared) in steps ==> FirstTry(steps) == Some(i)
  {
    Recorded(steps, t);
    assert FlowLedger(steps, t, i);
  }

  /** The flow of the first attempt to take the lock. */
  function FirstTry(steps: seq<Step>): Option<nat> {
    if steps == [] then None
    else
      var before, last := steps[..|steps| - 1], steps[|steps| - 1];
      if FirstTry(before).Some? then FirstTry(before) else if last.TryLock? then Some(last.i) else None
  }

  function LastWritten(steps: seq<Step>): Shared {
    if steps == [] then INIT.shared
    else
      var before, last := steps[..|steps| - 1], steps[|steps| - 1];
      if last.Write? then last.shared else LastWritten(before)
  }

  ghost predicate FlowLedger(past: seq<Step>, s: State, i: nat) {
    && (TryLock(i) in past <==> i in s.flows && !s.flows[i].Fresh?)
    && (FirstTry(past) == Some(i) <==> i in s.flows && !Outside(s.flows[i]))
    && (TryLock(i) in past ==> FirstTry(past).Some?)
    && (forall ok :: End(i, ok) in past <==> i in s.flows && (s.flows[i] == Sending(ok) || s.flows[i] == Sent(ok)))
    && (Receive(i) in past <==> i in s.flows && s.flows[i].Sent?)
    && (forall shared :: Write(i, shared) in past ==> FirstTry(past) == Some(i))
  }

  ghost predicate Ledger(past: seq<Step>, s: State) {
    && (forall i: nat :: FlowLedger(past, s, i))
    && s.shared == LastWritten(past)
    && (s.locked <==> FirstTry(past).Some?)
    && s.starts == (if FirstTry(past).Some? then 1 else 0)
  }

  lemma OneStepLater(past: seq<Step>, step: Step)
    ensures FirstTry(past + [step]) ==
            if FirstTry(past).Some? then FirstTry(past) else if step.TryLock? then Some(step.i) else None
    ensures LastWritten(past + [step]) == if step.Write? then step.shared else LastWritten(past)
  {
    assert (past + [step])[..|past|] == past;
  }

  /** A step of flow i changes nothing in the ledger of another. */
  lemma OthersKeepLedger(past: seq<Step>, s: State, step: Step, i: nat)
    requires FlowLedger(past, s, i) && Enabled(s, step) && !step.Return? && step.i != i
    requires FirstTry(past).Some? || !step.TryLock? || i !in s.flows || Outside(s.flows[i])
    ensures FlowLedger(past + [step], Apply(s, step), i)
  {
    OneStepLater(past, step);
  }

  lemma OwnLedgerKept(past: seq<Step>, s: State, step: Step)
    requires Enabled(s, step) && !step.Return? && FlowLedger(past, s, step.i) && (s.locked <==> FirstTry(past).Some?)
    ensures FlowLedger(past + [step], Apply(s, step), step.i)
  {
    OneStepLater(past, step);
  }

  lemma StepKeepsFlowLedger(past: seq<Step>, s: State, step: Step, i: nat)
    requires Ledger(past, s) && Enabled(s, step) && !step.Return?
    ensures FlowLedger(past + [step], Apply(s, step), i)
  {
    assert FlowLedger(past, s, i);
    if step.i == i {
      OwnLedgerKept(past, s, step);
    } else {
      OthersKeepLedger(past, s, step, i);
    }
  }

  lemma {:induction false} RunKeepsLedger(past: seq<Step>, s: State, steps: seq<Step>, t: State)
    requires Ledger(past, s) && !s.main.Returned? && Runs(s, steps, t) && !t.main.Returned?
    ensures Ledger(past + steps, t)
    decreases |steps|
  {
    if steps == [] {
      assert past + steps == past;
    } else {
      var step, rest, m := steps[0], steps[1..], Apply(s, steps[0]);
      assert past + steps == (past + [step]) + rest;
      if step.Return? {
        ReturnedStays(m, rest, t);
      }
      assert Ledger(past + [step], m) by {
        OneStepLater(past, step);
        forall i: nat ensures FlowLedger(past + [step], m, i) {
          StepKeepsFlowLedger(past, s, step, i);
        }
        if step.TryLock? { assert FlowLedger(past, s, step.i); }
      }
      RunKeepsLedger(past + [step], m, rest, t);
    }
  }

  lemma Recorded(steps: seq<Step>, t: State)
    requires Runs(INIT, steps, t) && !t.main.Returned?
    ensures Ledger(steps, t)
  {
    RunKeepsLedger([], INIT, steps, t);
    assert [] + steps == steps;
  }

  /** The limit of all this is the return of main: after it, the next flow gets in and may write what main has taken. */
  lemma SecondReplayAfterReturn(first: nat, second: nat, shared: Shared) returns (steps: seq<Step>, t: State)
    requires first != second
    ensures Runs(INIT, steps, t)
    ensures t.main.Returned? && t.starts == 2 && t.taken == Some(INIT.shared) && t.shared == shared
  {
    var received := OneReplay(first);
    var m := Apply(received, Return);
    RunsFrom(received, [Return], 0, m);
    var once := [Arrive(first), TryLock(first), End(first, true), Receive(first)];
    RunsOn(INIT, once, received, [Return], m);
    t := AnotherReplay(m, second, shared);
    var again := [Arrive(second), TryLock(second), Write(second, shared)];
    RunsOn(INIT, once + [Return], m, again, t);
    steps := once + [Return] + again;
  }

  lemma OneReplay(i: nat) returns (t: State)
    ensures Runs(INIT, [Arrive(i), TryLock(i), End(i, true), Receive(i)], t)
    ensures t == State(map[i := Sent(true)], Choosing(true), true, INIT.shared, Some(INIT.shared), 1, 1, 0)
  {
    var steps := [Arrive(i), TryLock(i), End(i, true), Receive(i)];
    var s1 := Apply(INIT, Arrive(i));
    var s2 := Apply(s1, TryLock(i));
    var s3 := Apply(s2, End(i, true));
    t := Apply(s3, Receive(i));
    RunsFrom(s3, steps, 3, t);
    RunsFrom(s2, steps, 2, t);
    RunsFrom(s1, steps, 1, t);
    RunsFrom(INIT, steps, 0, t);
  }

  /** With the mutex free, a new flow gets in and writes. */
  lemma AnotherReplay(s: State, i: nat, shared: Shared) returns (t: State)
    requires !s.locked && i !in s.flows
    ensures Runs(s, [Arrive(i), TryLock(i), Write(i, shared)], t)
    ensures t.main == s.main && t.taken == s.taken && t.starts == s.starts + 1 && t.shared == shared
  {
    var steps := [Arrive(i), TryLock(i), Write(i, shared)];
    var s1 := Apply(s, Arrive(i));
    var s2 := Apply(s1, TryLock(i));
    t := Apply(s2, Write(i, shared));
    RunsFrom(s2, steps, 2, t);
    RunsFrom(s1, steps, 1, t);
    RunsFrom(s, steps, 0, t);
  }

  /** The rest of a run from step k on, one step longer. */
  lemma RunsFrom(s: State, steps: seq<Step>, k: nat, t: State)
    requires k < |steps| && Enabled(s, steps[k])
    requires if k + 1 == |steps| then t == Apply(s, steps[k]) else Runs(Apply(s, steps[k]), steps[k + 1..], t)
    ensures Runs(s, steps[k..], t)
    ensures k == 0 ==> Runs(s, steps, t)
  {
    assert steps[k..][1..] == steps[k + 1..] && steps[0..] == steps;
  }

  /** One run after the other. */
  lemma {:induction false} RunsOn(s: State, steps: seq<Step>, m: State, more: seq<Step>, t: State)
    requires Runs(s, steps, m) && Runs(m, more, t)
    ensures Runs(s, steps + more, t)
    decreases |steps|
  {
    if steps == [] {
      assert steps + more == more;
    } else {
      RunsOn(Apply(s, steps[0]), steps[1..], m, more, t);
      assert (steps + more)[1..] == steps[1..] + more;
    }
  }
}
