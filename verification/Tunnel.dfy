/**
 * An intercepted CONNECT tunnel after a successful dial and hijack: the two copiers,
 * the waiting parent, the deferred closes, and the cascade from the client
 * connection to the server connection, over all interleavings.
 */
module Tunnel {
  import opened Connections

  // ---- the step system --------------------------------------------------

  /** One copier: copying, closing its source in two halves, then offering its result. */
  datatype Copier = Unborn | Copying | Ended(err: bool) | HalfClosed(err: bool) | Offering(err: bool) | Exited

  /** handleConnect: waiting in transfer for results, then the deferred calls in order. */
  datatype Parent =
    | Starting
    | Awaiting(got: nat)
    | Leaving
    | RunningHooks
    | ClosingClient
    | ClosingServer
    | ClosingPipe
    | Finishing
    | Returned

  datatype State = State(
    conns: Conns,
    pipeClientClosed: bool,  // the end of the pipe held by handleConnect
    up: Copier,              // copies from the client, then closes the client
    down: Copier,            // copies from the pipe, then closes the pipe
    parent: Parent,
    received: seq<bool>,     // results taken from errChan: true for an error
    done: bool,              // the done channel is closed
    hooks: nat,              // how often the Response hooks ran
    finished: nat            // how often the flow was finished
  )

  datatype Step =
    // the parent
    | WriteOk | WriteFails | CloseDone | RunHooks | ShutClient | ShutServer | ShutPipe | Finish
    // a copier; the first is the one that copies from the client
    | CopyEnds(fromClient: bool, err: bool)
    | CloseHalf(fromClient: bool)
    | CloseRest(fromClient: bool)
    | Deliver(fromClient: bool)
    | Abandon(fromClient: bool)
    // everybody else
    | TlsSeen | KeepAliveOver | ServerGone | PipeGone

  function Init(addons: nat): State {
    State(Conns(Wrap(false, 0, []), Wrap(false, 0, []), addons, false, false, false, false),
          false, Unborn, Unborn, Starting, [], false, 0, 0)
  }

  function CopierOf(s: State, fromClient: bool): Copier {
    if fromClient then s.up else s.down
  }

  function WithCopier(s: State, fromClient: bool, c: Copier): State {
    if fromClient then s.(up := c) else s.(down := c)
  }

  predicate Enabled(s: State, step: Step) {
    match step
    case WriteOk | WriteFails => s.parent.Starting?
    case CloseDone => s.parent.Leaving?
    case RunHooks => s.parent.RunningHooks?
    case ShutClient => s.parent.ClosingClient?
    case ShutServer => s.parent.ClosingServer?
    case ShutPipe => s.parent.ClosingPipe?
    case Finish => s.parent.Finishing?
    case CopyEnds(fc, _) => CopierOf(s, fc).Copying?
    case CloseHalf(fc) => CopierOf(s, fc).Ended?
    case CloseRest(fc) => CopierOf(s, fc).HalfClosed?
    case Deliver(fc) => CopierOf(s, fc).Offering? && s.parent.Awaiting?
    case Abandon(fc) => CopierOf(s, fc).Offering? && s.done
    case TlsSeen => !s.conns.tls
    case KeepAliveOver => !s.conns.closeAfterResponse
    case ServerGone => !s.conns.server.closed
    case PipeGone => !s.conns.pipeServerClosed
  }

  /** Steps of what happens around the tunnel: to its connections, but by others. */
  predicate Foreign(step: Step) {
    step.TlsSeen? || step.KeepAliveOver? || step.ServerGone? || step.PipeGone?
  }

  predicate OfParent(step: Step) {
    || step.WriteOk? || step.WriteFails? || step.CloseDone? || step.RunHooks?
    || step.ShutClient? || step.ShutServer? || step.ShutPipe? || step.Finish?
  }

  function ApplyParent(s: State, step: Step, atomic: bool): State
    requires OfParent(step)
  {
    match step
    case WriteOk => s.(parent := Awaiting(0), up := Copying, down := Copying)
    case WriteFails => s.(parent := ClosingClient)
    case CloseDone => s.(parent := RunningHooks, done := true)
    case RunHooks => s.(parent := ClosingClient, hooks := s.hooks + 1)
    case ShutClient =>
      if s.conns.client.closed then s.(parent := ClosingPipe)
      else if atomic then s.(conns := CloseClient(s.conns), parent := ClosingPipe)
      else s.(conns := CloseClientHead(s.conns), parent := ClosingServer)
    case ShutServer => s.(conns := CloseServer(s.conns), parent := ClosingPipe)
    case ShutPipe => s.(pipeClientClosed := true, parent := Finishing)
    case Finish => s.(finished := s.finished + 1, parent := Returned)
  }

  function ApplyCopier(s: State, step: Step, atomic: bool): State
    requires !OfParent(step) && !Foreign(step) && Enabled(s, step)
  {
    match step
    case CopyEnds(fc, err) => WithCopier(s, fc, Ended(err))
    case CloseHalf(fc) =>
      if !fc then s.(pipeClientClosed := true, down := HalfClosed(s.down.err))
      else if s.conns.client.closed then s.(up := Offering(s.up.err))
      else if atomic then s.(conns := CloseClient(s.conns), up := Offering(s.up.err))
      else s.(conns := CloseClientHead(s.conns), up := HalfClosed(s.up.err))
    case CloseRest(fc) =>
      if fc then s.(conns := CloseServer(s.conns), up := Offering(s.up.err))
      else s.(conns := s.conns.(clientReadShut := true), down := Offering(s.down.err))
    case Deliver(fc) =>
      var err := CopierOf(s, fc).err;
      WithCopier(s, fc, Exited).(
        received := s.received + [err],
        parent := if err || s.parent.got == 1 then Leaving else Awaiting(1))
    case Abandon(fc) => WithCopier(s, fc, Exited)
  }

  function ApplyForeign(s: State, step: Step): State
    requires Foreign(step)
  {
    match step
    case TlsSeen => s.(conns := s.conns.(tls := true))
    case KeepAliveOver => s.(conns := s.conns.(closeAfterResponse := true))
    case ServerGone => s.(conns := CloseServer(s.conns))
    case PipeGone => s.(conns := s.conns.(pipeServerClosed := true))
  }

  /**
   * One step. With atomic, a Close body runs to its end in one step; without it, another
   * goroutine may run between the client's own part and the nested close of the server.
   */
  function Apply(s: State, step: Step, atomic: bool): State
    requires Enabled(s, step)
  {
    if OfParent(step) then ApplyParent(s, step, atomic)
    else if Foreign(step) then ApplyForeign(s, step)
    else ApplyCopier(s, step, atomic)
  }

  /** The steps can be taken one after the other, from s to t. */
  ghost predicate Runs(s: State, steps: seq<Step>, atomic: bool, t: State)
    decreases |steps|
  {
    if steps == [] then t == s
    else Enabled(s, steps[0]) && Runs(Apply(s, steps[0], atomic), steps[1..], atomic, t)
  }

  // ---- what every step keeps --------------------------------------------

  function Gone(c: Copier): nat {
    if c.Exited? then 1 else 0
  }

  /** The results so far: none, one nil, two nils, or an error after at most one nil. */
  predicate Results(received: seq<bool>) {
    received in {[], [false], [false, false], [true], [false, true]}
  }

  predicate Complete(received: seq<bool>) {
    received in {[false, false], [true], [false, true]}
  }

  /** Each connection is closed at most once, each addon told at most once, and nothing stays half closed. */
  ghost predicate Teardown(s: State, addons: nat, atomic: bool) {
    && s.conns.addons == addons
    && ClosedOnce(s.conns.client, addons) && ClosedOnce(s.conns.server, addons)
    && (s.conns.client.closed ==> s.conns.server.closed || s.up.HalfClosed? || s.parent.ClosingServer?)
    && (s.up.HalfClosed? || s.parent.ClosingServer? ==> s.conns.client.closed && !atomic)
    && !(s.up.HalfClosed? && s.parent.ClosingServer?)
    && (s.parent.ClosingPipe? || s.parent.Finishing? || s.parent.Returned? ==> s.conns.client.closed)
    && (s.parent.Finishing? || s.parent.Returned? ==> s.pipeClientClosed)
    && s.finished == (if s.parent.Returned? then 1 else 0)
  }

  /** The copiers, the results received and the done channel agree with where the parent is. */
  ghost predicate Relay(s: State) {
    if s.up.Unborn? then
      && s.down.Unborn? && s.received == [] && !s.done && s.hooks == 0
      && !s.parent.Awaiting? && !s.parent.Leaving? && !s.parent.RunningHooks?
    else
      && !s.down.Unborn? && !s.parent.Starting?
      && (s.parent.Awaiting? ==> s.parent.got <= 1 && s.received == if s.parent.got == 0 then [] else [false])
      && (!s.parent.Awaiting? ==> Complete(s.received))
      && (s.done <==> !s.parent.Awaiting? && !s.parent.Leaving?)
      && (!s.done ==> |s.received| == Gone(s.up) + Gone(s.down))
      && s.hooks == (if s.parent.Awaiting? || s.parent.Leaving? || s.parent.RunningHooks? then 0 else 1)
  }

  ghost predicate Inv(s: State, addons: nat, atomic: bool) {
    Teardown(s, addons, atomic) && Relay(s)
  }

  lemma CloseServerClosesOnce(c: Conns)
    requires ClosedOnce(c.server, c.addons)
    ensures CloseServer(c).server == Wrap(true, 1, Everyone(c.addons))
    ensures CloseServer(c).client == c.client && CloseServer(c).addons == c.addons
  {
  }

  lemma CloseClientHeadClosesOnce(c: Conns)
    requires ClosedOnce(c.client, c.addons) && !c.client.closed
    ensures CloseClientHead(c) == c.(client := Wrap(true, 1, Everyone(c.addons)))
  {
  }

  lemma ParentKeepsTeardown(s: State, step: Step, addons: nat, atomic: bool)
    requires Inv(s, addons, atomic) && Enabled(s, step) && OfParent(step)
    ensures Teardown(ApplyParent(s, step, atomic), addons, atomic)
  {
    CloseServerClosesOnce(s.conns);
    if !s.conns.client.closed {
      CloseClientHeadClosesOnce(s.conns);
      CloseServerClosesOnce(CloseClientHead(s.conns));
    }
  }

  lemma CloseHalfKeepsTeardown(s: State, fromClient: bool, addons: nat, atomic: bool)
    requires Teardown(s, addons, atomic) && Enabled(s, CloseHalf(fromClient))
    ensures Teardown(ApplyCopier(s, CloseHalf(fromClient), atomic), addons, atomic)
  {
    if fromClient && !s.conns.client.closed {
      CloseClientHeadClosesOnce(s.conns);
      CloseServerClosesOnce(CloseClientHead(s.conns));
    }
  }

  lemma CloseRestKeepsTeardown(s: State, fromClient: bool, addons: nat, atomic: bool)
    requires Teardown(s, addons, atomic) && Enabled(s, CloseRest(fromClient))
    ensures Teardown(ApplyCopier(s, CloseRest(fromClient), atomic), addons, atomic)
  {
    CloseServerClosesOnce(s.conns);
  }

  lemma CopierKeepsTeardown(s: State, step: Step, addons: nat, atomic: bool)
    requires Teardown(s, addons, atomic) && Enabled(s, step) && !OfParent(step) && !Foreign(step)
    ensures Teardown(ApplyCopier(s, step, atomic), addons, atomic)
  {
    if step.CloseHalf? {
      CloseHalfKeepsTeardown(s, step.fromClient, addons, atomic);
    } else if step.CloseRest? {
      CloseRestKeepsTeardown(s, step.fromClient, addons, atomic);
    }
  }

  lemma ForeignKeepsInv(s: State, step: Step, addons: nat, atomic: bool)
    requires Inv(s, addons, atomic) && Enabled(s, step) && Foreign(step)
    ensures Inv(ApplyForeign(s, step), addons, atomic)
  {
    CloseServerClosesOnce(s.conns);
  }

  lemma ParentKeepsRelay(s: State, step: Step, atomic: bool)
    requires Relay(s) && Enabled(s, step) && OfParent(step)
    ensures Relay(ApplyParent(s, step, atomic))
  {
  }

  lemma DeliverKeepsRelay(s: State, fromClient: bool, atomic: bool)
    requires Relay(s) && Enabled(s, Deliver(fromClient))
    ensures Relay(ApplyCopier(s, Deliver(fromClient), atomic))
  {
    var err := CopierOf(s, fromClient).err;
    assert s.received + [err] == if s.parent.got == 0 then [err] else [false, err];
  }

  lemma CopierKeepsRelay(s: State, step: Step, atomic: bool)
    requires Relay(s) && Enabled(s, step) && !OfParent(step) && !Foreign(step)
    ensures Relay(ApplyCopier(s, step, atomic))
  {
    if step.Deliver? {
      DeliverKeepsRelay(s, step.fromClient, atomic);
    }
  }

  lemma StepKeepsInv(s: State, step: Step, addons: nat, atomic: bool)
    requires Inv(s, addons, atomic) && Enabled(s, step)
    ensures Inv(Apply(s, step, atomic), addons, atomic)
  {
    if OfParent(step) {
      ParentKeepsTeardown(s, step, addons, atomic);
      ParentKeepsRelay(s, step, atomic);
    } else if Foreign(step) {
      ForeignKeepsInv(s, step, addons, atomic);
    } else {
      CopierKeepsTeardown(s, step, addons, atomic);
      CopierKeepsRelay(s, step, atomic);
    }
  }

  lemma {:induction false} RunKeepsInv(s: State, steps: seq<Step>, t: State, addons: nat, atomic: bool)
    requires Inv(s, addons, atomic) && Runs(s, steps, atomic, t)
    ensures Inv(t, addons, atomic)
    decreases |steps|
  {
    if steps != [] {
      StepKeepsInv(s, steps[0], addons, atomic);
      RunKeepsInv(Apply(s, steps[0], atomic), steps[1..], t, addons, atomic);
    }
  }

  // ---- every run ends ---------------------------------------------------

  function CopierRank(c: Copier): nat {
    match c
    case Copying => 5
    case Ended(_) => 4
    case HalfClosed(_) => 3
    case Offering(_) => 2
    case Exited => 0
    case Unborn => 0
  }

  function ParentRank(p: Parent): nat {
    match p
    case Starting => 20
    case Awaiting(got) => if got == 0 then 9 else 8
    case Leaving => 7
    case RunningHooks => 6
    case ClosingClient => 5
    case ClosingServer => 4
    case ClosingPipe => 3
    case Finishing => 2
    case Returned => 0
  }

  /** How much can still happen. */
  function Measure(s: State): nat {
    ParentRank(s.parent) + CopierRank(s.up) + CopierRank(s.down) + OthersRank(s.conns)
  }

  /** What others can still do. */
  function OthersRank(c: Conns): nat {
    (if c.tls then 0 else 1) + (if c.closeAfterResponse then 0 else 1)
    + (if c.server.closed then 0 else 1) + (if c.pipeServerClosed then 0 else 1)
  }

  lemma ClosingShrinks(c: Conns)
    ensures OthersRank(CloseServer(c)) <= OthersRank(c) - (if c.server.closed then 0 else 1)
    ensures OthersRank(CloseClientHead(c)) == OthersRank(c)
  {
  }

  /** All that the tunnel itself does to its connections is to close them. */
  lemma OwnStepsOnlyClose(s: State, step: Step, atomic: bool)
    requires Enabled(s, step) && !Foreign(step)
    ensures var c, d := s.conns, Apply(s, step, atomic).conns;
            d == c || d == CloseServer(c) || d == CloseClient(c) || d == CloseClientHead(c) || d == c.(clientReadShut := true)
  {
  }

  /** No step reopens what others have closed or noticed. */
  lemma OthersNeverGrow(s: State, step: Step, atomic: bool)
    requires Enabled(s, step)
    ensures OthersRank(Apply(s, step, atomic).conns) <= OthersRank(s.conns) - (if Foreign(step) then 1 else 0)
  {
    ClosingShrinks(s.conns);
    ClosingShrinks(CloseClientHead(s.conns));
    if !Foreign(step) {
      OwnStepsOnlyClose(s, step, atomic);
    }
  }

  lemma ParentMovesOn(s: State, step: Step, atomic: bool)
    requires Enabled(s, step) && OfParent(step)
    ensures var t := ApplyParent(s, step, atomic);
            ParentRank(t.parent) + CopierRank(t.up) + CopierRank(t.down) < ParentRank(s.parent) + CopierRank(s.up) + CopierRank(s.down)
  {
  }

  lemma CopierMovesOn(s: State, step: Step, atomic: bool)
    requires Enabled(s, step) && !OfParent(step) && !Foreign(step)
    ensures var t := ApplyCopier(s, step, atomic);
            && CopierRank(t.up) + CopierRank(t.down) < CopierRank(s.up) + CopierRank(s.down)
            && ParentRank(t.parent) <= ParentRank(s.parent)
  {
  }

  lemma StepDecreases(s: State, step: Step, atomic: bool)
    requires Enabled(s, step)
    ensures Measure(Apply(s, step, atomic)) < Measure(s)
  {
    OthersNeverGrow(s, step, atomic);
    if OfParent(step) {
      ParentMovesOn(s, step, atomic);
    } else if !Foreign(step) {
      CopierMovesOn(s, step, atomic);
    }
  }

  lemma {:induction false} RunIsBounded(s: State, steps: seq<Step>, t: State, atomic: bool)
    requires Runs(s, steps, atomic, t)
    ensures |steps| + Measure(t) <= Measure(s)
    decreases |steps|
  {
    if steps != [] {
      StepDecreases(s, steps[0], atomic);
      RunIsBounded(Apply(s, steps[0], atomic), steps[1..], t, atomic);
    }
  }

  predicate Over(c: Copier) {
    c.Exited? || c.Unborn?
  }

  /** Nobody is ever stuck: until parent and copiers have ended, one of them can move. */
  lemma NoDeadlock(s: State, addons: nat, atomic: bool)
    requires Inv(s, addons, atomic)
    ensures (s.parent.Returned? && Over(s.up) && Over(s.down)) || exists step :: !Foreign(step) && Enabled(s, step)
  {
    var step: Step :=
      match s.parent
      case Starting => WriteOk
      case Leaving => CloseDone
      case RunningHooks => RunHooks
      case ClosingClient => ShutClient
      case ClosingServer => ShutServer
      case ClosingPipe => ShutPipe
      case Finishing => Finish
      case _ =>
        var fc := !Over(s.up);
        match CopierOf(s, fc)
        case Copying => CopyEnds(fc, false)
        case Ended(_) => CloseHalf(fc)
        case HalfClosed(_) => CloseRest(fc)
        case _ => if s.parent.Awaiting? then Deliver(fc) else Abandon(fc);
    if !(s.parent.Returned? && Over(s.up) && Over(s.down)) {
      assert !Foreign(step) && Enabled(s, step);
    }
  }

  // ---- main results -----------------------------------------------------

  /** No run takes more than 24 steps, and one that cannot go on has ended everywhere. */
  lemma EveryRunEnds(steps: seq<Step>, t: State, addons: nat, atomic: bool)
    requires Runs(Init(addons), steps, atomic, t)
    ensures |steps| <= 24
    ensures (forall step :: !Foreign(step) ==> !Enabled(t, step)) ==> t.parent.Returned? && Over(t.up) && Over(t.down)
  {
    RunIsBounded(Init(addons), steps, t, atomic);
    RunKeepsInv(Init(addons), steps, t, addons, atomic);
    NoDeadlock(t, addons, atomic);
  }

  /**
   * transfer has received one result from each copier that delivered, in the order of the deliveries, an error exactly
   * if that copier's copy failed; it returns after two nil results, or after the first non-nil one.
   */
  lemma TransferResults(steps: seq<Step>, t: State, addons: nat, atomic: bool)
    requires Runs(Init(addons), steps, atomic, t)
    ensures t.received == Reported(steps)
    ensures t.done ==> Complete(t.received)
    ensures Results(t.received)
    ensures WriteOk in steps ==> (t.parent.Awaiting? <==> !Complete(t.received))
    ensures forall fc :: Deliver(fc) in steps && CopyEnds(fc, true) in steps ==> !t.parent.Awaiting?
  {
    RunKeepsInv(Init(addons), steps, t, addons, atomic);
    Recorded(steps, t, addons, atomic);
    WaitingIsIncomplete(t);
    forall fc | Deliver(fc) in steps && CopyEnds(fc, true) in steps ensures !t.parent.Awaiting? {
      assert FailuresReported(steps, t, fc);
    }
  }

  lemma WaitingIsIncomplete(s: State)
    requires Relay(s)
    ensures Results(s.received) && (s.done ==> Complete(s.received))
    ensures !s.up.Unborn? ==> (s.parent.Awaiting? <==> !Complete(s.received))
    ensures s.parent.Awaiting? ==> true !in s.received
  {
  }

  lemma Recorded(steps: seq<Step>, t: State, addons: nat, atomic: bool)
    requires Runs(Init(addons), steps, atomic, t)
    ensures Ledger(steps, t, atomic)
  {
    RunKeepsLedger([], Init(addons), steps, t, addons, atomic);
    assert [] + steps == steps;
  }

  /** Either copier may fail first, and then transfer leaves after this one result. */
  lemma FailureReturnsAtOnce(addons: nat, fromClient: bool) returns (steps: seq<Step>, t: State)
    ensures Runs(Init(addons), steps, false, t)
    ensures steps == [WriteOk, CopyEnds(fromClient, true), CloseHalf(fromClient), CloseRest(fromClient), Deliver(fromClient)]
    ensures t.received == [true] && t.parent.Leaving? && CopierOf(t, !fromClient).Copying?
  {
    steps, t := Extend(Init(addons), [], Init(addons), WriteOk);
    assert steps == [WriteOk];
    var offered;
    steps, offered := ThenOneOffers(Init(addons), steps, t, fromClient);
    steps, t := Extend(Init(addons), steps, offered, Deliver(fromClient));
  }

  lemma ThenOneOffers(s: State, before: seq<Step>, m: State, fc: bool) returns (steps: seq<Step>, t: State)
    requires Runs(s, before, false, m)
    requires CopierOf(m, fc).Copying? && !m.conns.client.closed
    ensures Runs(s, steps, false, t)
    ensures steps == before + [CopyEnds(fc, true), CloseHalf(fc), CloseRest(fc)]
    ensures CopierOf(t, fc) == Offering(true) && CopierOf(t, !fc) == CopierOf(m, !fc)
    ensures t.parent == m.parent && t.received == m.received && t.done == m.done
  {
    steps, t := Extend(s, before, m, CopyEnds(fc, true));
    steps, t := Extend(s, steps, t, CloseHalf(fc));
    steps, t := Extend(s, steps, t, CloseRest(fc));
  }

  /** Each copier closes its own source, and for the pipe the client's read side, before it offers its result. */
  lemma CopiersCloseTheirSources(steps: seq<Step>, t: State, addons: nat, atomic: bool)
    requires Runs(Init(addons), steps, atomic, t)
    ensures CloseHalf(true) in steps ==> t.conns.client.closed
    ensures t.up.Offering? || t.up.Exited? ==> t.conns.client.closed && CloseHalf(true) in steps && (atomic ==> t.conns.server.closed)
    ensures CloseHalf(false) in steps ==> t.pipeClientClosed
    ensures t.down.Offering? || t.down.Exited? ==> t.pipeClientClosed && t.conns.clientReadShut && CloseHalf(false) in steps
  {
    Recorded(steps, t, addons, atomic);
  }

  /** Nobody but the tunnel closes the client; closing the server shuts the client's read side or the pipe. */
  lemma WhoClosedWhat(steps: seq<Step>, t: State, addons: nat, atomic: bool)
    requires Runs(Init(addons), steps, atomic, t)
    ensures t.conns.client.closed <==> CloseHalf(true) in steps || ShutClient in steps
    ensures t.conns.server.closed ==> ServerGone in steps || t.conns.client.closed
    ensures ServerGone in steps ==> t.conns.server.closed
    ensures t.conns.server.closed && TlsSeen !in steps ==> t.conns.clientReadShut
    ensures t.conns.server.closed && KeepAliveOver !in steps ==> t.conns.clientReadShut || t.conns.pipeServerClosed
    ensures t.conns.pipeServerClosed ==> PipeGone in steps || (t.conns.server.closed && TlsSeen in steps)
    ensures t.hooks == (if RunHooks in steps then 1 else 0) && (t.done <==> CloseDone in steps)
    ensures t.parent.Returned? <==> Finish in steps
  {
    Recorded(steps, t, addons, atomic);
  }

  // ---- what the steps so far say about the state ------------------------

  /** The results that reached transfer: whether the copy of the copier that delivers had failed. */
  function Reported(steps: seq<Step>): seq<bool> {
    if steps == [] then []
    else
      var before, last := steps[..|steps| - 1], steps[|steps| - 1];
      Reported(before) + if last.Deliver? then [CopyEnds(last.fromClient, true) in before] else []
  }

  ghost predicate CopierLedger(past: seq<Step>, s: State, fc: bool) {
    var c := CopierOf(s, fc);
    && (c.Unborn? <==> WriteOk !in past)
    && (c.Unborn? || c.Copying? ==> forall err :: CopyEnds(fc, err) !in past)
    && (c.Ended? || c.HalfClosed? || c.Offering? ==> forall err :: CopyEnds(fc, err) in past <==> err == c.err)
    && (CloseHalf(fc) in past <==> c.HalfClosed? || c.Offering? || c.Exited?)
    && (Deliver(fc) in past ==> c.Exited?)
  }

  ghost predicate SourcesLedger(s: State, atomic: bool) {
    && (s.up.HalfClosed? || s.up.Offering? || s.up.Exited? ==> s.conns.client.closed)
    && (atomic && (s.up.Offering? || s.up.Exited?) ==> s.conns.server.closed)
    && (s.down.HalfClosed? || s.down.Offering? || s.down.Exited? ==> s.pipeClientClosed)
    && (s.down.Offering? || s.down.Exited? ==> s.conns.clientReadShut)
  }

  ghost predicate ParentLedger(past: seq<Step>, s: State) {
    && s.hooks == (if RunHooks in past then 1 else 0) && (s.done <==> CloseDone in past)
    && (s.parent.Returned? <==> Finish in past)
    && (ShutClient in past <==> s.parent.ClosingServer? || s.parent.ClosingPipe? || s.parent.Finishing? || s.parent.Returned?)
    && (s.done ==> !s.parent.Starting? && !s.parent.Awaiting? && !s.parent.Leaving?)
    && (s.hooks > 0 ==> s.done && !s.parent.RunningHooks?)
  }

  ghost predicate ConnsLedger(past: seq<Step>, c: Conns) {
    && (c.tls <==> TlsSeen in past) && (c.closeAfterResponse <==> KeepAliveOver in past)
    && (c.client.closed <==> CloseHalf(true) in past || ShutClient in past)
    && (c.server.closed ==> ServerGone in past || c.client.closed) && (ServerGone in past ==> c.server.closed)
    && (c.server.closed && !c.tls ==> c.clientReadShut)
    && (c.server.closed && !c.closeAfterResponse ==> c.clientReadShut || c.pipeServerClosed)
    && (c.pipeServerClosed ==> PipeGone in past || (c.server.closed && c.tls))
  }

  ghost predicate StateLedger(past: seq<Step>, s: State, atomic: bool) {
    && CopierLedger(past, s, true) && CopierLedger(past, s, false)
    && SourcesLedger(s, atomic) && ParentLedger(past, s) && ConnsLedger(past, s.conns)
  }

  ghost predicate Ledger(past: seq<Step>, s: State, atomic: bool) {
    && StateLedger(past, s, atomic)
    && s.received == Reported(past) && FailuresReported(past, s, true) && FailuresReported(past, s, false)
  }

  predicate FailuresReported(past: seq<Step>, s: State, fc: bool) {
    Deliver(fc) in past && CopyEnds(fc, true) in past ==> true in s.received
  }

  lemma StepKeepsFailuresReported(past: seq<Step>, s: State, step: Step, fc: bool, atomic: bool)
    requires FailuresReported(past, s, fc) && CopierLedger(past, s, fc) && Enabled(s, step)
    ensures FailuresReported(past + [step], Apply(s, step, atomic), fc)
  {
  }

  lemma ParentKeepsCopierLedger(past: seq<Step>, s: State, step: Step, fc: bool, addons: nat, atomic: bool)
    requires CopierLedger(past, s, fc) && Relay(s) && Enabled(s, step) && OfParent(step)
    ensures CopierLedger(past + [step], ApplyParent(s, step, atomic), fc)
  {
  }

  lemma OtherKeepsCopierLedger(past: seq<Step>, s: State, step: Step, atomic: bool)
    requires Enabled(s, step) && !OfParent(step) && !Foreign(step)
    requires CopierLedger(past, s, !step.fromClient)
    ensures CopierLedger(past + [step], ApplyCopier(s, step, atomic), !step.fromClient)
  {
  }

  lemma OwnKeepsCopierLedger(past: seq<Step>, s: State, step: Step, atomic: bool)
    requires Relay(s) && Enabled(s, step) && !OfParent(step) && !Foreign(step)
    requires CopierLedger(past, s, step.fromClient)
    ensures CopierLedger(past + [step], ApplyCopier(s, step, atomic), step.fromClient)
  {
  }

  lemma ForeignKeepsCopierLedger(past: seq<Step>, s: State, step: Step, fc: bool, addons: nat, atomic: bool)
    requires CopierLedger(past, s, fc) && Relay(s) && Enabled(s, step) && Foreign(step)
    ensures CopierLedger(past + [step], ApplyForeign(s, step), fc)
  {
  }

  lemma ParentKeepsSourcesLedger(s: State, step: Step, addons: nat, atomic: bool)
    requires SourcesLedger(s, atomic) && Relay(s) && Enabled(s, step) && OfParent(step)
    ensures SourcesLedger(ApplyParent(s, step, atomic), atomic)
  {
  }

  lemma CopierKeepsSourcesLedger(s: State, step: Step, addons: nat, atomic: bool)
    requires SourcesLedger(s, atomic) && Inv(s, addons, atomic) && Enabled(s, step) && !OfParent(step) && !Foreign(step)
    ensures SourcesLedger(ApplyCopier(s, step, atomic), atomic)
  {
  }

  lemma ForeignKeepsSourcesLedger(s: State, step: Step, addons: nat, atomic: bool)
    requires SourcesLedger(s, atomic) && Relay(s) && Enabled(s, step) && Foreign(step)
    ensures SourcesLedger(ApplyForeign(s, step), atomic)
  {
  }

  lemma ParentKeepsParentLedger(past: seq<Step>, s: State, step: Step, addons: nat, atomic: bool)
    requires ParentLedger(past, s) && Relay(s) && Enabled(s, step) && OfParent(step)
    ensures ParentLedger(past + [step], ApplyParent(s, step, atomic))
  {
  }

  lemma CopierKeepsParentLedger(past: seq<Step>, s: State, step: Step, addons: nat, atomic: bool)
    requires ParentLedger(past, s) && Relay(s) && Enabled(s, step) && !OfParent(step) && !Foreign(step)
    ensures ParentLedger(past + [step], ApplyCopier(s, step, atomic))
  {
  }

  lemma ForeignKeepsParentLedger(past: seq<Step>, s: State, step: Step, addons: nat, atomic: bool)
    requires ParentLedger(past, s) && Relay(s) && Enabled(s, step) && Foreign(step)
    ensures ParentLedger(past + [step], ApplyForeign(s, step))
  {
  }

  /** A step of the tunnel that finds the client as it was, or closed already. */
  lemma QuietConnsLedger(past: seq<Step>, step: Step, c: Conns)
    requires ConnsLedger(past, c) && !Foreign(step) && (step == CloseHalf(true) || step == ShutClient ==> c.client.closed)
    ensures ConnsLedger(past + [step], c)
  {
  }

  lemma ClientConnsLedger(past: seq<Step>, step: Step, c: Conns)
    requires ConnsLedger(past, c) && (step == CloseHalf(true) || step == ShutClient)
    ensures ConnsLedger(past + [step], CloseClientHead(c))
  {
  }

  lemma ServerConnsLedger(past: seq<Step>, c: Conns)
    requires ConnsLedger(past, c) && c.client.closed
    ensures ConnsLedger(past, CloseServer(c))
  {
  }

  lemma ParentKeepsConnsLedger(past: seq<Step>, s: State, step: Step, addons: nat, atomic: bool)
    requires ConnsLedger(past, s.conns) && Inv(s, addons, atomic) && Enabled(s, step) && OfParent(step)
    ensures ConnsLedger(past + [step], ApplyParent(s, step, atomic).conns)
  {
    if step == ShutClient && !s.conns.client.closed {
      ClientConnsLedger(past, step, s.conns);
      ServerConnsLedger(past + [step], CloseClientHead(s.conns));
    } else {
      QuietConnsLedger(past, step, s.conns);
      if step == ShutServer {
        ServerConnsLedger(past + [step], s.conns);
      }
    }
  }

  lemma CopierKeepsConnsLedger(past: seq<Step>, s: State, step: Step, addons: nat, atomic: bool)
    requires ConnsLedger(past, s.conns) && SourcesLedger(s, atomic) && Inv(s, addons, atomic)
    requires Enabled(s, step) && !OfParent(step) && !Foreign(step)
    ensures ConnsLedger(past + [step], ApplyCopier(s, step, atomic).conns)
  {
    if step == CloseHalf(true) && !s.conns.client.closed {
      ClientConnsLedger(past, step, s.conns);
      ServerConnsLedger(past + [step], CloseClientHead(s.conns));
    } else {
      QuietConnsLedger(past, step, s.conns);
      if step == CloseRest(true) {
        ServerConnsLedger(past + [step], s.conns);
      } else if step == CloseRest(false) {
        ReadShutConnsLedger(past + [step], s.conns);
      }
    }
  }

  lemma ReadShutConnsLedger(past: seq<Step>, c: Conns)
    requires ConnsLedger(past, c)
    ensures ConnsLedger(past, c.(clientReadShut := true))
  {
  }

  lemma ForeignKeepsConnsLedger(past: seq<Step>, s: State, step: Step, addons: nat, atomic: bool)
    requires ConnsLedger(past, s.conns) && Inv(s, addons, atomic) && Enabled(s, step) && Foreign(step)
    ensures ConnsLedger(past + [step], ApplyForeign(s, step).conns)
  {
  }

  lemma StepKeepsStateLedger(past: seq<Step>, s: State, step: Step, addons: nat, atomic: bool)
    requires StateLedger(past, s, atomic) && Inv(s, addons, atomic) && Enabled(s, step)
    ensures StateLedger(past + [step], Apply(s, step, atomic), atomic)
  {
    if OfParent(step) {
      ParentKeepsCopierLedger(past, s, step, true, addons, atomic);
      ParentKeepsCopierLedger(past, s, step, false, addons, atomic);
      ParentKeepsSourcesLedger(s, step, addons, atomic);
      ParentKeepsParentLedger(past, s, step, addons, atomic);
      ParentKeepsConnsLedger(past, s, step, addons, atomic);
    } else if Foreign(step) {
      ForeignKeepsCopierLedger(past, s, step, true, addons, atomic);
      ForeignKeepsCopierLedger(past, s, step, false, addons, atomic);
      ForeignKeepsSourcesLedger(s, step, addons, atomic);
      ForeignKeepsParentLedger(past, s, step, addons, atomic);
      ForeignKeepsConnsLedger(past, s, step, addons, atomic);
    } else {
      OwnKeepsCopierLedger(past, s, step, atomic);
      OtherKeepsCopierLedger(past, s, step, atomic);
      CopierKeepsSourcesLedger(s, step, addons, atomic);
      CopierKeepsParentLedger(past, s, step, addons, atomic);
      CopierKeepsConnsLedger(past, s, step, addons, atomic);
    }
  }

  lemma StepIsReported(past: seq<Step>, s: State, step: Step, atomic: bool)
    requires s.received == Reported(past) && CopierLedger(past, s, true) && CopierLedger(past, s, false) && Enabled(s, step)
    ensures Apply(s, step, atomic).received == Reported(past + [step])
  {
    assert (past + [step])[..|past|] == past;
  }

  lemma StepKeepsLedger(past: seq<Step>, s: State, step: Step, addons: nat, atomic: bool)
    requires Ledger(past, s, atomic) && Inv(s, addons, atomic) && Enabled(s, step)
    ensures Ledger(past + [step], Apply(s, step, atomic), atomic)
  {
    StepKeepsStateLedger(past, s, step, addons, atomic);
    StepIsReported(past, s, step, atomic);
    StepKeepsFailuresReported(past, s, step, true, atomic);
    StepKeepsFailuresReported(past, s, step, false, atomic);
  }

  lemma {:induction false} RunKeepsLedger(past: seq<Step>, s: State, steps: seq<Step>, t: State, addons: nat, atomic: bool)
    requires Ledger(past, s, atomic) && Inv(s, addons, atomic) && Runs(s, steps, atomic, t)
    ensures Ledger(past + steps, t, atomic)
    decreases |steps|
  {
    if steps == [] {
      assert past + steps == past;
    } else {
      var step, rest := steps[0], steps[1..];
      assert past + steps == (past + [step]) + rest;
      assert Inv(Apply(s, step, atomic), addons, atomic) by { StepKeepsInv(s, step, addons, atomic); }
      assert Ledger(past + [step], Apply(s, step, atomic), atomic) by { StepKeepsLedger(past, s, step, addons, atomic); }
      RunKeepsLedger(past + [step], Apply(s, step, atomic), rest, t, addons, atomic);
    }
  }

  /** With atomic Close bodies: once handleConnect has returned, both sides are closed, once, and everybody was told once. */
  lemma TornDownAtReturn(steps: seq<Step>, t: State, addons: nat)
    requires Runs(Init(addons), steps, true, t) && t.parent.Returned?
    ensures t.conns.client == Wrap(true, 1, Everyone(addons))
    ensures t.conns.server == Wrap(true, 1, Everyone(addons))
    ensures t.pipeClientClosed && t.finished == 1
    ensures t.hooks == if t.up.Unborn? then 0 else 1
  {
    RunKeepsInv(Init(addons), steps, t, addons, true);
  }

  /**
   * When a Close can be interrupted before its nested close, the server may still be open at the return: exactly
   * when the client's copier is interrupted there and nobody else has closed the server.
   */
  lemma HalfTornDownAtReturn(steps: seq<Step>, t: State, addons: nat)
    requires Runs(Init(addons), steps, false, t) && t.parent.Returned?
    ensures t.conns.client == Wrap(true, 1, Everyone(addons))
    ensures t.conns.server == (if t.conns.server.closed then Wrap(true, 1, Everyone(addons)) else Wrap(false, 0, []))
    ensures !t.conns.server.closed <==> t.up.HalfClosed? && ServerGone !in steps
  {
    RunKeepsInv(Init(addons), steps, t, addons, false);
    RunKeepsClosedBy(Init(addons), steps, t, addons, false);
  }

  /** The server is closed by others, or by the tunnel after the client. */
  ghost predicate ClosedBy(s: State, others: bool) {
    && (others ==> s.conns.server.closed)
    && (s.conns.server.closed ==> others || (s.conns.client.closed && !s.up.HalfClosed? && !s.parent.ClosingServer?))
  }

  /** At most one participant is inside the client's Close. */
  predicate OneInside(s: State) {
    && (s.up.HalfClosed? || s.parent.ClosingServer? ==> s.conns.client.closed)
    && !(s.up.HalfClosed? && s.parent.ClosingServer?)
  }

  lemma ParentKeepsClosedBy(s: State, step: Step, others: bool)
    requires OneInside(s) && ClosedBy(s, others) && Enabled(s, step) && OfParent(step)
    ensures ClosedBy(ApplyParent(s, step, false), others)
  {
  }

  lemma CopierKeepsClosedBy(s: State, step: Step, others: bool)
    requires OneInside(s) && ClosedBy(s, others) && Enabled(s, step) && !OfParent(step) && !Foreign(step)
    ensures ClosedBy(ApplyCopier(s, step, false), others)
  {
  }

  lemma StepKeepsClosedBy(s: State, step: Step, others: bool)
    requires OneInside(s) && ClosedBy(s, others) && Enabled(s, step)
    ensures ClosedBy(Apply(s, step, false), others || step == ServerGone)
  {
    if OfParent(step) {
      ParentKeepsClosedBy(s, step, others);
    } else if !Foreign(step) {
      CopierKeepsClosedBy(s, step, others);
    }
  }

  lemma {:induction false} RunKeepsClosedBy(s: State, steps: seq<Step>, t: State, addons: nat, others: bool)
    requires Inv(s, addons, false) && ClosedBy(s, others) && Runs(s, steps, false, t)
    ensures ClosedBy(t, others || ServerGone in steps)
    decreases |steps|
  {
    if steps != [] {
      StepKeepsInv(s, steps[0], addons, false);
      StepKeepsClosedBy(s, steps[0], others);
      RunKeepsClosedBy(Apply(s, steps[0], false), steps[1..], t, addons, others || steps[0] == ServerGone);
    }
  }

  /** Such a run exists: the client's copier is interrupted inside Close while the other copier fails. */
  lemma ServerOpenAtReturn(addons: nat) returns (steps: seq<Step>, t: State)
    ensures Runs(Init(addons), steps, false, t)
    ensures t.parent.Returned? && !t.conns.server.closed
  {
    steps, t := Extend(Init(addons), [], Init(addons), WriteOk);
    steps, t := Extend(Init(addons), steps, t, CopyEnds(true, false));
    steps, t := Extend(Init(addons), steps, t, CloseHalf(true));
    steps, t := ThenTheOtherFails(Init(addons), steps, t);
    steps, t := ThenTheParentReturns(Init(addons), steps, t);
  }

  lemma ThenTheOtherFails(s: State, before: seq<Step>, m: State) returns (steps: seq<Step>, t: State)
    requires Runs(s, before, false, m)
    requires m.conns.client.closed && !m.conns.server.closed && m.down.Copying? && m.parent == Awaiting(0)
    ensures Runs(s, steps, false, t)
    ensures t.conns.client.closed && !t.conns.server.closed && t.parent.Leaving?
  {
    var offered;
    steps, offered := ThenTheOtherCloses(s, before, m);
    steps, t := Extend(s, steps, offered, Deliver(false));
  }

  lemma ThenTheOtherCloses(s: State, before: seq<Step>, m: State) returns (steps: seq<Step>, t: State)
    requires Runs(s, before, false, m)
    requires m.down.Copying?
    ensures Runs(s, steps, false, t)
    ensures t.conns.client == m.conns.client && t.conns.server == m.conns.server
    ensures t.parent == m.parent && t.down == Offering(true)
  {
    steps, t := Extend(s, before, m, CopyEnds(false, true));
    steps, t := Extend(s, steps, t, CloseHalf(false));
    steps, t := Extend(s, steps, t, CloseRest(false));
  }

  lemma ThenTheParentReturns(s: State, before: seq<Step>, m: State) returns (steps: seq<Step>, t: State)
    requires Runs(s, before, false, m)
    requires m.conns.client.closed && !m.conns.server.closed && m.parent.Leaving?
    ensures Runs(s, steps, false, t)
    ensures t.parent.Returned? && !t.conns.server.closed
  {
    steps, t := Extend(s, before, m, CloseDone);
    steps, t := Extend(s, steps, t, RunHooks);
    steps, t := Extend(s, steps, t, ShutClient);
    steps, t := Extend(s, steps, t, ShutPipe);
    steps, t := Extend(s, steps, t, Finish);
  }

  /** A run may go on with any enabled step. */
  lemma {:induction false} Extend(s: State, before: seq<Step>, m: State, step: Step) returns (steps: seq<Step>, t: State)
    requires Runs(s, before, false, m) && Enabled(m, step)
    ensures Runs(s, steps, false, t) && t == Apply(m, step, false)
    ensures steps == before + [step]
    decreases |before|
  {
    steps, t := before + [step], Apply(m, step, false);
    if before == [] {
      assert Runs(t, [], false, t);
      assert steps[1..] == [];
    } else {
      var rest, _ := Extend(Apply(s, before[0], false), before[1..], m, step);
      assert steps[1..] == rest;
    }
  }
}
