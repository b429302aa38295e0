/** Addons as arbitrary transition functions, and what one loop over them comes to. */
module Addons {
  import opened Common
  import opened Readers

  type Header = map<string, seq<string>>

  datatype Request = Request(verb: string, url: string, header: Header, body: Option<Bytes>)

  datatype Response = Response(status: int, header: Header, body: Option<Bytes>, bodyReader: Option<Source>, close: bool)

  /** The part of a flow that addons can read and write; world is whatever else they share. */
  datatype FlowState = FlowState(
    request: Option<Request>,
    response: Option<Response>,
    stream: bool,
    useSeparateClient: bool,
    world: int
  )

  datatype Hooked = Hooked(flow: FlowState) | HookPanic

  datatype Piped = Piped(flow: FlowState, reader: Option<Source>) | PipePanic

  datatype Addon = Addon(
    requestheaders: FlowState -> Hooked,
    request: FlowState -> Hooked,
    streamRequestModifier: (FlowState, Option<Source>) -> Piped,
    responseheaders: FlowState -> Hooked,
    response: FlowState -> Hooked,
    streamResponseModifier: (FlowState, Option<Source>) -> Piped
  )

  datatype Phase = Requestheaders | RequestRead | StreamRequest | Responseheaders | ResponseRead | StreamResponse {
    function Rank(): nat {
      match this
      case Requestheaders => 0
      case RequestRead => 1
      case StreamRequest => 2
      case Responseheaders => 3
      case ResponseRead => 4
      case StreamResponse => 5
    }

    /** The phases that pass a reader through. */
    predicate Streams() {
      StreamRequest? || StreamResponse?
    }
  }

  // ---- events -----------------------------------------------------------

  datatype Event = Event(phase: Phase, addon: nat)

  /** Phases in order, and within a phase the addons in order. */
  predicate Before(a: Event, b: Event) {
    a.phase.Rank() < b.phase.Rank() || (a.phase == b.phase && a.addon < b.addon)
  }

  ghost predicate InOrder(events: seq<Event>) {
    forall i, j :: 0 <= i < j < |events| ==> Before(events[i], events[j])
  }

  /** Every addon has seen the phase. */
  ghost predicate AllSaw(events: seq<Event>, phase: Phase, n: nat) {
    forall a: nat :: a < n ==> Event(phase, a) in events
  }

  /** The first n addons, in order. */
  function Asked(phase: Phase, n: nat): (events: seq<Event>)
    ensures |events| == n && forall k :: 0 <= k < n ==> events[k] == Event(phase, k)
  {
    seq(n, (k: nat) => Event(phase, k))
  }

  lemma OneMoreAsked(before: seq<Event>, phase: Phase, n: nat)
    ensures before + Asked(phase, n) + [Event(phase, n)] == before + Asked(phase, n + 1)
  {
    assert Asked(phase, n) + [Event(phase, n)] == Asked(phase, n + 1);
  }

  /** Only phases up to this one. */
  ghost predicate UpTo(events: seq<Event>, phase: Phase) {
    forall e :: e in events ==> e.phase.Rank() <= phase.Rank()
  }

  /** One more phase at the end keeps the order, and what has been seen. */
  lemma AskedLater(before: seq<Event>, last: Phase, phase: Phase, n: nat)
    requires InOrder(before) && UpTo(before, last) && last.Rank() < phase.Rank()
    ensures InOrder(before + Asked(phase, n)) && UpTo(before + Asked(phase, n), phase)
    ensures AllSaw(before + Asked(phase, n), phase, n)
    ensures forall p, m: nat :: AllSaw(before, p, m) ==> AllSaw(before + Asked(phase, n), p, m)
    ensures forall e :: e in before + Asked(phase, n) ==> e in before || e.phase == phase
  {
    var events := before + Asked(phase, n);
    forall i, j | 0 <= i < j < |events| ensures Before(events[i], events[j]) {
      if i < |before| <= j {
        assert events[i] in before;
      }
    }
    forall a: nat | a < n ensures Event(phase, a) in events {
      assert events[|before| + a] == Event(phase, a);
    }
  }

  /** In order means: each addon sees each phase at most once, and later phases later. */
  lemma AddonSeesPhasesInOrder(events: seq<Event>, i: nat, j: nat)
    requires InOrder(events) && i < |events| && j < |events| && events[i].addon == events[j].addon
    ensures events[i].phase.Rank() < events[j].phase.Rank() <==> i < j
    ensures events[i] == events[j] <==> i == j
  {
    if i < j {
      assert Before(events[i], events[j]);
    } else if j < i {
      assert Before(events[j], events[i]);
    }
  }

  // ---- one loop over the addons -----------------------------------------

  datatype Ran = Through | Stopped | Crashed

  function Hook(a: Addon, phase: Phase): FlowState -> Hooked
    requires !phase.Streams()
  {
    match phase
    case Requestheaders => a.requestheaders
    case RequestRead => a.request
    case Responseheaders => a.responseheaders
    case ResponseRead => a.response
  }

  function Modifier(a: Addon, phase: Phase): (FlowState, Option<Source>) -> Piped
    requires phase.Streams()
  {
    if phase.StreamRequest? then a.streamRequestModifier else a.streamResponseModifier
  }

  /** Whether the loop goes on after an addon: a response, or the body of one, ends it. */
  function Verdict(phase: Phase, g: FlowState): Ran {
    match phase
    case Requestheaders | RequestRead => if g.response.Some? then Stopped else Through
    case Responseheaders =>
      if g.response.None? then Crashed  // the body of a nil response
      else if g.response.value.body.Some? then Stopped
      else Through
    case _ => Through
  }

  /** How a loop ended, after asking so many addons. */
  datatype Looped = Looped(flow: FlowState, ran: Ran, asked: nat)

  function Loop(addons: seq<Addon>, phase: Phase, f: FlowState, n: nat): (l: Looped)
    requires n <= |addons| && !phase.Streams()
    ensures l.ran.Stopped? ==> l.flow.response.Some? && Verdict(phase, l.flow).Stopped?
  {
    if n == 0 then Looped(f, Through, 0)
    else
      var l := Loop(addons, phase, f, n - 1);
      if !l.ran.Through? then l
      else
        match Hook(addons[n - 1], phase)(l.flow)
        case HookPanic => Looped(l.flow, Crashed, n)
        case Hooked(g) => Looped(g, Verdict(phase, g), n)
  }

  datatype Passed = Passed(flow: FlowState, reader: Option<Source>, crashed: bool, asked: nat)

  function Pass(addons: seq<Addon>, phase: Phase, f: FlowState, r: Option<Source>, n: nat): Passed
    requires n <= |addons| && phase.Streams()
  {
    if n == 0 then Passed(f, r, false, 0)
    else
      var l := Pass(addons, phase, f, r, n - 1);
      if l.crashed then l
      else
        match Modifier(addons[n - 1], phase)(l.flow, l.reader)
        case PipePanic => Passed(l.flow, l.reader, true, n)
        case Piped(g, reader) => Passed(g, reader, false, n)
  }

  /** What addon k makes of the flow, if the loop gets to it. */
  function Result(addons: seq<Addon>, phase: Phase, f: FlowState, k: nat): Hooked
    requires k < |addons| && !phase.Streams()
  {
    Hook(addons[k], phase)(Loop(addons, phase, f, k).flow)
  }

  /**
   * The addons are asked in turn, each on what the one before it left, up to the first that panics or whose flow ends
   * the loop, and none after it.
   */
  lemma {:induction false} LoopIsFirst(addons: seq<Addon>, phase: Phase, f: FlowState, n: nat)
    requires n <= |addons| && !phase.Streams()
    ensures var l := Loop(addons, phase, f, n);
            && l.asked <= n && (if l.ran.Through? then l.asked == n else l.asked > 0)
            && (forall m: nat :: m < l.asked ==> Loop(addons, phase, f, m).ran.Through?)
            && (l.asked > 0 ==>
                  match Result(addons, phase, f, l.asked - 1)
                  case HookPanic => l.ran.Crashed?
                  case Hooked(g) => l.flow == g && l.ran == Verdict(phase, g))
  {
    if n > 0 {
      LoopIsFirst(addons, phase, f, n - 1);
    }
  }

  /** Once ended, a loop stays as it is. */
  lemma {:induction false} LoopStays(addons: seq<Addon>, phase: Phase, f: FlowState, m: nat, n: nat)
    requires m <= n <= |addons| && !phase.Streams() && !Loop(addons, phase, f, m).ran.Through?
    ensures Loop(addons, phase, f, n) == Loop(addons, phase, f, m)
  {
    if m < n {
      LoopStays(addons, phase, f, m, n - 1);
    }
  }

  // ---- the loop state by state ------------------------------------------

  /** The flows between the addons, each what an addon makes of the one before, none of which ends the loop. */
  ghost predicate Chain(addons: seq<Addon>, phase: Phase, g: seq<FlowState>)
    requires !phase.Streams()
  {
    0 < |g| <= |addons| + 1 && forall m: nat :: m + 1 < |g| ==> Link(addons[m], phase, g[m], g[m + 1])
  }

  predicate Link(a: Addon, phase: Phase, f: FlowState, g: FlowState)
    requires !phase.Streams()
  {
    Hook(a, phase)(f) == Hooked(g) && Verdict(phase, g).Through?
  }

  /** The flows before each of the first n addons and after the last of them. */
  function Trail(addons: seq<Addon>, phase: Phase, f: FlowState, n: nat): (g: seq<FlowState>)
    requires n <= |addons| && !phase.Streams()
    ensures |g| == n + 1 && g[n] == Loop(addons, phase, f, n).flow
  {
    if n == 0 then [f] else Trail(addons, phase, f, n - 1) + [Loop(addons, phase, f, n).flow]
  }

  lemma ChainOneMore(addons: seq<Addon>, phase: Phase, g: seq<FlowState>, h: FlowState)
    requires !phase.Streams() && Chain(addons, phase, g) && |g| <= |addons| && Link(addons[|g| - 1], phase, g[|g| - 1], h)
    ensures Chain(addons, phase, g + [h])
  {
    var g' := g + [h];
    forall m: nat | m + 1 < |g'| ensures Link(addons[m], phase, g'[m], g'[m + 1]) {
      if m + 1 < |g| { assert Link(addons[m], phase, g[m], g[m + 1]); }
    }
  }

  lemma {:induction false} TrailIsChain(addons: seq<Addon>, phase: Phase, f: FlowState, n: nat)
    requires n <= |addons| && !phase.Streams() && Loop(addons, phase, f, n).ran.Through?
    ensures Chain(addons, phase, Trail(addons, phase, f, n)) && Trail(addons, phase, f, n)[0] == f
  {
    if n > 0 {
      TrailIsChain(addons, phase, f, n - 1);
      ChainOneMore(addons, phase, Trail(addons, phase, f, n - 1), Loop(addons, phase, f, n).flow);
    }
  }

  lemma {:induction false} ChainIsLoop(addons: seq<Addon>, phase: Phase, g: seq<FlowState>, n: nat)
    requires !phase.Streams() && Chain(addons, phase, g) && n < |g|
    ensures Loop(addons, phase, g[0], n) == Looped(g[n], Through, n)
  {
    if n > 0 {
      ChainIsLoop(addons, phase, g, n - 1);
      assert Link(addons[n - 1], phase, g[n - 1], g[n]);
    }
  }

  /** The addon lets the request pass after seeing its headers. */
  predicate PassesHeaders(a: Addon, f: FlowState, g: FlowState) {
    a.requestheaders(f) == Hooked(g) && g.response.None?
  }

  predicate PassesRequest(a: Addon, f: FlowState, g: FlowState) {
    a.request(f) == Hooked(g) && g.response.None?
  }

  /** The addon neither removes the response nor sets its body. */
  predicate PassesAnswer(a: Addon, f: FlowState, g: FlowState) {
    a.responseheaders(f) == Hooked(g) && g.response.Some? && g.response.value.body.None?
  }

  predicate PassesResponse(a: Addon, f: FlowState, g: FlowState) {
    a.response(f) == Hooked(g)
  }

  ghost predicate ByRequestheaders(addons: seq<Addon>, g: seq<FlowState>) {
    0 < |g| <= |addons| + 1 && forall m: nat :: m + 1 < |g| ==> PassesHeaders(addons[m], g[m], g[m + 1])
  }

  ghost predicate ByRequest(addons: seq<Addon>, g: seq<FlowState>) {
    0 < |g| <= |addons| + 1 && forall m: nat :: m + 1 < |g| ==> PassesRequest(addons[m], g[m], g[m + 1])
  }

  ghost predicate ByResponseheaders(addons: seq<Addon>, g: seq<FlowState>) {
    0 < |g| <= |addons| + 1 && forall m: nat :: m + 1 < |g| ==> PassesAnswer(addons[m], g[m], g[m + 1])
  }

  ghost predicate ByResponse(addons: seq<Addon>, g: seq<FlowState>) {
    0 < |g| <= |addons| + 1 && forall m: nat :: m + 1 < |g| ==> PassesResponse(addons[m], g[m], g[m + 1])
  }

  lemma LinksByPhase(a: Addon, f: FlowState, g: FlowState)
    ensures Link(a, Requestheaders, f, g) <==> PassesHeaders(a, f, g)
    ensures Link(a, RequestRead, f, g) <==> PassesRequest(a, f, g)
    ensures Link(a, Responseheaders, f, g) <==> PassesAnswer(a, f, g)
    ensures Link(a, ResponseRead, f, g) <==> PassesResponse(a, f, g)
  {
  }

  /** Each phase asks the addon's own method for it, and ends the loop on its own condition. */
  lemma ChainsByPhase(addons: seq<Addon>, g: seq<FlowState>)
    ensures Chain(addons, Requestheaders, g) <==> ByRequestheaders(addons, g)
    ensures Chain(addons, RequestRead, g) <==> ByRequest(addons, g)
    ensures Chain(addons, Responseheaders, g) <==> ByResponseheaders(addons, g)
    ensures Chain(addons, ResponseRead, g) <==> ByResponse(addons, g)
  {
    if 0 < |g| <= |addons| + 1 {
      forall m: nat | m + 1 < |g|
        ensures Link(addons[m], Requestheaders, g[m], g[m + 1]) <==> PassesHeaders(addons[m], g[m], g[m + 1])
        ensures Link(addons[m], RequestRead, g[m], g[m + 1]) <==> PassesRequest(addons[m], g[m], g[m + 1])
        ensures Link(addons[m], Responseheaders, g[m], g[m + 1]) <==> PassesAnswer(addons[m], g[m], g[m + 1])
        ensures Link(addons[m], ResponseRead, g[m], g[m + 1]) <==> PassesResponse(addons[m], g[m], g[m + 1])
      {
        LinksByPhase(addons[m], g[m], g[m + 1]);
      }
    }
  }

  predicate PassesUp(a: Addon, f: FlowState, r: Option<Source>, g: FlowState, q: Option<Source>) {
    a.streamRequestModifier(f, r) == Piped(g, q)
  }

  predicate PassesDown(a: Addon, f: FlowState, r: Option<Source>, g: FlowState, q: Option<Source>) {
    a.streamResponseModifier(f, r) == Piped(g, q)
  }

  ghost predicate ByStreamRequest(addons: seq<Addon>, g: seq<FlowState>, q: seq<Option<Source>>) {
    |g| == |q| && 0 < |g| <= |addons| + 1 && forall m: nat :: m + 1 < |g| ==> PassesUp(addons[m], g[m], q[m], g[m + 1], q[m + 1])
  }

  ghost predicate ByStreamResponse(addons: seq<Addon>, g: seq<FlowState>, q: seq<Option<Source>>) {
    |g| == |q| && 0 < |g| <= |addons| + 1 && forall m: nat :: m + 1 < |g| ==> PassesDown(addons[m], g[m], q[m], g[m + 1], q[m + 1])
  }

  function Flows(addons: seq<Addon>, phase: Phase, f: FlowState, r: Option<Source>, n: nat): (g: seq<FlowState>)
    requires n <= |addons| && phase.Streams()
    ensures |g| == n + 1 && g[n] == Pass(addons, phase, f, r, n).flow
  {
    if n == 0 then [f] else Flows(addons, phase, f, r, n - 1) + [Pass(addons, phase, f, r, n).flow]
  }

  function ReadersOf(addons: seq<Addon>, phase: Phase, f: FlowState, r: Option<Source>, n: nat): (q: seq<Option<Source>>)
    requires n <= |addons| && phase.Streams()
    ensures |q| == n + 1 && q[n] == Pass(addons, phase, f, r, n).reader
  {
    if n == 0 then [r] else ReadersOf(addons, phase, f, r, n - 1) + [Pass(addons, phase, f, r, n).reader]
  }

  lemma UpOneMore(addons: seq<Addon>, g: seq<FlowState>, q: seq<Option<Source>>, h: FlowState, r: Option<Source>)
    requires ByStreamRequest(addons, g, q) && |g| <= |addons| && PassesUp(addons[|g| - 1], g[|g| - 1], q[|g| - 1], h, r)
    ensures ByStreamRequest(addons, g + [h], q + [r])
  {
    var g', q' := g + [h], q + [r];
    forall m: nat | m + 1 < |g'| ensures PassesUp(addons[m], g'[m], q'[m], g'[m + 1], q'[m + 1]) {
      if m + 1 < |g| { assert PassesUp(addons[m], g[m], q[m], g[m + 1], q[m + 1]); }
    }
  }

  lemma DownOneMore(addons: seq<Addon>, g: seq<FlowState>, q: seq<Option<Source>>, h: FlowState, r: Option<Source>)
    requires ByStreamResponse(addons, g, q) && |g| <= |addons| && PassesDown(addons[|g| - 1], g[|g| - 1], q[|g| - 1], h, r)
    ensures ByStreamResponse(addons, g + [h], q + [r])
  {
    var g', q' := g + [h], q + [r];
    forall m: nat | m + 1 < |g'| ensures PassesDown(addons[m], g'[m], q'[m], g'[m + 1], q'[m + 1]) {
      if m + 1 < |g| { assert PassesDown(addons[m], g[m], q[m], g[m + 1], q[m + 1]); }
    }
  }

  lemma {:induction false} PassUpIsTrail(addons: seq<Addon>, f: FlowState, r: Option<Source>, n: nat)
    requires n <= |addons| && !Pass(addons, StreamRequest, f, r, n).crashed
    ensures var g, q := Flows(addons, StreamRequest, f, r, n), ReadersOf(addons, StreamRequest, f, r, n);
            g[0] == f && q[0] == r && ByStreamRequest(addons, g, q)
  {
    if n > 0 {
      var before, l := Pass(addons, StreamRequest, f, r, n - 1), Pass(addons, StreamRequest, f, r, n);
      PassUpIsTrail(addons, f, r, n - 1);
      assert PassesUp(addons[n - 1], before.flow, before.reader, l.flow, l.reader);
      UpOneMore(addons, Flows(addons, StreamRequest, f, r, n - 1), ReadersOf(addons, StreamRequest, f, r, n - 1), l.flow, l.reader);
    }
  }

  lemma {:induction false} PassDownIsTrail(addons: seq<Addon>, f: FlowState, r: Option<Source>, n: nat)
    requires n <= |addons| && !Pass(addons, StreamResponse, f, r, n).crashed
    ensures var g, q := Flows(addons, StreamResponse, f, r, n), ReadersOf(addons, StreamResponse, f, r, n);
            g[0] == f && q[0] == r && ByStreamResponse(addons, g, q)
  {
    if n > 0 {
      var before, l := Pass(addons, StreamResponse, f, r, n - 1), Pass(addons, StreamResponse, f, r, n);
      PassDownIsTrail(addons, f, r, n - 1);
      assert PassesDown(addons[n - 1], before.flow, before.reader, l.flow, l.reader);
      DownOneMore(addons, Flows(addons, StreamResponse, f, r, n - 1), ReadersOf(addons, StreamResponse, f, r, n - 1), l.flow, l.reader);
    }
  }

  /** The loop gets to addon k, and it panics, or leaves no response where its body is looked at. */
  predicate CrashesAt(addons: seq<Addon>, phase: Phase, f: FlowState, k: nat)
    requires k < |addons| && !phase.Streams()
  {
    && Loop(addons, phase, f, k).ran.Through?
    && match Result(addons, phase, f, k)
       case HookPanic => true
       case Hooked(g) => phase.Responseheaders? && g.response.None?
  }

  /** The loop gets to addon k, and it leaves this response, which ends the loop. */
  predicate SuppliesAt(addons: seq<Addon>, phase: Phase, f: FlowState, k: nat, response: Response)
    requires k < |addons| && !phase.Streams()
  {
    && Loop(addons, phase, f, k).ran.Through?
    && match Result(addons, phase, f, k)
       case HookPanic => false
       case Hooked(g) => g.response == Some(response) && Verdict(phase, g).Stopped?
  }

  ghost predicate LoopCrashes(addons: seq<Addon>, phase: Phase, f: FlowState)
    requires !phase.Streams()
  {
    exists k: nat :: k < |addons| && CrashesAt(addons, phase, f, k)
  }

  ghost predicate LoopSupplies(addons: seq<Addon>, phase: Phase, f: FlowState, response: Response)
    requires !phase.Streams()
  {
    exists k: nat :: k < |addons| && SuppliesAt(addons, phase, f, k, response)
  }

  lemma EndsThere(addons: seq<Addon>, phase: Phase, f: FlowState, k: nat, response: Response)
    requires k < |addons| && !phase.Streams()
    ensures CrashesAt(addons, phase, f, k) ==> Loop(addons, phase, f, |addons|).ran.Crashed?
    ensures SuppliesAt(addons, phase, f, k, response) ==>
              Loop(addons, phase, f, |addons|).ran.Stopped? && Loop(addons, phase, f, |addons|).flow.response == Some(response)
  {
    if CrashesAt(addons, phase, f, k) || SuppliesAt(addons, phase, f, k, response) {
      LoopStays(addons, phase, f, k + 1, |addons|);
    }
  }

  lemma LoopCrashesExactly(addons: seq<Addon>, phase: Phase, f: FlowState)
    requires !phase.Streams()
    ensures Loop(addons, phase, f, |addons|).ran.Crashed? <==> LoopCrashes(addons, phase, f)
  {
    var l := Loop(addons, phase, f, |addons|);
    LoopIsFirst(addons, phase, f, |addons|);
    assert l.ran.Crashed? ==> CrashesAt(addons, phase, f, l.asked - 1);
    forall k: nat | k < |addons| && CrashesAt(addons, phase, f, k) ensures l.ran.Crashed? {
      EndsThere(addons, phase, f, k, Response(0, map[], None, None, false));
    }
  }

  lemma LoopSuppliesExactly(addons: seq<Addon>, phase: Phase, f: FlowState, response: Response)
    requires !phase.Streams()
    ensures var l := Loop(addons, phase, f, |addons|);
            l.ran.Stopped? && l.flow.response == Some(response) <==> LoopSupplies(addons, phase, f, response)
  {
    var l := Loop(addons, phase, f, |addons|);
    LoopIsFirst(addons, phase, f, |addons|);
    assert l.ran.Stopped? && l.flow.response == Some(response) ==> SuppliesAt(addons, phase, f, l.asked - 1, response);
    forall k: nat | k < |addons| && SuppliesAt(addons, phase, f, k, response)
      ensures l.ran.Stopped? && l.flow.response == Some(response)
    {
      EndsThere(addons, phase, f, k, response);
    }
  }

  /** The first addon to answer leaves this response; g are the flows up to it. */
  ghost predicate AnswersHeaders(addons: seq<Addon>, g: seq<FlowState>, response: Response) {
    && 0 < |g| <= |addons| && ByRequestheaders(addons, g)
    && var last := addons[|g| - 1].requestheaders(g[|g| - 1]);
       last.Hooked? && last.flow.response == Some(response)
  }

  ghost predicate AnswersRequest(addons: seq<Addon>, g: seq<FlowState>, response: Response) {
    && 0 < |g| <= |addons| && ByRequest(addons, g)
    && var last := addons[|g| - 1].request(g[|g| - 1]);
       last.Hooked? && last.flow.response == Some(response)
  }

  /** The first addon to set the body of the response leaves it so. */
  ghost predicate AnswersAnswer(addons: seq<Addon>, g: seq<FlowState>, response: Response) {
    && 0 < |g| <= |addons| && ByResponseheaders(addons, g)
    && var last := addons[|g| - 1].responseheaders(g[|g| - 1]);
       last.Hooked? && last.flow.response == Some(response) && response.body.Some?
  }

  ghost predicate AnswersByPhase(addons: seq<Addon>, phase: Phase, g: seq<FlowState>, response: Response) {
    match phase
    case Requestheaders => AnswersHeaders(addons, g, response)
    case RequestRead => AnswersRequest(addons, g, response)
    case Responseheaders => AnswersAnswer(addons, g, response)
    case _ => false
  }

  /** The same for any phase. */
  ghost predicate Supplies(addons: seq<Addon>, phase: Phase, g: seq<FlowState>, response: Response)
    requires !phase.Streams()
  {
    && 0 < |g| <= |addons| && Chain(addons, phase, g)
    && var last := Hook(addons[|g| - 1], phase)(g[|g| - 1]);
       last.Hooked? && last.flow.response == Some(response) && Verdict(phase, last.flow).Stopped?
  }

  lemma SuppliesIsAnswers(addons: seq<Addon>, phase: Phase, g: seq<FlowState>, response: Response)
    requires !phase.Streams()
    ensures Supplies(addons, phase, g, response) <==> AnswersByPhase(addons, phase, g, response)
  {
    ChainsByPhase(addons, g);
  }

  lemma SupplierHasTrail(addons: seq<Addon>, phase: Phase, f: FlowState, k: nat, response: Response)
    requires !phase.Streams() && k < |addons| && SuppliesAt(addons, phase, f, k, response)
    ensures Supplies(addons, phase, Trail(addons, phase, f, k), response) && Trail(addons, phase, f, k)[0] == f
  {
    TrailIsChain(addons, phase, f, k);
  }

  lemma TrailHasSupplier(addons: seq<Addon>, phase: Phase, g: seq<FlowState>, response: Response)
    requires !phase.Streams() && Supplies(addons, phase, g, response)
    ensures LoopSupplies(addons, phase, g[0], response)
  {
    ChainIsLoop(addons, phase, g, |g| - 1);
    assert SuppliesAt(addons, phase, g[0], |g| - 1, response);
  }

  lemma SuppliesByPhase(addons: seq<Addon>, phase: Phase, f: FlowState, response: Response)
    requires !phase.Streams()
    ensures LoopSupplies(addons, phase, f, response) <==> exists g :: |g| > 0 && g[0] == f && AnswersByPhase(addons, phase, g, response)
  {
    if LoopSupplies(addons, phase, f, response) {
      var k: nat :| k < |addons| && SuppliesAt(addons, phase, f, k, response);
      SupplierHasTrail(addons, phase, f, k, response);
      SuppliesIsAnswers(addons, phase, Trail(addons, phase, f, k), response);
    }
    forall g | |g| > 0 && g[0] == f && AnswersByPhase(addons, phase, g, response) ensures LoopSupplies(addons, phase, f, response) {
      SuppliesIsAnswers(addons, phase, g, response);
      TrailHasSupplier(addons, phase, g, response);
    }
  }

  /** The flow and reader get to addon k, and it panics on them. */
  predicate PanicsAt(addons: seq<Addon>, phase: Phase, f: FlowState, r: Option<Source>, k: nat)
    requires k < |addons| && phase.Streams()
  {
    var l := Pass(addons, phase, f, r, k);
    !l.crashed && Modifier(addons[k], phase)(l.flow, l.reader).PipePanic?
  }

  ghost predicate PassCrashes(addons: seq<Addon>, phase: Phase, f: FlowState, r: Option<Source>)
    requires phase.Streams()
  {
    exists k: nat :: k < |addons| && PanicsAt(addons, phase, f, r, k)
  }

  lemma {:induction false} PassIsFirst(addons: seq<Addon>, phase: Phase, f: FlowState, r: Option<Source>, n: nat)
    requires n <= |addons| && phase.Streams()
    ensures var l := Pass(addons, phase, f, r, n);
            && l.asked <= n && (if l.crashed then l.asked > 0 && PanicsAt(addons, phase, f, r, l.asked - 1) else l.asked == n)
  {
    if n > 0 {
      PassIsFirst(addons, phase, f, r, n - 1);
    }
  }

  lemma {:induction false} PassStays(addons: seq<Addon>, phase: Phase, f: FlowState, r: Option<Source>, m: nat, n: nat)
    requires m <= n <= |addons| && phase.Streams() && Pass(addons, phase, f, r, m).crashed
    ensures Pass(addons, phase, f, r, n) == Pass(addons, phase, f, r, m)
  {
    if m < n {
      PassStays(addons, phase, f, r, m, n - 1);
    }
  }

  lemma PanicEnds(addons: seq<Addon>, phase: Phase, f: FlowState, r: Option<Source>, k: nat)
    requires k < |addons| && phase.Streams() && PanicsAt(addons, phase, f, r, k)
    ensures Pass(addons, phase, f, r, |addons|).crashed
  {
    PassStays(addons, phase, f, r, k + 1, |addons|);
  }

  lemma PassCrashesExactly(addons: seq<Addon>, phase: Phase, f: FlowState, r: Option<Source>)
    requires phase.Streams()
    ensures Pass(addons, phase, f, r, |addons|).crashed <==> PassCrashes(addons, phase, f, r)
  {
    PassIsFirst(addons, phase, f, r, |addons|);
    forall k: nat | k < |addons| && PanicsAt(addons, phase, f, r, k) ensures Pass(addons, phase, f, r, |addons|).crashed {
      PanicEnds(addons, phase, f, r, k);
    }
  }

  // ---- manners ----------------------------------------------------------

  /** Bodies, body readers and the absence of a response are as before. */
  predicate Leaves(f: FlowState, g: FlowState) {
    && f.request.Some? == g.request.Some?
    && f.response.Some? == g.response.Some?
    && (f.request.Some? ==> g.request.value.body == f.request.value.body)
    && (f.response.Some? ==>
          && g.response.value.body == f.response.value.body
          && g.response.value.bodyReader == f.response.value.bodyReader)
  }

  /** A request stays, and so does a response. */
  predicate Keeps(f: FlowState, g: FlowState) {
    (f.request.Some? ==> g.request.Some?) && (f.response.Some? ==> g.response.Some?)
  }

  /** The addon leaves the bodies alone, sets no response and passes readers on. */
  ghost predicate Neutral(a: Addon) {
    && (forall phase: Phase, f :: !phase.Streams() && Hook(a, phase)(f).Hooked? ==> Leaves(f, Hook(a, phase)(f).flow))
    && (forall phase: Phase, f, r :: phase.Streams() && Modifier(a, phase)(f, r).Piped? ==>
          Leaves(f, Modifier(a, phase)(f, r).flow) && Modifier(a, phase)(f, r).reader == r)
  }

  /** The addon never panics. */
  ghost predicate Calm(a: Addon) {
    && (forall phase: Phase, f :: !phase.Streams() ==> Hook(a, phase)(f).Hooked?)
    && (forall phase: Phase, f, r :: phase.Streams() ==> Modifier(a, phase)(f, r).Piped?)
  }

  /** The addon never panics and removes neither a request nor a response. */
  ghost predicate Safe(a: Addon) {
    && Calm(a)
    && (forall phase: Phase, f :: !phase.Streams() && Hook(a, phase)(f).Hooked? ==> Keeps(f, Hook(a, phase)(f).flow))
    && (forall phase: Phase, f, r :: phase.Streams() && Modifier(a, phase)(f, r).Piped? ==> Keeps(f, Modifier(a, phase)(f, r).flow))
  }

  /** Once the request body is streamed, the addon does not turn streaming off again. */
  ghost predicate KeepsStream(a: Addon) {
    && (forall f: FlowState :: f.stream && a.responseheaders(f).Hooked? ==> a.responseheaders(f).flow.stream)
    && (forall f: FlowState, r :: f.stream && a.streamRequestModifier(f, r).Piped? ==> a.streamRequestModifier(f, r).flow.stream)
  }

  /** The addon does nothing at all, like the base addon. */
  ghost predicate Idle(a: Addon) {
    && (forall phase: Phase, f :: !phase.Streams() ==> Hook(a, phase)(f) == Hooked(f))
    && (forall phase: Phase, f, r :: phase.Streams() ==> Modifier(a, phase)(f, r) == Piped(f, r))
  }

  ghost predicate AllNeutral(addons: seq<Addon>) {
    forall a :: a in addons ==> Neutral(a)
  }

  ghost predicate AllCalm(addons: seq<Addon>) {
    forall a :: a in addons ==> Calm(a)
  }

  ghost predicate AllSafe(addons: seq<Addon>) {
    forall a :: a in addons ==> Safe(a)
  }

  ghost predicate AllKeepStream(addons: seq<Addon>) {
    forall a :: a in addons ==> KeepsStream(a)
  }

  ghost predicate AllIdle(addons: seq<Addon>) {
    forall a :: a in addons ==> Idle(a)
  }

  /** A loop over neutral addons runs through, unless one panics, and is neutral. */
  lemma {:induction false} LoopIsNeutral(addons: seq<Addon>, phase: Phase, f: FlowState, n: nat)
    requires AllNeutral(addons) && n <= |addons| && !phase.Streams() && Verdict(phase, f).Through?
    ensures var l := Loop(addons, phase, f, n); l.ran.Crashed? || (l.ran.Through? && Leaves(f, l.flow))
  {
    if n > 0 {
      LoopIsNeutral(addons, phase, f, n - 1);
      assert Neutral(addons[n - 1]);
    }
  }

  lemma {:induction false} PassIsNeutral(addons: seq<Addon>, phase: Phase, f: FlowState, r: Option<Source>, n: nat)
    requires AllNeutral(addons) && n <= |addons| && phase.Streams()
    ensures var l := Pass(addons, phase, f, r, n); l.crashed || (Leaves(f, l.flow) && l.reader == r)
  {
    if n > 0 {
      PassIsNeutral(addons, phase, f, r, n - 1);
      assert Neutral(addons[n - 1]);
    }
  }

  /** A loop over safe addons does not crash, and keeps the request and the response. */
  lemma {:induction false} LoopIsSafe(addons: seq<Addon>, phase: Phase, f: FlowState, n: nat)
    requires AllSafe(addons) && n <= |addons| && !phase.Streams() && (phase.Responseheaders? ==> f.response.Some?)
    ensures var l := Loop(addons, phase, f, n); !l.ran.Crashed? && Keeps(f, l.flow)
  {
    if n > 0 {
      LoopIsSafe(addons, phase, f, n - 1);
      assert Safe(addons[n - 1]);
    }
  }

  lemma {:induction false} PassIsSafe(addons: seq<Addon>, phase: Phase, f: FlowState, r: Option<Source>, n: nat)
    requires AllSafe(addons) && n <= |addons| && phase.Streams()
    ensures var l := Pass(addons, phase, f, r, n); !l.crashed && Keeps(f, l.flow)
  {
    if n > 0 {
      PassIsSafe(addons, phase, f, r, n - 1);
      assert Safe(addons[n - 1]);
    }
  }

  lemma CalmAndNeutralIsSafe(addons: seq<Addon>)
    requires AllNeutral(addons) && AllCalm(addons)
    ensures AllSafe(addons)
  {
    forall a | a in addons ensures Safe(a) {
      assert Neutral(a) && Calm(a);
    }
  }

  lemma {:induction false} LoopKeepsStream(addons: seq<Addon>, f: FlowState, n: nat)
    requires AllKeepStream(addons) && n <= |addons| && f.stream
    ensures Loop(addons, Responseheaders, f, n).flow.stream
  {
    if n > 0 {
      LoopKeepsStream(addons, f, n - 1);
      assert KeepsStream(addons[n - 1]);
    }
  }

  lemma {:induction false} PassKeepsStream(addons: seq<Addon>, f: FlowState, r: Option<Source>, n: nat)
    requires AllKeepStream(addons) && n <= |addons| && f.stream
    ensures Pass(addons, StreamRequest, f, r, n).flow.stream
  {
    if n > 0 {
      PassKeepsStream(addons, f, r, n - 1);
      assert KeepsStream(addons[n - 1]);
    }
  }

  lemma {:induction false} LoopIsIdle(addons: seq<Addon>, phase: Phase, f: FlowState, n: nat)
    requires AllIdle(addons) && n <= |addons| && !phase.Streams() && Verdict(phase, f).Through?
    ensures Loop(addons, phase, f, n) == Looped(f, Through, n)
  {
    if n > 0 {
      LoopIsIdle(addons, phase, f, n - 1);
      assert Idle(addons[n - 1]) && Hook(addons[n - 1], phase)(f) == Hooked(f);
    }
  }

  lemma {:induction false} PassIsIdle(addons: seq<Addon>, phase: Phase, f: FlowState, r: Option<Source>, n: nat)
    requires AllIdle(addons) && n <= |addons| && phase.Streams()
    ensures Pass(addons, phase, f, r, n) == Passed(f, r, false, n)
  {
    if n > 0 {
      PassIsIdle(addons, phase, f, r, n - 1);
      assert Idle(addons[n - 1]) && Modifier(addons[n - 1], phase)(f, r) == Piped(f, r);
    }
  }
}
