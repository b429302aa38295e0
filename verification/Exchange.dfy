/**
 * One exchange as a function of the addons, the client's request and the outside: which addons are asked, what is
 * sent upstream, and how it ends.
 */
module Exchange {
  import opened Common
  import opened Readers
  import opened Addons
  import opened Replies

  // ---- the outside ------------------------------------------------------

  /**
   * What the upstream server makes of a request: an answer or a failure, after reading the whole body and its end,
   * or, with taken, after reading no more than so many bytes. It may answer while the body is still being sent.
   */
  datatype Upstream =
    | Refused(taken: Option<nat>)
    | Answered(status: int, header: Header, close: bool, body: Source, taken: Option<nat>)

  /** http.NewRequest may fail, and so may the request itself; the answer may depend on everything sent. */
  datatype World = World(newRequestFails: Request -> bool, do: (FlowState, Bytes) -> Upstream)

  /** The flow and the reader of the body at the time the upstream request is made. */
  datatype Sending = Sending(flow: FlowState, reader: Option<Source>)

  /** A reader that breaks makes the request fail, unless the answer comes first. */
  function Answer(world: World, s: Sending): Upstream {
    var answer := world.do(s.flow, ReaderBytes(s.reader));
    if answer.taken.None? && s.reader.Some? && s.reader.value.end.Broken? then Refused(None) else answer
  }

  predicate Rejected(world: World, s: Sending)
    requires s.flow.request.Some?
  {
    world.newRequestFails(s.flow.request.value) || Answer(world, s).Refused?
  }

  /** The bodies that reach the upstream server: at most one. */
  function Sent(world: World, s: Sending): seq<Bytes>
    requires s.flow.request.Some?
  {
    if world.newRequestFails(s.flow.request.value) then []
    else [Clip(Answer(world, s).taken, ReaderBytes(s.reader))]
  }

  /** An answer that comes before anything of the body was read makes a successful request of nothing. */
  lemma EarlyAnswer(f: FlowState, body: Source, answer: Upstream)
    requires f.request.Some? && answer.Answered? && answer.taken == Some(0)
    ensures var world, s := World(_ => false, (_, _) => answer), Sending(f, Some(body));
            !Rejected(world, s) && Sent(world, s) == [[]]
  {
    assert Clip(Some(0), Content(body)) == [];
  }

  function ResponseOf(answer: Upstream): Response
    requires answer.Answered?
  {
    Response(answer.status, answer.header, None, None, answer.close)
  }

  // ---- how an exchange ends ---------------------------------------------

  datatype Outcome =
    | Refusing(status: int)                                  // 400 or 502
    | FromAddon(phase: Phase, response: Response)            // an addon supplied the response
    | Relayed(response: Response, reader: Option<Source>)    // the upstream answer was passed on, as the addons left it
    | Recovered                                              // the handler panicked

  /** What happened during one exchange, seen from outside. */
  datatype Trace = Trace(
    outcome: Outcome,
    events: seq<Event>,
    upstream: seq<Bytes>,      // the bodies that reached the upstream server
    sending: Option<Sending>   // the request, if it came so far
  )

  /** What has been written when an exchange ends: nothing, a status, or a reply. */
  ghost predicate Written(outcome: Outcome, was: Output, now: Output) {
    match outcome
    case Recovered => now == was
    case Refusing(status) => now == WithStatus(was, status)
    case FromAddon(_, response) => now == Replied(was, response, None)
    case Relayed(response, reader) => now == Replied(was, response, reader)
  }

  lemma OneStatus(outcome: Outcome, was: Output, now: Output)
    requires Written(outcome, was, now)
    ensures |now.statuses| == |was.statuses| + if outcome.Recovered? then 0 else 1
  {
  }

  // ---- the stages of an exchange ----------------------------------------

  type Limit = n: int | n > 0 witness 1

  datatype Setup = Setup(addons: seq<Addon>, limit: Limit)

  /** A stage goes on with a flow and the reader of a body, or ends the exchange; with the events so far. */
  datatype Stage =
    | Goes(flow: FlowState, reader: Option<Source>, events: seq<Event>)
    | Ends(outcome: Outcome, events: seq<Event>)

  function WithBody(f: FlowState, buf: Bytes): FlowState
    requires f.request.Some?
  {
    f.(request := Some(f.request.value.(body := Some(buf))))
  }

  function WithAnswer(f: FlowState, buf: Bytes): FlowState
    requires f.response.Some?
  {
    f.(response := Some(f.response.value.(body := Some(buf))))
  }

  function Ask(p: Setup, phase: Phase, f: FlowState): Looped
    requires !phase.Streams()
  {
    Loop(p.addons, phase, f, |p.addons|)
  }

  function PassOn(p: Setup, phase: Phase, f: FlowState, r: Option<Source>): Passed
    requires phase.Streams()
  {
    Pass(p.addons, phase, f, r, |p.addons|)
  }

  /** The request headers are shown to the addons. */
  function Greeted(p: Setup, f: FlowState): Stage {
    var l := Ask(p, Requestheaders, f);
    var events := Asked(Requestheaders, l.asked);
    match l.ran
    case Through => Goes(l.flow, None, events)
    case Stopped => Ends(FromAddon(Requestheaders, l.flow.response.value), events)
    case Crashed => Ends(Recovered, events)
  }

  /** A buffered body is put on the request and shown to the addons; what they leave there is read next. */
  function Announced(p: Setup, f: FlowState, buf: Bytes, before: seq<Event>): Stage {
    if f.request.None? then Ends(Recovered, before)
    else
      var l := Ask(p, RequestRead, WithBody(f, buf));
      var events := before + Asked(RequestRead, l.asked);
      match l.ran
      case Through =>
        if l.flow.request.None? then Ends(Recovered, events)
        else Goes(l.flow, Some(FromBytes(BodyBytes(l.flow.request.value.body))), events)
      case Stopped => Ends(FromAddon(RequestRead, l.flow.response.value), events)
      case Crashed => Ends(Recovered, events)
  }

  /** The request body is streamed if the addons said so or it is too large, and buffered and announced otherwise. */
  function BodyRead(p: Setup, f: FlowState, body: Source, before: seq<Event>): Stage {
    if f.stream then Goes(f, Some(body), before)
    else if Fails(body, p.limit) then Ends(Refusing(502), before)
    else if Fits(body, p.limit) then Announced(p, f, Content(body), before)
    else Goes(f.(stream := true), Some(Restarted(body, p.limit)), before)
  }

  function Prepared(p: Setup, f: FlowState, body: Source): Stage {
    match Greeted(p, f)
    case Goes(g, _, events) => BodyRead(p, g, body, events)
    case Ends(outcome, events) => Ends(outcome, events)
  }

  /** The reader is passed through the addons; then the request is made. */
  function PassedUp(p: Setup, f: FlowState, r: Option<Source>, before: seq<Event>): (s: Stage)
    ensures s.Goes? ==> s.flow.request.Some?
  {
    var l := PassOn(p, StreamRequest, f, r);
    var events := before + Asked(StreamRequest, l.asked);
    if l.crashed || l.flow.request.None? then Ends(Recovered, events) else Goes(l.flow, l.reader, events)
  }

  /** The request half. */
  function Requested(p: Setup, f: FlowState, body: Source): (s: Stage)
    ensures s.Goes? ==> s.flow.request.Some?
  {
    match Prepared(p, f, body)
    case Goes(g, r, events) => PassedUp(p, g, r, events)
    case Ends(outcome, events) => Ends(outcome, events)
  }

  function Arrived(f: FlowState, answer: Upstream): FlowState
    requires answer.Answered?
  {
    f.(response := Some(ResponseOf(answer)))
  }

  /** The headers of the answer are shown to the addons. */
  function Shown(p: Setup, f: FlowState, answer: Upstream, before: seq<Event>): (s: Stage)
    requires answer.Answered?
    ensures s.Goes? ==> s.flow.response.Some? && s.flow.response.value.body.None?
  {
    var l := Ask(p, Responseheaders, Arrived(f, answer));
    var events := before + Asked(Responseheaders, l.asked);
    match l.ran
    case Through => ShownThrough(p, f, answer); Goes(l.flow, None, events)
    case Stopped => Ends(FromAddon(Responseheaders, l.flow.response.value), events)
    case Crashed => Ends(Recovered, events)
  }

  lemma ShownThrough(p: Setup, f: FlowState, answer: Upstream)
    requires answer.Answered?
    ensures var l := Ask(p, Responseheaders, Arrived(f, answer));
            l.ran.Through? ==> l.flow.response.Some? && l.flow.response.value.body.None?
  {
    LoopIsFirst(p.addons, Responseheaders, Arrived(f, answer), |p.addons|);
  }

  /** The body of the answer is streamed, or buffered, put on the response and shown to the addons. */
  function AnswerRead(p: Setup, f: FlowState, answer: Source, before: seq<Event>): Stage
    requires f.response.Some?
  {
    if f.stream then Goes(f, Some(answer), before)
    else if Fails(answer, p.limit) then Ends(Refusing(502), before)
    else if Fits(answer, p.limit) then
      var l := Ask(p, ResponseRead, WithAnswer(f, Content(answer)));
      var events := before + Asked(ResponseRead, l.asked);
      if l.ran.Crashed? then Ends(Recovered, events) else Goes(l.flow, None, events)
    else Goes(f.(stream := true), Some(Restarted(answer, p.limit)), before)
  }

  /** The reader is passed through the addons; then the reply is written. */
  function PassedDown(p: Setup, f: FlowState, r: Option<Source>, before: seq<Event>): (s: Stage)
    ensures s.Ends?
  {
    var l := PassOn(p, StreamResponse, f, r);
    var events := before + Asked(StreamResponse, l.asked);
    if l.crashed || l.flow.response.None? then Ends(Recovered, events)
    else Ends(Relayed(l.flow.response.value, l.reader), events)
  }

  function Finished(p: Setup, f: FlowState, answer: Source, before: seq<Event>): (s: Stage)
    requires f.response.Some?
    ensures s.Ends?
  {
    match AnswerRead(p, f, answer, before)
    case Goes(g, r, events) => PassedDown(p, g, r, events)
    case Ends(outcome, events) => Ends(outcome, events)
  }

  /** The response half. */
  function Responded(p: Setup, f: FlowState, answer: Upstream, before: seq<Event>): (s: Stage)
    requires answer.Answered?
    ensures s.Ends?
  {
    match Shown(p, f, answer, before)
    case Goes(g, _, events) => Finished(p, g, answer.body, events)
    case Ends(outcome, events) => Ends(outcome, events)
  }

  function Run(p: Setup, f: FlowState, body: Source, world: World): Trace {
    match Requested(p, f, body)
    case Ends(outcome, events) => Trace(outcome, events, [], None)
    case Goes(g, r, events) =>
      var s := Sending(g, r);
      if Rejected(world, s) then Trace(Refusing(502), events, Sent(world, s), Some(s))
      else
        var end := Responded(p, g, Answer(world, s), events);
        Trace(end.outcome, end.events, Sent(world, s), Some(s))
  }

  // ---- the order of the events ------------------------------------------

  /** The events come in order, none is left out of a reply, and Response implies Request if streaming stays on. */
  ghost predicate EventsInOrder(p: Setup, t: Trace, body: Source) {
    && InOrder(t.events)
    && (forall e :: e in t.events && e.phase.RequestRead? ==> Fits(body, p.limit))
    && (AllKeepStream(p.addons) ==>
          forall e :: e in t.events && e.phase.ResponseRead? ==> AllSaw(t.events, RequestRead, |p.addons|))
    && (t.outcome.Relayed? ==> AllSaw(t.events, Responseheaders, |p.addons|) && AllSaw(t.events, StreamResponse, |p.addons|))
  }

  lemma GreetedInOrder(p: Setup, f: FlowState)
    ensures var s := Greeted(p, f);
            && InOrder(s.events) && UpTo(s.events, Requestheaders)
            && (s.Goes? ==> AllSaw(s.events, Requestheaders, |p.addons|))
  {
    LoopIsFirst(p.addons, Requestheaders, f, |p.addons|);
    var events := Greeted(p, f).events;
    forall a: nat | a < |events| ensures Event(Requestheaders, a) in events { assert events[a] == Event(Requestheaders, a); }
  }

  lemma AnnouncedInOrder(p: Setup, f: FlowState, buf: Bytes, before: seq<Event>)
    requires InOrder(before) && UpTo(before, Requestheaders)
    ensures var s := Announced(p, f, buf, before);
            && InOrder(s.events) && UpTo(s.events, RequestRead)
            && (forall phase, n: nat :: AllSaw(before, phase, n) ==> AllSaw(s.events, phase, n))
            && (s.Goes? ==> AllSaw(s.events, RequestRead, |p.addons|))
  {
    if f.request.Some? {
      LoopIsFirst(p.addons, RequestRead, WithBody(f, buf), |p.addons|);
      AskedLater(before, Requestheaders, RequestRead, Ask(p, RequestRead, WithBody(f, buf)).asked);
    }
  }

  lemma PreparedInOrder(p: Setup, f: FlowState, body: Source)
    ensures var s := Prepared(p, f, body);
            && InOrder(s.events) && UpTo(s.events, RequestRead)
            && (forall e :: e in s.events && e.phase.RequestRead? ==> Fits(body, p.limit))
            && (s.Goes? ==> AllSaw(s.events, Requestheaders, |p.addons|))
            && (s.Goes? && !s.flow.stream ==> AllSaw(s.events, RequestRead, |p.addons|))
  {
    GreetedInOrder(p, f);
    var s := Greeted(p, f);
    if s.Goes? && Fits(body, p.limit) {
      AnnouncedInOrder(p, s.flow, Content(body), s.events);
    }
  }

  lemma RequestedInOrder(p: Setup, f: FlowState, body: Source)
    ensures var s := Requested(p, f, body);
            && InOrder(s.events) && UpTo(s.events, StreamRequest)
            && (forall e :: e in s.events && e.phase.RequestRead? ==> Fits(body, p.limit))
            && (s.Goes? ==> AllSaw(s.events, Requestheaders, |p.addons|) && AllSaw(s.events, StreamRequest, |p.addons|))
            && (s.Goes? && AllKeepStream(p.addons) && !s.flow.stream ==> AllSaw(s.events, RequestRead, |p.addons|))
  {
    PreparedInOrder(p, f, body);
    var s := Prepared(p, f, body);
    if s.Goes? {
      PassIsFirst(p.addons, StreamRequest, s.flow, s.reader, |p.addons|);
      AskedLater(s.events, RequestRead, StreamRequest, PassOn(p, StreamRequest, s.flow, s.reader).asked);
      if AllKeepStream(p.addons) && s.flow.stream {
        PassKeepsStream(p.addons, s.flow, s.reader, |p.addons|);
      }
    }
  }

  /** What has been seen before stays seen, and Response events come only while the flow is not streamed. */
  ghost predicate Later(before: seq<Event>, events: seq<Event>, quiet: bool) {
    && InOrder(events) && (forall phase, n: nat :: AllSaw(before, phase, n) ==> AllSaw(events, phase, n))
    && (forall e :: e in events ==> e in before || (e.phase.Rank() >= 3 && !(quiet && e.phase.ResponseRead?)))
  }

  lemma FinishedInOrder(p: Setup, f: FlowState, answer: Source, before: seq<Event>)
    requires f.response.Some? && InOrder(before) && UpTo(before, Responseheaders)
    ensures var s := Finished(p, f, answer, before);
            && Later(before, s.events, f.stream)
            && (s.outcome.Relayed? ==> AllSaw(s.events, StreamResponse, |p.addons|))
  {
    if !f.stream && Fits(answer, p.limit) {
      AskedLater(before, Responseheaders, ResponseRead, Ask(p, ResponseRead, WithAnswer(f, Content(answer))).asked);
    }
    var s := AnswerRead(p, f, answer, before);
    if s.Goes? {
      PassIsFirst(p.addons, StreamResponse, s.flow, s.reader, |p.addons|);
      AskedLater(s.events, ResponseRead, StreamResponse, PassOn(p, StreamResponse, s.flow, s.reader).asked);
    }
  }

  lemma RespondedInOrder(p: Setup, f: FlowState, answer: Upstream, before: seq<Event>)
    requires answer.Answered? && InOrder(before) && UpTo(before, StreamRequest)
    ensures var s := Responded(p, f, answer, before);
            && Later(before, s.events, AllKeepStream(p.addons) && f.stream)
            && (s.outcome.Relayed? ==> AllSaw(s.events, Responseheaders, |p.addons|) && AllSaw(s.events, StreamResponse, |p.addons|))
  {
    var h := Arrived(f, answer);
    LoopIsFirst(p.addons, Responseheaders, h, |p.addons|);
    AskedLater(before, StreamRequest, Responseheaders, Ask(p, Responseheaders, h).asked);
    if AllKeepStream(p.addons) && f.stream {
      LoopKeepsStream(p.addons, h, |p.addons|);
    }
    var s := Shown(p, f, answer, before);
    if s.Goes? {
      FinishedInOrder(p, s.flow, answer.body, s.events);
    }
  }

  lemma LaterKeepsOrder(p: Setup, early: seq<Event>, t: Trace, body: Source, quiet: bool)
    requires UpTo(early, StreamRequest) && Later(early, t.events, quiet)
    requires forall e :: e in early && e.phase.RequestRead? ==> Fits(body, p.limit)
    requires AllKeepStream(p.addons) && !quiet ==> AllSaw(early, RequestRead, |p.addons|)
    requires t.outcome.Relayed? ==> AllSaw(t.events, Responseheaders, |p.addons|) && AllSaw(t.events, StreamResponse, |p.addons|)
    ensures EventsInOrder(p, t, body)
  {
  }

  lemma RunIsInOrder(p: Setup, f: FlowState, body: Source, world: World)
    ensures EventsInOrder(p, Run(p, f, body, world), body)
  {
    RequestedInOrder(p, f, body);
    var s, t := Requested(p, f, body), Run(p, f, body, world);
    var quiet := AllKeepStream(p.addons) && s.Goes? && s.flow.stream;
    if s.Goes? && !Rejected(world, Sending(s.flow, s.reader)) {
      RespondedInOrder(p, s.flow, Answer(world, Sending(s.flow, s.reader)), s.events);
      LaterKeepsOrder(p, s.events, t, body, quiet);
    } else {
      RequestHalfInOrder(p, t, body);
    }
  }

  lemma RequestHalfInOrder(p: Setup, t: Trace, body: Source)
    requires InOrder(t.events) && UpTo(t.events, StreamRequest) && !t.outcome.Relayed?
    requires forall e :: e in t.events && e.phase.RequestRead? ==> Fits(body, p.limit)
    ensures EventsInOrder(p, t, body)
  {
  }

  /** At most one upstream request, seen by every addon first, and none after an addon's early answer. */
  ghost predicate SentAtMostOnce(p: Setup, t: Trace, world: World) {
    && |t.upstream| <= 1
    && (t.sending.None? ==> t.upstream == [] && !t.outcome.Relayed?)
    && (t.sending.Some? ==>
          && t.sending.value.flow.request.Some? && t.upstream == Sent(world, t.sending.value)
          && AllSaw(t.events, Requestheaders, |p.addons|) && AllSaw(t.events, StreamRequest, |p.addons|))
    && (t.outcome.FromAddon? ==> (t.sending.None? <==> t.outcome.phase.Rank() <= 1))
    && (t.outcome.Relayed? ==> !Rejected(world, t.sending.value))
  }

  lemma RunSendsAtMostOnce(p: Setup, f: FlowState, body: Source, world: World)
    ensures SentAtMostOnce(p, Run(p, f, body, world), world)
  {
    RequestedInOrder(p, f, body);
    var s := Requested(p, f, body);
    if s.Goes? && !Rejected(world, Sending(s.flow, s.reader)) {
      RespondedInOrder(p, s.flow, Answer(world, Sending(s.flow, s.reader)), s.events);
    }
  }

  // ---- when the handler panics ------------------------------------------

  /** While the request headers or the buffered body are shown, or no request is there to take the body. */
  ghost predicate PreparingCrashes(p: Setup, f: FlowState, body: Source) {
    var l := Ask(p, Requestheaders, f);
    || LoopCrashes(p.addons, Requestheaders, f)
    || (l.ran.Through? && !l.flow.stream && Fits(body, p.limit) && BufferedCrashes(p, l.flow, Content(body)))
  }

  ghost predicate BufferedCrashes(p: Setup, f: FlowState, buf: Bytes) {
    || f.request.None?
    || LoopCrashes(p.addons, RequestRead, WithBody(f, buf))
    || (Ask(p, RequestRead, WithBody(f, buf)).ran.Through? && Ask(p, RequestRead, WithBody(f, buf)).flow.request.None?)
  }

  /** While the reader is passed on, or because no request, or response, is left then. */
  ghost predicate PassingCrashes(p: Setup, phase: Phase, f: FlowState, r: Option<Source>)
    requires phase.Streams()
  {
    || PassCrashes(p.addons, phase, f, r)
    || (if phase.StreamRequest? then PassOn(p, phase, f, r).flow.request.None? else PassOn(p, phase, f, r).flow.response.None?)
  }

  ghost predicate RequestingCrashes(p: Setup, f: FlowState, body: Source) {
    || PreparingCrashes(p, f, body)
    || (Prepared(p, f, body).Goes? && PassingCrashes(p, StreamRequest, Prepared(p, f, body).flow, Prepared(p, f, body).reader))
  }

  ghost predicate FinishingCrashes(p: Setup, f: FlowState, answer: Source)
    requires f.response.Some?
  {
    var s := AnswerRead(p, f, answer, []);
    || (!f.stream && Fits(answer, p.limit) && LoopCrashes(p.addons, ResponseRead, WithAnswer(f, Content(answer))))
    || (s.Goes? && PassingCrashes(p, StreamResponse, s.flow, s.reader))
  }

  ghost predicate RespondingCrashes(p: Setup, f: FlowState, answer: Upstream)
    requires answer.Answered?
  {
    var s := Shown(p, f, answer, []);
    || LoopCrashes(p.addons, Responseheaders, Arrived(f, answer))
    || (s.Goes? && FinishingCrashes(p, s.flow, answer.body))
  }

  /** An addon that is asked panics, or a request or response is missing where the handler looks at it. */
  ghost predicate Crashes(p: Setup, f: FlowState, body: Source, world: World) {
    var s := Requested(p, f, body);
    || RequestingCrashes(p, f, body)
    || (s.Goes? && !Rejected(world, Sending(s.flow, s.reader))
        && RespondingCrashes(p, s.flow, Answer(world, Sending(s.flow, s.reader))))
  }

  lemma PreparedRecovers(p: Setup, f: FlowState, body: Source)
    ensures Prepared(p, f, body).Ends? && Prepared(p, f, body).outcome.Recovered? <==> PreparingCrashes(p, f, body)
  {
    LoopCrashesExactly(p.addons, Requestheaders, f);
    var l := Ask(p, Requestheaders, f);
    if l.flow.request.Some? {
      LoopCrashesExactly(p.addons, RequestRead, WithBody(l.flow, Content(body)));
    }
  }

  lemma RequestedRecovers(p: Setup, f: FlowState, body: Source)
    ensures Requested(p, f, body).Ends? && Requested(p, f, body).outcome.Recovered? <==> RequestingCrashes(p, f, body)
  {
    PreparedRecovers(p, f, body);
    var s := Prepared(p, f, body);
    if s.Goes? {
      PassCrashesExactly(p.addons, StreamRequest, s.flow, s.reader);
    }
  }

  lemma FinishedRecovers(p: Setup, f: FlowState, answer: Source, before: seq<Event>)
    requires f.response.Some?
    ensures Finished(p, f, answer, before).outcome.Recovered? <==> FinishingCrashes(p, f, answer)
  {
    LoopCrashesExactly(p.addons, ResponseRead, WithAnswer(f, Content(answer)));
    var s := AnswerRead(p, f, answer, before);
    if s.Goes? {
      PassCrashesExactly(p.addons, StreamResponse, s.flow, s.reader);
    }
  }

  lemma RespondedRecovers(p: Setup, f: FlowState, answer: Upstream, before: seq<Event>)
    requires answer.Answered?
    ensures Responded(p, f, answer, before).outcome.Recovered? <==> RespondingCrashes(p, f, answer)
  {
    LoopCrashesExactly(p.addons, Responseheaders, Arrived(f, answer));
    var s := Shown(p, f, answer, before);
    if s.Goes? {
      FinishedRecovers(p, s.flow, answer.body, s.events);
    }
  }

  /** Exactly then the exchange is recovered, and by what is written, exactly then the client gets no status. */
  lemma RecoveredExactly(p: Setup, f: FlowState, body: Source, world: World)
    ensures Run(p, f, body, world).outcome.Recovered? <==> Crashes(p, f, body, world)
  {
    RequestedRecovers(p, f, body);
    var s := Requested(p, f, body);
    if s.Goes? && !Rejected(world, Sending(s.flow, s.reader)) {
      RespondedRecovers(p, s.flow, Answer(world, Sending(s.flow, s.reader)), s.events);
    }
  }

  lemma SafeRequest(p: Setup, f: FlowState, body: Source)
    requires AllSafe(p.addons) && f.request.Some?
    ensures var s := Requested(p, f, body); s.Ends? ==> !s.outcome.Recovered?
  {
    LoopIsSafe(p.addons, Requestheaders, f, |p.addons|);
    var l := Ask(p, Requestheaders, f);
    LoopIsSafe(p.addons, RequestRead, WithBody(l.flow, Content(body)), |p.addons|);
    var s := Prepared(p, f, body);
    if s.Goes? {
      PassIsSafe(p.addons, StreamRequest, s.flow, s.reader, |p.addons|);
    }
  }

  lemma SafeResponse(p: Setup, f: FlowState, answer: Upstream, before: seq<Event>)
    requires AllSafe(p.addons) && answer.Answered?
    ensures !Responded(p, f, answer, before).outcome.Recovered?
  {
    LoopIsSafe(p.addons, Responseheaders, Arrived(f, answer), |p.addons|);
    var s := Shown(p, f, answer, before);
    if s.Goes? {
      LoopIsSafe(p.addons, ResponseRead, WithAnswer(s.flow, Content(answer.body)), |p.addons|);
      var g := AnswerRead(p, s.flow, answer.body, s.events);
      if g.Goes? {
        PassIsSafe(p.addons, StreamResponse, g.flow, g.reader, |p.addons|);
      }
    }
  }

  /** Addons that neither panic nor remove a request or response get every exchange an answer. */
  lemma SafeIsAnswered(p: Setup, f: FlowState, body: Source, world: World)
    requires AllSafe(p.addons) && f.request.Some?
    ensures !Run(p, f, body, world).outcome.Recovered?
  {
    SafeRequest(p, f, body);
    var s := Requested(p, f, body);
    if s.Goes? && !Rejected(world, Sending(s.flow, s.reader)) {
      SafeResponse(p, s.flow, Answer(world, Sending(s.flow, s.reader)), s.events);
    }
  }

  /** The first addon panics at the request headers. */
  lemma PanicAtOnce(p: Setup, f: FlowState, body: Source, world: World)
    requires p.addons != [] && p.addons[0].requestheaders(f).HookPanic?
    ensures Run(p, f, body, world) == Trace(Recovered, [Event(Requestheaders, 0)], [], None)
  {
    LoopStays(p.addons, Requestheaders, f, 1, |p.addons|);
    assert Asked(Requestheaders, 1) == [Event(Requestheaders, 0)];
  }

  // ---- when there is a 502, and when an addon's response ----------------

  /** The headers were seen, and the body breaks while it is buffered. */
  predicate BodyBreaks(p: Setup, f: FlowState, body: Source) {
    Greeted(p, f).Goes? && !Greeted(p, f).flow.stream && Fails(body, p.limit)
  }

  predicate AnswerBreaks(p: Setup, f: FlowState, answer: Upstream)
    requires answer.Answered?
  {
    Shown(p, f, answer, []).Goes? && !Shown(p, f, answer, []).flow.stream && Fails(answer.body, p.limit)
  }

  /** A body breaks while it is buffered, or the request cannot be made or is refused; nothing else gives a 502. */
  lemma RefusedExactly(p: Setup, f: FlowState, body: Source, world: World)
    ensures var t, s := Run(p, f, body, world), Requested(p, f, body);
            t.outcome.Refusing? <==>
              || BodyBreaks(p, f, body)
              || (s.Goes? && Rejected(world, Sending(s.flow, s.reader)))
              || (s.Goes? && !Rejected(world, Sending(s.flow, s.reader))
                  && AnswerBreaks(p, s.flow, Answer(world, Sending(s.flow, s.reader))))
    ensures Run(p, f, body, world).outcome.Refusing? ==> Run(p, f, body, world).outcome.status == 502
  {
  }

  /** The first two events alone decide whether their addons answer. */
  lemma AnsweredEarly(p: Setup, f: FlowState, body: Source, world: World, phase: Phase, response: Response)
    requires phase.Rank() <= 1
    ensures Run(p, f, body, world).outcome == FromAddon(phase, response) <==>
              Prepared(p, f, body).Ends? && Prepared(p, f, body).outcome == FromAddon(phase, response)
  {
    var s := Requested(p, f, body);
    if s.Goes? && !Rejected(world, Sending(s.flow, s.reader)) {
      assert !(Responded(p, s.flow, Answer(world, Sending(s.flow, s.reader)), s.events).outcome == FromAddon(phase, response));
    }
  }

  /** An addon's response is the reply exactly if it is the first to supply one, on what the addons before it left: */
  lemma SuppliedAtHeaders(p: Setup, f: FlowState, body: Source, world: World, response: Response)
    ensures Run(p, f, body, world).outcome == FromAddon(Requestheaders, response)
            <==> exists g :: |g| > 0 && g[0] == f && AnswersHeaders(p.addons, g, response)
  {
    LoopSuppliesExactly(p.addons, Requestheaders, f, response);
    AnsweredEarly(p, f, body, world, Requestheaders, response);
    SuppliesByPhase(p.addons, Requestheaders, f, response);
    forall g ensures AnswersHeaders(p.addons, g, response) <==> AnswersByPhase(p.addons, Requestheaders, g, response) {}
  }

  /** at the buffered body, which all have let through at the headers, */
  lemma SuppliedAtBody(p: Setup, f: FlowState, body: Source, world: World, response: Response)
    ensures var s := Greeted(p, f);
            Run(p, f, body, world).outcome == FromAddon(RequestRead, response) <==>
              && s.Goes? && !s.flow.stream && Fits(body, p.limit) && s.flow.request.Some?
              && exists g :: |g| > 0 && g[0] == WithBody(s.flow, Content(body)) && AnswersRequest(p.addons, g, response)
  {
    AnsweredEarly(p, f, body, world, RequestRead, response);
    var s := Greeted(p, f);
    if s.Goes? && s.flow.request.Some? {
      LoopSuppliesExactly(p.addons, RequestRead, WithBody(s.flow, Content(body)), response);
      SuppliesByPhase(p.addons, RequestRead, WithBody(s.flow, Content(body)), response);
      forall g ensures AnswersRequest(p.addons, g, response) <==> AnswersByPhase(p.addons, RequestRead, g, response) {}
    }
  }

  /** Only the headers of an answer give such a response later. */
  lemma AnsweredLate(p: Setup, f: FlowState, body: Source, world: World, response: Response)
    ensures var s := Requested(p, f, body);
            Run(p, f, body, world).outcome == FromAddon(Responseheaders, response) <==>
              && s.Goes? && !Rejected(world, Sending(s.flow, s.reader))
              && var l := Ask(p, Responseheaders, Arrived(s.flow, Answer(world, Sending(s.flow, s.reader))));
                 l.ran.Stopped? && l.flow.response == Some(response)
  {
  }

  /** or at the headers of the answer. */
  lemma SuppliedAtAnswer(p: Setup, f: FlowState, body: Source, world: World, response: Response)
    ensures var s := Requested(p, f, body);
            Run(p, f, body, world).outcome == FromAddon(Responseheaders, response) <==>
              && s.Goes? && !Rejected(world, Sending(s.flow, s.reader))
              && exists g :: |g| > 0 && g[0] == Arrived(s.flow, Answer(world, Sending(s.flow, s.reader))) && AnswersAnswer(p.addons, g, response)
  {
    AnsweredLate(p, f, body, world, response);
    var s := Requested(p, f, body);
    if s.Goes? && !Rejected(world, Sending(s.flow, s.reader)) {
      var h := Arrived(s.flow, Answer(world, Sending(s.flow, s.reader)));
      LoopSuppliesExactly(p.addons, Responseheaders, h, response);
      SuppliesByPhase(p.addons, Responseheaders, h, response);
      forall g ensures AnswersAnswer(p.addons, g, response) <==> AnswersByPhase(p.addons, Responseheaders, g, response) {}
    }
  }

  /** Who is asked when an addon answers at the headers: it and those before it, and nothing else happens. */
  lemma AskedAtHeaders(p: Setup, f: FlowState, body: Source, world: World, g: seq<FlowState>, response: Response)
    requires |g| > 0 && g[0] == f && AnswersHeaders(p.addons, g, response)
    ensures Run(p, f, body, world) == Trace(FromAddon(Requestheaders, response), Asked(Requestheaders, |g|), [], None)
  {
    AnswererIsLast(p, Requestheaders, g, response);
  }

  /** When one answers at the buffered body: all at the headers, and it and those before it at the body. */
  lemma AskedAtBody(p: Setup, f: FlowState, body: Source, world: World, g: seq<FlowState>, response: Response)
    requires Greeted(p, f).Goes? && !Greeted(p, f).flow.stream && Fits(body, p.limit) && Greeted(p, f).flow.request.Some?
    requires |g| > 0 && g[0] == WithBody(Greeted(p, f).flow, Content(body)) && AnswersRequest(p.addons, g, response)
    ensures Run(p, f, body, world)
            == Trace(FromAddon(RequestRead, response), Asked(Requestheaders, |p.addons|) + Asked(RequestRead, |g|), [], None)
  {
    LoopIsFirst(p.addons, Requestheaders, f, |p.addons|);
    AnswererIsLast(p, RequestRead, g, response);
  }

  /** When one answers at the headers of the answer: it and those before it, after the events of the request. */
  lemma AskedAtAnswer(p: Setup, f: FlowState, answer: Upstream, before: seq<Event>, g: seq<FlowState>, response: Response)
    requires answer.Answered? && |g| > 0 && g[0] == Arrived(f, answer) && AnswersAnswer(p.addons, g, response)
    ensures Responded(p, f, answer, before) == Ends(FromAddon(Responseheaders, response), before + Asked(Responseheaders, |g|))
  {
    AnswererIsLast(p, Responseheaders, g, response);
  }

  lemma AnswererIsLast(p: Setup, phase: Phase, g: seq<FlowState>, response: Response)
    requires !phase.Streams() && |g| > 0 && AnswersByPhase(p.addons, phase, g, response)
    ensures var l := Ask(p, phase, g[0]);
            l.ran.Stopped? && l.flow.response == Some(response) && l.asked == |g|
  {
    SuppliesIsAnswers(p.addons, phase, g, response);
    ChainIsLoop(p.addons, phase, g, |g| - 1);
    LoopStays(p.addons, phase, g[0], |g|, |p.addons|);
  }

  /** The events of a request that is made: all addons at every step, at the body exactly if it is buffered. */
  lemma RequestEvents(p: Setup, f: FlowState, body: Source)
    requires Requested(p, f, body).Goes?
    ensures var buffered := !Greeted(p, f).flow.stream && Fits(body, p.limit);
            Requested(p, f, body).events ==
            Asked(Requestheaders, |p.addons|) + (if buffered then Asked(RequestRead, |p.addons|) else []) + Asked(StreamRequest, |p.addons|)
  {
    LoopIsFirst(p.addons, Requestheaders, f, |p.addons|);
    var greeted, ready := Greeted(p, f), Prepared(p, f, body);
    if !greeted.flow.stream && Fits(body, p.limit) {
      LoopIsFirst(p.addons, RequestRead, WithBody(greeted.flow, Content(body)), |p.addons|);
    } else {
      assert greeted.events + [] == greeted.events;
    }
    PassIsFirst(p.addons, StreamRequest, ready.flow, ready.reader, |p.addons|);
  }

  /** The events of an answer that is relayed, in the same way. */
  lemma ResponseEvents(p: Setup, f: FlowState, answer: Upstream, before: seq<Event>)
    requires answer.Answered? && Responded(p, f, answer, before).outcome.Relayed?
    ensures var shown := Shown(p, f, answer, before);
            var buffered := !shown.flow.stream && Fits(answer.body, p.limit);
            Responded(p, f, answer, before).events ==
            before + Asked(Responseheaders, |p.addons|) + (if buffered then Asked(ResponseRead, |p.addons|) else []) + Asked(StreamResponse, |p.addons|)
  {
    LoopIsFirst(p.addons, Responseheaders, Arrived(f, answer), |p.addons|);
    var shown := Shown(p, f, answer, before);
    var ready := AnswerRead(p, shown.flow, answer.body, shown.events);
    if !shown.flow.stream && Fits(answer.body, p.limit) {
      ResponseRunsThrough(p, WithAnswer(shown.flow, Content(answer.body)));
      LoopIsFirst(p.addons, ResponseRead, WithAnswer(shown.flow, Content(answer.body)), |p.addons|);
    } else {
      assert shown.events + [] == shown.events;
    }
    PassIsFirst(p.addons, StreamResponse, ready.flow, ready.reader, |p.addons|);
  }

  // ---- what any addons make of a request and its answer -----------------

  lemma GreetedIsTrail(p: Setup, f: FlowState) returns (a: seq<FlowState>)
    requires Greeted(p, f).Goes?
    ensures |a| == |p.addons| + 1 && a[0] == f && ByRequestheaders(p.addons, a) && a[|p.addons|] == Greeted(p, f).flow
  {
    a := Trail(p.addons, Requestheaders, f, |p.addons|);
    TrailIsChain(p.addons, Requestheaders, f, |p.addons|);
    ChainsByPhase(p.addons, a);
  }

  /** The client's body as it comes, or what the addons made of the request with the buffered body. */
  ghost predicate BodyMade(p: Setup, f: FlowState, body: Source, b: seq<FlowState>, g: FlowState, reader: Option<Source>) {
    if f.stream || !Fits(body, p.limit) then
      g == f.(stream := true) && Yields(reader, body) && (!f.stream ==> !Fails(body, p.limit))
    else
      && |b| == |p.addons| + 1 && ByRequest(p.addons, b)
      && f.request.Some? && b[0] == f.(request := Some(f.request.value.(body := Some(Content(body)))))
      && g == b[|p.addons|] && g.request.Some?
      && reader.Some? && reader.value.end.Eof?
      && Content(reader.value) == if g.request.value.body.Some? then g.request.value.body.value else []
  }

  lemma BodyReadIsTrail(p: Setup, f: FlowState, body: Source, before: seq<Event>) returns (b: seq<FlowState>)
    requires BodyRead(p, f, body, before).Goes?
    ensures BodyMade(p, f, body, b, BodyRead(p, f, body, before).flow, BodyRead(p, f, body, before).reader)
  {
    b := [];
    if f.stream {
    } else if Fits(body, p.limit) {
      var h := WithBody(f, Content(body));
      b := Trail(p.addons, RequestRead, h, |p.addons|);
      TrailIsChain(p.addons, RequestRead, h, |p.addons|);
      ChainsByPhase(p.addons, b);
    } else {
      RestartedYieldsAll(body, p.limit);
    }
  }

  lemma PassedUpIsTrail(p: Setup, f: FlowState, r: Option<Source>, before: seq<Event>)
    returns (c: seq<FlowState>, q: seq<Option<Source>>)
    requires PassedUp(p, f, r, before).Goes?
    ensures |c| == |q| == |p.addons| + 1 && ByStreamRequest(p.addons, c, q) && c[0] == f && q[0] == r
    ensures PassedUp(p, f, r, before).flow == c[|p.addons|] && PassedUp(p, f, r, before).reader == q[|p.addons|]
    ensures c[|p.addons|].request.Some?
  {
    c, q := Flows(p.addons, StreamRequest, f, r, |p.addons|), ReadersOf(p.addons, StreamRequest, f, r, |p.addons|);
    PassUpIsTrail(p.addons, f, r, |p.addons|);
  }

  /**
   * The flow and reader sent upstream, state by state: a are the flows of the header event, b those of the body event
   * if the body is buffered, c and q the flows and readers of the modifiers.
   */
  lemma RequestIsWhatAddonsMade(p: Setup, f: FlowState, body: Source, world: World)
    returns (a: seq<FlowState>, b: seq<FlowState>, c: seq<FlowState>, q: seq<Option<Source>>)
    requires Run(p, f, body, world).sending.Some?
    ensures |a| == |p.addons| + 1 && a[0] == f && ByRequestheaders(p.addons, a)
    ensures |c| == |q| == |p.addons| + 1 && BodyMade(p, a[|p.addons|], body, b, c[0], q[0])
    ensures ByStreamRequest(p.addons, c, q) && c[|p.addons|].request.Some?
    ensures Run(p, f, body, world).sending == Some(Sending(c[|p.addons|], q[|p.addons|]))
  {
    var greeted, ready := Greeted(p, f), Prepared(p, f, body);
    a := GreetedIsTrail(p, f);
    b := BodyReadIsTrail(p, greeted.flow, body, greeted.events);
    c, q := PassedUpIsTrail(p, ready.flow, ready.reader, ready.events);
  }

  lemma ShownIsTrail(p: Setup, f: FlowState, answer: Upstream, before: seq<Event>) returns (a: seq<FlowState>)
    requires answer.Answered? && Shown(p, f, answer, before).Goes?
    ensures |a| == |p.addons| + 1 && ByResponseheaders(p.addons, a) && a[|p.addons|] == Shown(p, f, answer, before).flow
    ensures a[0] == f.(response := Some(Response(answer.status, answer.header, None, None, answer.close)))
  {
    a := Trail(p.addons, Responseheaders, Arrived(f, answer), |p.addons|);
    TrailIsChain(p.addons, Responseheaders, Arrived(f, answer), |p.addons|);
    ChainsByPhase(p.addons, a);
  }

  /** The upstream's body as it comes, or what the addons made of the response with the buffered body. */
  ghost predicate AnswerMade(p: Setup, f: FlowState, answer: Source, b: seq<FlowState>, g: FlowState, reader: Option<Source>) {
    if f.stream || !Fits(answer, p.limit) then
      g == f.(stream := true) && Yields(reader, answer) && (!f.stream ==> !Fails(answer, p.limit))
    else
      && |b| == |p.addons| + 1 && ByResponse(p.addons, b)
      && f.response.Some? && b[0] == f.(response := Some(f.response.value.(body := Some(Content(answer)))))
      && g == b[|p.addons|] && reader.None?
  }

  lemma AnswerReadIsTrail(p: Setup, f: FlowState, answer: Source, before: seq<Event>) returns (b: seq<FlowState>)
    requires f.response.Some? && AnswerRead(p, f, answer, before).Goes?
    ensures AnswerMade(p, f, answer, b, AnswerRead(p, f, answer, before).flow, AnswerRead(p, f, answer, before).reader)
  {
    b := [];
    if f.stream {
    } else if Fits(answer, p.limit) {
      var h := WithAnswer(f, Content(answer));
      b := Trail(p.addons, ResponseRead, h, |p.addons|);
      ResponseRunsThrough(p, h);
      TrailIsChain(p.addons, ResponseRead, h, |p.addons|);
      ChainsByPhase(p.addons, b);
    } else {
      RestartedYieldsAll(answer, p.limit);
    }
  }

  lemma PassedDownIsTrail(p: Setup, f: FlowState, r: Option<Source>, before: seq<Event>)
    returns (c: seq<FlowState>, q: seq<Option<Source>>)
    requires PassedDown(p, f, r, before).outcome.Relayed?
    ensures |c| == |q| == |p.addons| + 1 && ByStreamResponse(p.addons, c, q) && c[0] == f && q[0] == r
    ensures c[|p.addons|].response.Some?
    ensures PassedDown(p, f, r, before).outcome == Relayed(c[|p.addons|].response.value, q[|p.addons|])
  {
    c, q := Flows(p.addons, StreamResponse, f, r, |p.addons|), ReadersOf(p.addons, StreamResponse, f, r, |p.addons|);
    PassDownIsTrail(p.addons, f, r, |p.addons|);
  }

  /** The response relayed, in the same way: it starts as the upstream's answer and is what the last addon left. */
  lemma ReplyIsWhatAddonsMade(p: Setup, f: FlowState, answer: Upstream, before: seq<Event>)
    returns (a: seq<FlowState>, b: seq<FlowState>, c: seq<FlowState>, q: seq<Option<Source>>)
    requires answer.Answered? && Responded(p, f, answer, before).outcome.Relayed?
    ensures |a| == |p.addons| + 1 && ByResponseheaders(p.addons, a)
    ensures a[0] == f.(response := Some(Response(answer.status, answer.header, None, None, answer.close)))
    ensures |c| == |q| == |p.addons| + 1 && AnswerMade(p, a[|p.addons|], answer.body, b, c[0], q[0])
    ensures ByStreamResponse(p.addons, c, q) && c[|p.addons|].response.Some?
    ensures Responded(p, f, answer, before).outcome == Relayed(c[|p.addons|].response.value, q[|p.addons|])
  {
    var shown := Shown(p, f, answer, before);
    a := ShownIsTrail(p, f, answer, before);
    var ready := AnswerRead(p, shown.flow, answer.body, shown.events);
    b := AnswerReadIsTrail(p, shown.flow, answer.body, shown.events);
    c, q := PassedDownIsTrail(p, ready.flow, ready.reader, ready.events);
  }

  /** Nothing ends the loop of the Response event but a panic. */
  lemma ResponseRunsThrough(p: Setup, f: FlowState)
    ensures !Ask(p, ResponseRead, f).ran.Stopped?
  {
  }

  /** The whole exchange: what is relayed is what the addons made of what the outside answered to what was sent. */
  lemma RelayedIsWhatAddonsMade(p: Setup, f: FlowState, body: Source, world: World)
    returns (answer: Upstream, a: seq<FlowState>, b: seq<FlowState>, c: seq<FlowState>, q: seq<Option<Source>>)
    requires Run(p, f, body, world).outcome.Relayed?
    ensures var t := Run(p, f, body, world);
            && t.sending.Some? && t.sending.value.flow.request.Some?
            && !world.newRequestFails(t.sending.value.flow.request.value)
            && var reader := t.sending.value.reader;
               var bytes := if reader.Some? then Content(reader.value) else [];
               && answer == world.do(t.sending.value.flow, bytes)
               && (answer.taken.None? && reader.Some? ==> reader.value.end.Eof?)
               && t.upstream == [if answer.taken.Some? && answer.taken.value < |bytes| then bytes[..answer.taken.value] else bytes]
    ensures answer.Answered?
    ensures |a| == |p.addons| + 1 && ByResponseheaders(p.addons, a)
    ensures var sent := Run(p, f, body, world).sending.value.flow;
            a[0] == sent.(response := Some(Response(answer.status, answer.header, None, None, answer.close)))
    ensures |c| == |q| == |p.addons| + 1 && AnswerMade(p, a[|p.addons|], answer.body, b, c[0], q[0])
    ensures ByStreamResponse(p.addons, c, q) && c[|p.addons|].response.Some?
    ensures Run(p, f, body, world).outcome == Relayed(c[|p.addons|].response.value, q[|p.addons|])
  {
    var s := Requested(p, f, body);
    answer := world.do(s.flow, ReaderBytes(s.reader));
    a, b, c, q := ReplyIsWhatAddonsMade(p, s.flow, answer, s.events);
  }

  // ---- addons that leave the bodies alone -------------------------------

  /** The reader yields what the body does, and ends like it. */
  predicate Yields(r: Option<Source>, body: Source) {
    r.Some? && Content(r.value) == Content(body) && r.value.end == body.end
  }

  /** What is sent is the client's body, and what is to be written is the upstream's, from one place. */
  predicate Conserved(t: Trace, body: Source, world: World) {
    && (t.sending.Some? ==> Yields(t.sending.value.reader, body))
    && (t.outcome.Relayed? ==>
          && t.sending.Some? && Answer(world, t.sending.value).Answered?
          && ReaderBytes(t.outcome.reader) + OwnBytes(t.outcome.response) == Content(Answer(world, t.sending.value).body)
          && t.outcome.response.bodyReader.None? && (t.outcome.reader.None? || t.outcome.response.body.None?))
    && !t.outcome.FromAddon?
  }

  lemma NeutralRequest(p: Setup, f: FlowState, body: Source)
    requires AllNeutral(p.addons) && f.response.None?
    ensures var s := Requested(p, f, body);
            if s.Goes? then Yields(s.reader, body) else !s.outcome.FromAddon? && !s.outcome.Relayed?
  {
    LoopIsNeutral(p.addons, Requestheaders, f, |p.addons|);
    var l := Ask(p, Requestheaders, f);
    if l.ran.Through? && l.flow.request.Some? {
      LoopIsNeutral(p.addons, RequestRead, WithBody(l.flow, Content(body)), |p.addons|);
    }
    if p.limit <= |Content(body)| {
      RestartedYieldsAll(body, p.limit);
    }
    var s := Prepared(p, f, body);
    if s.Goes? {
      PassIsNeutral(p.addons, StreamRequest, s.flow, s.reader, |p.addons|);
    }
  }

  lemma NeutralAnswer(p: Setup, f: FlowState, answer: Source, before: seq<Event>)
    requires AllNeutral(p.addons) && f.response.Some?
    requires f.response.value.body.None? && f.response.value.bodyReader.None?
    ensures var o := Finished(p, f, answer, before).outcome;
            && !o.FromAddon?
            && (o.Relayed? ==>
                  && ReaderBytes(o.reader) + OwnBytes(o.response) == Content(answer)
                  && o.response.bodyReader.None? && (o.reader.None? || o.response.body.None?))
  {
    LoopIsNeutral(p.addons, ResponseRead, WithAnswer(f, Content(answer)), |p.addons|);
    if p.limit <= |Content(answer)| {
      RestartedYieldsAll(answer, p.limit);
    }
    var s := AnswerRead(p, f, answer, before);
    if s.Goes? {
      PassIsNeutral(p.addons, StreamResponse, s.flow, s.reader, |p.addons|);
    }
  }

  lemma NeutralConserves(p: Setup, f: FlowState, body: Source, world: World)
    requires AllNeutral(p.addons) && f.response.None?
    ensures Conserved(Run(p, f, body, world), body, world)
  {
    NeutralRequest(p, f, body);
    var s := Requested(p, f, body);
    if s.Goes? && !Rejected(world, Sending(s.flow, s.reader)) {
      var answer := Answer(world, Sending(s.flow, s.reader));
      LoopIsNeutral(p.addons, Responseheaders, Arrived(s.flow, answer), |p.addons|);
      var g := Shown(p, s.flow, answer, s.events);
      if g.Goes? {
        NeutralAnswer(p, g.flow, answer.body, g.events);
      }
    }
  }

  /** With neutral addons a prefix of the client's body goes upstream, and all of it exactly if the server reads that far. */
  lemma BodiesUpstream(p: Setup, f: FlowState, body: Source, world: World)
    requires AllNeutral(p.addons) && f.response.None?
    ensures var t := Run(p, f, body, world);
            t.upstream != [] ==>
              var taken := Answer(world, t.sending.value).taken;
              && t.upstream[0] <= Content(body)
              && (t.upstream[0] == Content(body) <==> taken.None? || |Content(body)| <= taken.value)
    ensures var t := Run(p, f, body, world);
            t.outcome.Relayed? && Answer(world, t.sending.value).taken.None? ==> t.upstream == [Content(body)] && body.end.Eof?
  {
    NeutralRequest(p, f, body);
  }

  // ---- addons that do nothing -------------------------------------------

  /** Everything but the buffered body is the same. */
  predicate SameAnswer(a: Response, b: Response) {
    a.status == b.status && a.header == b.header && a.close == b.close && a.bodyReader == b.bodyReader
  }

  /** The flow that is sent when no addon changes it. */
  function Untouched(p: Setup, f: FlowState, body: Source): FlowState
    requires f.request.Some?
  {
    if |Content(body)| < p.limit then WithBody(f, Content(body)) else f.(stream := true)
  }

  lemma IdleRequest(p: Setup, f: FlowState, body: Source)
    requires AllIdle(p.addons) && f.request.Some? && f.response.None? && !f.stream
    ensures var s := Requested(p, f, body);
            if Fails(body, p.limit) then s.Ends? && s.outcome == Refusing(502)
            else s.Goes? && s.flow == Untouched(p, f, body) && Yields(s.reader, body)
  {
    LoopIsIdle(p.addons, Requestheaders, f, |p.addons|);
    LoopIsIdle(p.addons, RequestRead, WithBody(f, Content(body)), |p.addons|);
    if p.limit <= |Content(body)| {
      RestartedYieldsAll(body, p.limit);
    }
    var s := Prepared(p, f, body);
    if s.Goes? {
      PassIsIdle(p.addons, StreamRequest, s.flow, s.reader, |p.addons|);
    }
  }

  lemma IdleResponse(p: Setup, f: FlowState, answer: Upstream, before: seq<Event>)
    requires AllIdle(p.addons) && answer.Answered?
    ensures var o := Responded(p, f, answer, before).outcome;
            if !f.stream && Fails(answer.body, p.limit) then o == Refusing(502)
            else
              && o.Relayed? && SameAnswer(o.response, ResponseOf(answer))
              && ReaderBytes(o.reader) + OwnBytes(o.response) == Content(answer.body)
  {
    var h := Arrived(f, answer);
    LoopIsIdle(p.addons, Responseheaders, h, |p.addons|);
    LoopIsIdle(p.addons, ResponseRead, WithAnswer(h, Content(answer.body)), |p.addons|);
    if p.limit <= |Content(answer.body)| {
      RestartedYieldsAll(answer.body, p.limit);
    }
    var s := AnswerRead(p, h, answer.body, before + Asked(Responseheaders, |p.addons|));
    if s.Goes? {
      PassIsIdle(p.addons, StreamResponse, s.flow, s.reader, |p.addons|);
    }
  }

  /**
   * With addons that do nothing the proxy is transparent: the client's own request is sent, and status, headers and
   * body of the answer come back, or there is a 502, exactly if a body breaks while buffered or the request is rejected.
   */
  lemma IdleIsTransparent(p: Setup, f: FlowState, body: Source, world: World)
    requires AllIdle(p.addons) && f.request.Some? && f.response.None? && !f.stream
    ensures var t := Run(p, f, body, world);
            && (t.sending.None? <==> Fails(body, p.limit))
            && (t.outcome.Relayed? || t.outcome == Refusing(502))
    ensures var t := Run(p, f, body, world);
            t.sending.Some? ==>
              var s, sent := t.sending.value, Content(body);
              && s.flow == (if |sent| < p.limit then f.(request := Some(f.request.value.(body := Some(sent)))) else f.(stream := true))
              && s.reader.Some? && Content(s.reader.value) == sent && s.reader.value.end == body.end
              && var answer := world.do(s.flow, sent);
              && (t.outcome.Refusing? <==>
                    || world.newRequestFails(s.flow.request.value) || answer.Refused?
                    || (answer.taken.None? && body.end.Broken?)
                    || (|sent| < p.limit && Fails(answer.body, p.limit)))
              && (t.outcome.Relayed? ==>
                    && t.outcome.response.status == answer.status && t.outcome.response.header == answer.header
                    && t.outcome.response.close == answer.close
                    && ReaderBytes(t.outcome.reader) + OwnBytes(t.outcome.response) == Content(answer.body))
  {
    IdleRequest(p, f, body);
    var s := Requested(p, f, body);
    if s.Goes? && !Rejected(world, Sending(s.flow, s.reader)) {
      IdleResponse(p, s.flow, Answer(world, Sending(s.flow, s.reader)), s.events);
    }
  }
}
