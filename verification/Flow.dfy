/**
 * The handler for one non-CONNECT request: the loops over the addons, the choice between buffering and streaming
 * each body, the early exits and the reply. Its stages are those of Exchange, whose properties it takes over.
 */
module Flow {
  import opened Common
  import opened Readers
  import opened Addons
  import opened Replies
  import opened Exchange

  const DEFAULT_LIMIT: Limit := 5 * 1024 * 1024

  const NOTICE: Bytes := [230, 173, 164, 228, 184, 186, 228, 187, 163, 231, 144, 134, 230, 156, 141, 229, 138, 161, 229, 153, 168, 239, 188, 140,
                          228, 184, 141, 232, 131, 189, 231, 155, 180, 230, 142, 165, 229, 143, 145, 232, 181, 183, 232, 175, 183, 230, 177, 130]

  /** The body of a request is read later. */
  function NewFlow(request: Request, shared: int): FlowState {
    FlowState(Some(request.(body := None)), None, false, false, shared)
  }

  /** A stage that ends the exchange has written what belongs to its outcome, any other nothing. */
  ghost predicate Wrote(s: Stage, was: Output, now: Output) {
    if s.Ends? then Written(s.outcome, was, now) else now == was
  }

  predicate IsRecovered(s: Stage) {
    s.Ends? && s.outcome.Recovered?
  }

  class Proxy {
    const addons: seq<Addon>
    const limit: Limit

    /** NewProxy: a limit that is not positive becomes the default. */
    constructor (addons: seq<Addon>, streamLargeBodies: int)
      ensures this.addons == addons
      ensures limit == if streamLargeBodies <= 0 then 5242880 else streamLargeBodies
    {
      this.addons := addons;
      limit := if streamLargeBodies <= 0 then DEFAULT_LIMIT else streamLargeBodies;
    }

    function Config(): Setup {
      Setup(addons, limit)
    }

    /** One loop over the addons for an event without readers. */
    method RunHooks(phase: Phase, f: FlowState, before: seq<Event>) returns (g: FlowState, events: seq<Event>, ran: Ran)
      requires !phase.Streams()
      ensures var l := Ask(Config(), phase, f);
              g == l.flow && ran == l.ran && events == before + Asked(phase, l.asked)
    {
      g, events := f, before;
      for i := 0 to |addons|
        invariant Loop(addons, phase, f, i) == Looped(g, Through, i)
        invariant events == before + Asked(phase, i)
      {
        var hook := Hook(addons[i], phase);
        OneMoreAsked(before, phase, i);
        events := events + [Event(phase, i)];
        var result := hook(g);
        if result.HookPanic? {
          LoopStays(addons, phase, f, i + 1, |addons|);
          return g, events, Crashed;
        }
        g := result.flow;
        ran := Verdict(phase, g);
        if !ran.Through? {
          LoopStays(addons, phase, f, i + 1, |addons|);
          return;
        }
      }
      return g, events, Through;
    }

    /** One loop over the addons that passes a reader through. */
    method Pipe(phase: Phase, f: FlowState, r: Option<Source>, before: seq<Event>)
      returns (g: FlowState, reader: Option<Source>, events: seq<Event>, crashed: bool)
      requires phase.Streams()
      ensures var l := PassOn(Config(), phase, f, r);
              l == Passed(g, reader, crashed, l.asked) && events == before + Asked(phase, l.asked)
    {
      g, reader, events := f, r, before;
      for i := 0 to |addons|
        invariant Pass(addons, phase, f, r, i) == Passed(g, reader, false, i)
        invariant events == before + Asked(phase, i)
      {
        var modifier := Modifier(addons[i], phase);
        OneMoreAsked(before, phase, i);
        events := events + [Event(phase, i)];
        var result := modifier(g, reader);
        if result.PipePanic? {
          PassStays(addons, phase, f, r, i + 1, |addons|);
          return g, reader, events, true;
        }
        g, reader := result.flow, result.reader;
      }
      return g, reader, events, false;
    }

    /** The request headers are shown to the addons, who may answer at once. */
    method Greet(w: ResponseWriter, f: FlowState) returns (s: Stage)
      modifies w
      ensures s == Greeted(Config(), f) && Wrote(s, old(w.Out()), w.Out())
      ensures IsRecovered(s) <==> LoopCrashes(addons, Requestheaders, f)
      ensures s.Ends? && s.outcome.FromAddon? ==> LoopSupplies(addons, Requestheaders, f, s.outcome.response)
    {
      LoopCrashesExactly(addons, Requestheaders, f);
      var g, events, ran := RunHooks(Requestheaders, f, []);
      match ran
      case Through => return Goes(g, None, events);
      case Crashed => return Ends(Recovered, events);
      case Stopped =>
        LoopSuppliesExactly(addons, Requestheaders, f, g.response.value);
        w.Reply(g.response.value, None);
        return Ends(FromAddon(Requestheaders, g.response.value), events);
    }

    /** A buffered request body is announced to the addons, who may change or answer it. */
    method AnnounceRequest(w: ResponseWriter, f: FlowState, buf: Bytes, before: seq<Event>) returns (s: Stage)
      modifies w
      ensures s == Announced(Config(), f, buf, before) && Wrote(s, old(w.Out()), w.Out())
      ensures IsRecovered(s) <==> BufferedCrashes(Config(), f, buf)
      ensures s.Ends? && s.outcome.FromAddon? ==>
                f.request.Some? && LoopSupplies(addons, RequestRead, WithBody(f, buf), s.outcome.response)
      ensures s.Goes? ==> s.flow.request.Some? && Content(s.reader.value) == BodyBytes(s.flow.request.value.body)
    {
      if f.request.None? {
        return Ends(Recovered, before);
      }
      LoopCrashesExactly(addons, RequestRead, WithBody(f, buf));
      var g, events, ran := RunHooks(RequestRead, WithBody(f, buf), before);
      if ran.Stopped? {
        LoopSuppliesExactly(addons, RequestRead, WithBody(f, buf), g.response.value);
        w.Reply(g.response.value, None);
        return Ends(FromAddon(RequestRead, g.response.value), events);
      }
      if ran.Crashed? || g.request.None? {
        return Ends(Recovered, events);
      }
      return Goes(g, Some(FromBytes(BodyBytes(g.request.value.body))), events);
    }

    /** The request body: buffered and announced when it fits, streamed otherwise. */
    method ReadRequestBody(w: ResponseWriter, f: FlowState, body: Source, before: seq<Event>) returns (s: Stage)
      modifies w
      ensures s == BodyRead(Config(), f, body, before) && Wrote(s, old(w.Out()), w.Out())
      ensures s.Ends? && s.outcome.Refusing? <==> !f.stream && Fails(body, limit)
      ensures f.stream || !Fits(body, limit) ==> s.events == before && (s.Goes? ==> s.flow.stream && Yields(s.reader, body))
    {
      if limit <= |Content(body)| {
        RestartedYieldsAll(body, limit);
      }
      if f.stream {
        return Goes(f, Some(body), before);
      }
      var res, _ := ReaderToBuffer(body, limit);
      match res
      case Failed =>
        w.WriteHeader(502);
        return Ends(Refusing(502), before);
      case Stream(r) =>
        return Goes(f.(stream := true), Some(r), before);
      case Whole(buf) =>
        s := AnnounceRequest(w, f, buf, before);
    }

    /** The request half, up to the request itself. */
    method PrepareRequest(w: ResponseWriter, f: FlowState, body: Source) returns (s: Stage)
      modifies w
      ensures s == Requested(Config(), f, body) && Wrote(s, old(w.Out()), w.Out())
      ensures IsRecovered(s) <==> RequestingCrashes(Config(), f, body)
      ensures AllNeutral(addons) && f.response.None? ==>
                if s.Goes? then Yields(s.reader, body) else !s.outcome.FromAddon? && !s.outcome.Relayed?
    {
      RequestedRecovers(Config(), f, body);
      if AllNeutral(addons) && f.response.None? {
        NeutralRequest(Config(), f, body);
      }
      s := Greet(w, f);
      if s.Goes? {
        s := ReadRequestBody(w, s.flow, body, s.events);
      }
      if s.Goes? {
        var g, reader, events, crashed := Pipe(StreamRequest, s.flow, s.reader, s.events);
        if crashed || g.request.None? {
          return Ends(Recovered, events);
        }
        return Goes(g, reader, events);
      }
    }

    /** The request to the upstream server. */
    method Forward(w: ResponseWriter, s: Sending, world: World) returns (upstream: seq<Bytes>, ok: bool)
      requires s.flow.request.Some?
      modifies w
      ensures upstream == Sent(world, s)
      ensures ok <==> !Rejected(world, s)
      ensures w.Out() == if ok then old(w.Out()) else WithStatus(old(w.Out()), 502)
    {
      if world.newRequestFails(s.flow.request.value) {
        w.WriteHeader(502);
        return [], false;
      }
      var answer := Answer(world, s);
      upstream := [Clip(answer.taken, ReaderBytes(s.reader))];
      if answer.Refused? {
        w.WriteHeader(502);
        return upstream, false;
      }
      return upstream, true;
    }

    /** The answer becomes the response, whose headers are shown to the addons; one that sets a body ends the exchange. */
    method ShowAnswer(w: ResponseWriter, f: FlowState, answer: Upstream, before: seq<Event>) returns (s: Stage)
      requires answer.Answered?
      modifies w
      ensures s == Shown(Config(), f, answer, before) && Wrote(s, old(w.Out()), w.Out())
      ensures IsRecovered(s) <==> LoopCrashes(addons, Responseheaders, Arrived(f, answer))
      ensures s.Ends? && s.outcome.FromAddon? ==>
                LoopSupplies(addons, Responseheaders, Arrived(f, answer), s.outcome.response)
    {
      LoopCrashesExactly(addons, Responseheaders, Arrived(f, answer));
      var g, events, ran := RunHooks(Responseheaders, Arrived(f, answer), before);
      match ran
      case Through => return Goes(g, None, events);
      case Crashed => return Ends(Recovered, events);
      case Stopped =>
        LoopSuppliesExactly(addons, Responseheaders, Arrived(f, answer), g.response.value);
        w.Reply(g.response.value, None);
        return Ends(FromAddon(Responseheaders, g.response.value), events);
    }

    /** The response body, in the same way; a buffered body leaves no reader behind. */
    method ReadResponseBody(w: ResponseWriter, f: FlowState, answer: Source, before: seq<Event>) returns (s: Stage)
      requires f.response.Some?
      modifies w
      ensures s == AnswerRead(Config(), f, answer, before) && Wrote(s, old(w.Out()), w.Out())
      ensures s.Ends? && s.outcome.Refusing? <==> !f.stream && Fails(answer, limit)
      ensures IsRecovered(s) <==> !f.stream && Fits(answer, limit) && LoopCrashes(addons, ResponseRead, WithAnswer(f, Content(answer)))
      ensures f.stream || !Fits(answer, limit) ==> s.events == before && (s.Goes? ==> s.flow.stream && Yields(s.reader, answer))
    {
      if limit <= |Content(answer)| {
        RestartedYieldsAll(answer, limit);
      }
      LoopCrashesExactly(addons, ResponseRead, WithAnswer(f, Content(answer)));
      if f.stream {
        return Goes(f, Some(answer), before);
      }
      var res, _ := ReaderToBuffer(answer, limit);
      match res
      case Failed =>
        w.WriteHeader(502);
        return Ends(Refusing(502), before);
      case Stream(r) =>
        return Goes(f.(stream := true), Some(r), before);
      case Whole(buf) =>
        var g, events, ran := RunHooks(ResponseRead, WithAnswer(f, buf), before);
        return if ran.Crashed? then Ends(Recovered, events) else Goes(g, None, events);
    }

    /** From the response headers to the reply. */
    method FinishReply(w: ResponseWriter, f: FlowState, answer: Source, before: seq<Event>) returns (s: Stage)
      requires f.response.Some?
      modifies w
      ensures s == Finished(Config(), f, answer, before) && Wrote(s, old(w.Out()), w.Out())
      ensures s.outcome.Recovered? <==> FinishingCrashes(Config(), f, answer)
    {
      FinishedRecovers(Config(), f, answer, before);
      s := ReadResponseBody(w, f, answer, before);
      if s.Goes? {
        var g, reader, events, crashed := Pipe(StreamResponse, s.flow, s.reader, s.events);
        if crashed || g.response.None? {
          return Ends(Recovered, events);
        }
        w.Reply(g.response.value, reader);
        return Ends(Relayed(g.response.value, reader), events);
      }
    }

    /** The response half. */
    method RelayResponse(w: ResponseWriter, f: FlowState, answer: Upstream, before: seq<Event>) returns (s: Stage)
      requires answer.Answered?
      modifies w
      ensures s == Responded(Config(), f, answer, before) && Wrote(s, old(w.Out()), w.Out())
      ensures s.outcome.Recovered? <==> RespondingCrashes(Config(), f, answer)
    {
      RespondedRecovers(Config(), f, answer, before);
      s := ShowAnswer(w, f, answer, before);
      if s.Goes? {
        s := FinishReply(w, s.flow, answer.body, s.events);
      }
    }

    /** From the new flow to the reply. */
    method RunExchange(w: ResponseWriter, f: FlowState, body: Source, world: World) returns (t: Trace)
      modifies w
      ensures t == Run(Config(), f, body, world)
      ensures Written(t.outcome, old(w.Out()), w.Out())
    {
      var s := PrepareRequest(w, f, body);
      if s.Ends? {
        return Trace(s.outcome, s.events, [], None);
      }
      var sending := Sending(s.flow, s.reader);
      var upstream, ok := Forward(w, sending, world);
      if !ok {
        return Trace(Refusing(502), s.events, upstream, Some(sending));
      }
      s := RelayResponse(w, s.flow, Answer(world, sending), s.events);
      return Trace(s.outcome, s.events, upstream, Some(sending));
    }

    /** The handler. However the exchange ends, also in a recovered panic, the done channel is closed afterwards. */
    method ServeHTTP(w: ResponseWriter, absolute: bool, request: Request, body: Source, shared: int, world: World)
      returns (t: Trace, done: Done?)
      modifies w
      // a flow exists unless the request is turned away, and it is done once
      ensures done != null <==> absolute
      ensures done != null ==> fresh(done) && done.closes == 1
      // what happens, and what is written
      ensures if absolute then t == Run(Config(), NewFlow(request, shared), body, world)
              else t == Trace(Refusing(400), [], [], None)
      ensures if absolute then Written(t.outcome, old(w.Out()), w.Out())
              else w.Out() == WithBytes(WithStatus(old(w.Out()), 400), NOTICE)
      // one status, except exactly when the handler panics, which it does not for safe addons
      ensures |w.statuses| ==
              |old(w.statuses)| + if absolute && Crashes(Config(), NewFlow(request, shared), body, world) then 0 else 1
      ensures t.outcome.Recovered? <==> absolute && Crashes(Config(), NewFlow(request, shared), body, world)
      ensures AllSafe(addons) || (AllNeutral(addons) && AllCalm(addons)) ==> |w.statuses| == |old(w.statuses)| + 1
      ensures EventsInOrder(Config(), t, body)
      ensures SentAtMostOnce(Config(), t, world)
      // with neutral addons the client's body is sent, and the upstream's arrives as far as the client takes it
      ensures AllNeutral(addons) ==> Conserved(t, body, world)
      ensures AllNeutral(addons) ==> Arrives(t, world, old(w.Out()), w.Out())
    {
      if !absolute {
        w.WriteHeader(400);
        w.Write(NOTICE);
        return Trace(Refusing(400), [], [], None), null;
      }
      ghost var was := w.Out();
      done := new Done();
      t := RunExchange(w, NewFlow(request, shared), body, world);
      done.Close();
      RunIsAnswered(Config(), NewFlow(request, shared), body, world, was, w.Out());
      RunIsInOrder(Config(), NewFlow(request, shared), body, world);
      RunSendsAtMostOnce(Config(), NewFlow(request, shared), body, world);
      RunArrives(Config(), NewFlow(request, shared), body, world, was, w.Out());
    }
  }

  lemma RunIsAnswered(p: Setup, f: FlowState, body: Source, world: World, was: Output, now: Output)
    requires f.request.Some? && Written(Run(p, f, body, world).outcome, was, now)
    ensures |now.statuses| == |was.statuses| + if Crashes(p, f, body, world) then 0 else 1
    ensures Run(p, f, body, world).outcome.Recovered? <==> Crashes(p, f, body, world)
    ensures AllSafe(p.addons) || (AllNeutral(p.addons) && AllCalm(p.addons)) ==> !Crashes(p, f, body, world)
  {
    if AllNeutral(p.addons) && AllCalm(p.addons) {
      CalmAndNeutralIsSafe(p.addons);
    }
    OneStatus(Run(p, f, body, world).outcome, was, now);
    RecoveredExactly(p, f, body, world);
    if AllSafe(p.addons) {
      SafeIsAnswered(p, f, body, world);
    }
  }

  lemma RunArrives(p: Setup, f: FlowState, body: Source, world: World, was: Output, now: Output)
    requires f.response.None? && Written(Run(p, f, body, world).outcome, was, now)
    ensures AllNeutral(p.addons) ==> Conserved(Run(p, f, body, world), body, world)
    ensures AllNeutral(p.addons) ==> Arrives(Run(p, f, body, world), world, was, now)
  {
    if AllNeutral(p.addons) {
      NeutralConserves(p, f, body, world);
      if Run(p, f, body, world).outcome.Relayed? {
        ConservedArrives(Run(p, f, body, world), body, world, was, now);
      }
    }
  }

  /** Of the upstream's body a part from its beginning arrives, and all of it if no transfer fails. */
  ghost predicate Arrives(t: Trace, world: World, was: Output, now: Output) {
    t.outcome.Relayed? ==>
      && t.sending.Some? && Answer(world, t.sending.value).Answered?
      && var all := Content(Answer(world, t.sending.value).body);
      && was.body <= now.body && now.body[|was.body|..] <= all
      && ((forall k :: was.takes(k).None?) ==> now.body == was.body + all)
  }

  lemma ConservedArrives(t: Trace, body: Source, world: World, was: Output, now: Output)
    requires Conserved(t, body, world) && Written(t.outcome, was, now) && t.outcome.Relayed?
    ensures Arrives(t, world, was, now)
  {
    PrefixArrives(was, t.outcome.response, t.outcome.reader);
    if forall k :: was.takes(k).None? {
      AllArrives(was, t.outcome.response, t.outcome.reader);
    }
  }
}
