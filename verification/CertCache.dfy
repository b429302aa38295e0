/**
 * GetCert under any number of concurrent callers: the mutex around the cache,
 * the single flight per name, and the generation that happens outside the mutex.
 */
module CertCache {
  import opened Common
  import opened Lru

  const CAPACITY: nat := 100

  /** What a generation returns. */
  datatype Outcome = Issued(cert: Cert) | Failed

  /** Where a caller of GetCert is. */
  datatype Pc =
    | Wants(name: string)                       // before the first Lock
    | Looking(name: string)                     // between that Lock and its Unlock
    | Missed(name: string)                      // before the flight group
    | Waiting(name: string, flight: nat)        // joined a flight of another caller
    | Generating(name: string, flight: nat)     // runs the generation itself
    | Storing(flight: nat, cert: Cert)          // before the second Lock
    | Adding(flight: nat, cert: Cert)           // between that Lock and its Unlock
    | Publishing(flight: nat, outcome: Outcome) // before waking the waiters
    | Leaving(flight: nat, outcome: Outcome)    // before the flight leaves the group
    | Returned(name: string, outcome: Outcome, via: Option<nat>)

  datatype Flight = Flight(name: string, leader: nat, generated: Option<Outcome>, result: Option<Outcome>)

  datatype State = State(
    callers: map<nat, Pc>,
    lock: Option<nat>,         // who holds cacheMu
    cache: seq<Item>,
    flights: seq<Flight>,      // all flights so far
    open: map<string, nat>,    // the flights in the group
    log: seq<Touch>            // the hits and inserts so far
  )

  datatype Step =
    | Arrive(c: nat, name: string)
    | Acquire(c: nat)
    | Lookup(c: nat)               // Get, then Unlock
    | Fly(c: nat)                  // join the flight of the name, or start one
    | Generate(c: nat, ok: bool)
    | Insert(c: nat)               // Add, then Unlock
    | Publish(c: nat)
    | Leave(c: nat)
    | Wake(c: nat)

  const INIT: State := State(map[], None, [], [], map[], [])

  predicate Enabled(s: State, step: Step) {
    match step
    case Arrive(c, _) => c !in s.callers
    case Acquire(c) => c in s.callers && (s.callers[c].Wants? || s.callers[c].Storing?) && s.lock.None?
    case Lookup(c) => c in s.callers && s.callers[c].Looking?
    case Fly(c) => c in s.callers && s.callers[c].Missed?
    case Generate(c, _) => c in s.callers && s.callers[c].Generating? && s.callers[c].flight < |s.flights|
    case Insert(c) => c in s.callers && s.callers[c].Adding? && s.callers[c].flight < |s.flights|
    case Publish(c) => c in s.callers && s.callers[c].Publishing? && s.callers[c].flight < |s.flights|
    case Leave(c) => c in s.callers && s.callers[c].Leaving? && s.callers[c].flight < |s.flights|
    case Wake(c) =>
      && c in s.callers && s.callers[c].Waiting?
      && s.callers[c].flight < |s.flights| && s.flights[s.callers[c].flight].result.Some?
  }

  function Move(s: State, c: nat, pc: Pc): State {
    s.(callers := s.callers[c := pc])
  }

  function Apply(s: State, step: Step): State
    requires Enabled(s, step)
  {
    match step
    case Arrive(c, name) => Move(s, c, Wants(name))
    case Acquire(c) =>
      var pc := s.callers[c];
      Move(s, c, if pc.Wants? then Looking(pc.name) else Adding(pc.flight, pc.cert)).(lock := Some(c))
    case Lookup(c) =>
      var name := s.callers[c].name;
      var p := Find(s.cache, name);
      if p < |s.cache| then
        Move(s, c, Returned(name, Issued(s.cache[p].cert), None))
        .(lock := None, cache := Hit(s.cache, name), log := s.log + [Touch(name, None)])
      else Move(s, c, Missed(name)).(lock := None)
    case Fly(c) =>
      var name := s.callers[c].name;
      if name in s.open then Move(s, c, Waiting(name, s.open[name]))
      else
        var f := |s.flights|;
        Move(s, c, Generating(name, f)).(flights := s.flights + [Flight(name, c, None, None)], open := s.open[name := f])
    case Generate(c, ok) =>
      var pc := s.callers[c];
      var outcome := if ok then Issued(Cert(pc.name, pc.flight)) else Failed;
      Move(s, c, if ok then Storing(pc.flight, outcome.cert) else Publishing(pc.flight, Failed))
      .(flights := s.flights[pc.flight := s.flights[pc.flight].(generated := Some(outcome))])
    case Insert(c) =>
      var pc := s.callers[c];
      var name := s.flights[pc.flight].name;
      Move(s, c, Publishing(pc.flight, Issued(pc.cert)))
      .(lock := None, cache := Add(s.cache, name, pc.cert, CAPACITY), log := s.log + [Touch(name, Some(pc.cert))])
    case Publish(c) =>
      var pc := s.callers[c];
      Move(s, c, Leaving(pc.flight, pc.outcome))
      .(flights := s.flights[pc.flight := s.flights[pc.flight].(result := Some(pc.outcome))])
    case Leave(c) =>
      var pc := s.callers[c];
      var name := s.flights[pc.flight].name;
      Move(s, c, Returned(name, pc.outcome, Some(pc.flight))).(open := s.open - {name})
    case Wake(c) =>
      var pc := s.callers[c];
      Move(s, c, Returned(pc.name, s.flights[pc.flight].result.value, Some(pc.flight)))
  }

  ghost predicate Runs(s: State, steps: seq<Step>, t: State)
    decreases |steps|
  {
    if steps == [] then t == s
    else Enabled(s, steps[0]) && Runs(Apply(s, steps[0]), steps[1..], t)
  }

  // ---- what every step keeps --------------------------------------------

  /** The caller runs the flight: from starting it to taking it out of the group. */
  predicate Leads(pc: Pc, f: nat) {
    match pc
    case Generating(_, g) => g == f
    case Storing(g, _) => g == f
    case Adding(g, _) => g == f
    case Publishing(g, _) => g == f
    case Leaving(g, _) => g == f
    case _ => false
  }

  predicate HoldsLock(pc: Pc) {
    pc.Looking? || pc.Adding?
  }

  predicate InGroup(s: State, c: nat, f: nat) {
    f < |s.flights| && s.flights[f].leader == c && s.flights[f].name in s.open && s.open[s.flights[f].name] == f
  }

  /** A certificate for the name that a flight generated, and not just one that says so. */
  predicate Made(s: State, cert: Cert, name: string) {
    && cert.name == name && cert.serial < |s.flights|
    && s.flights[cert.serial].name == name && s.flights[cert.serial].generated == Some(Issued(cert))
  }

  predicate CallerOk(s: State, c: nat)
    requires c in s.callers
  {
    match s.callers[c]
    case Wants(_) => true
    case Looking(_) => s.lock == Some(c)
    case Missed(_) => true
    case Waiting(name, f) => f < |s.flights| && s.flights[f].name == name
    case Generating(name, f) => InGroup(s, c, f) && s.flights[f] == Flight(name, c, None, None)
    case Storing(f, cert) => InGroup(s, c, f) && s.flights[f] == Flight(cert.name, c, Some(Issued(cert)), None) && cert.serial == f
    case Adding(f, cert) =>
      InGroup(s, c, f) && s.flights[f] == Flight(cert.name, c, Some(Issued(cert)), None) && cert.serial == f && s.lock == Some(c)
    case Publishing(f, o) => InGroup(s, c, f) && s.flights[f].generated == Some(o) && s.flights[f].result.None?
    case Leaving(f, o) => InGroup(s, c, f) && s.flights[f].result == Some(o)
    case Returned(name, o, via) =>
      && (o.Issued? ==> Made(s, o.cert, name))
      && (via.Some? ==> via.value < |s.flights| && s.flights[via.value].name == name && s.flights[via.value].result == Some(o))
  }

  predicate FlightOk(s: State, f: nat)
    requires f < |s.flights|
  {
    var flight := s.flights[f];
    && (flight.generated.Some? ==> flight.generated.value in {Issued(Cert(flight.name, f)), Failed})
    && (flight.result.Some? ==> flight.generated == flight.result)
    && (flight.result.None? ==> Led(s, f))
  }

  /** A caller is at work on the flight. */
  predicate Led(s: State, f: nat)
    requires f < |s.flights|
  {
    s.flights[f].leader in s.callers && Leads(s.callers[s.flights[f].leader], f)
  }

  predicate ItemOk(s: State, i: Item) {
    Made(s, i.cert, i.name)
  }

  predicate OpenOk(s: State, n: string)
    requires n in s.open
  {
    s.open[n] < |s.flights| && s.flights[s.open[n]].name == n && Led(s, s.open[n])
  }

  predicate LockOk(s: State) {
    s.lock.Some? ==> s.lock.value in s.callers && HoldsLock(s.callers[s.lock.value])
  }

  ghost predicate CacheOk(s: State) {
    (forall i :: i in s.cache ==> ItemOk(s, i)) && IsLru(s.cache, s.log, CAPACITY)
  }

  ghost predicate Inv(s: State) {
    && (forall c :: c in s.callers ==> CallerOk(s, c))
    && (forall f :: 0 <= f < |s.flights| ==> FlightOk(s, f))
    && (forall n :: n in s.open ==> OpenOk(s, n))
    && LockOk(s)
    && CacheOk(s)
  }

  // ---- what a step of one caller leaves alone ---------------------------

  predicate FlightKept(a: Flight, b: Flight, c: nat) {
    && b.name == a.name && b.leader == a.leader && (a.leader != c ==> b == a)
    && (a.generated.Some? ==> b.generated == a.generated) && (a.result.Some? ==> b.result == a.result)
  }

  /** From s to t only caller c moved, and touched nothing that belongs to a flight of another leader. */
  ghost predicate OnlyMoved(s: State, t: State, c: nat) {
    && c in t.callers && t.callers == s.callers[c := t.callers[c]]
    && |s.flights| <= |t.flights|
    && (forall f :: 0 <= f < |s.flights| ==> FlightKept(s.flights[f], t.flights[f], c))
    && (forall f :: |s.flights| <= f < |t.flights| ==> t.flights[f].leader == c)
    && (forall n :: n in s.open && s.open[n] < |s.flights| && s.flights[s.open[n]].leader != c ==> n in t.open && t.open[n] == s.open[n])
    && (forall n :: n in t.open ==> (n in s.open && t.open[n] == s.open[n]) || (|s.flights| <= t.open[n] < |t.flights|))
    && (s.lock.Some? && s.lock.value != c ==> t.lock == s.lock)
    && (t.lock.Some? && t.lock.value != c ==> s.lock == t.lock)
  }

  /** What a step has to show about its own caller and flight. */
  ghost predicate OwnOk(t: State, c: nat)
    requires c in t.callers
  {
    && CallerOk(t, c)
    && (forall f :: 0 <= f < |t.flights| && t.flights[f].leader == c ==> FlightOk(t, f))
    && (forall n :: n in t.open && t.open[n] < |t.flights| && t.flights[t.open[n]].leader == c ==> OpenOk(t, n))
    && (t.lock == Some(c) ==> HoldsLock(t.callers[c]))
  }

  lemma OtherCallerOk(s: State, t: State, c: nat, d: nat)
    requires Inv(s) && OnlyMoved(s, t, c) && d in s.callers && d != c
    ensures CallerOk(t, d)
  {
    assert CallerOk(s, d);
  }

  lemma OtherFlightOk(s: State, t: State, c: nat, f: nat)
    requires Inv(s) && OnlyMoved(s, t, c) && f < |t.flights| && t.flights[f].leader != c
    ensures FlightOk(t, f)
  {
    assert FlightKept(s.flights[f], t.flights[f], c);
    assert FlightOk(s, f);
  }

  lemma OtherOpenOk(s: State, t: State, c: nat, n: string)
    requires Inv(s) && OnlyMoved(s, t, c) && n in t.open && t.open[n] < |t.flights| && t.flights[t.open[n]].leader != c
    ensures OpenOk(t, n)
  {
    assert n in s.open && t.open[n] == s.open[n];
    assert OpenOk(s, n);
    assert FlightKept(s.flights[s.open[n]], t.flights[s.open[n]], c);
  }

  lemma MoveKeepsInv(s: State, t: State, c: nat)
    requires Inv(s) && OnlyMoved(s, t, c) && OwnOk(t, c) && CacheOk(t)
    ensures Inv(t)
  {
    forall d | d in t.callers ensures CallerOk(t, d) {
      if d != c { OtherCallerOk(s, t, c, d); }
    }
    forall f | 0 <= f < |t.flights| ensures FlightOk(t, f) {
      if t.flights[f].leader != c { OtherFlightOk(s, t, c, f); }
    }
    forall n | n in t.open ensures OpenOk(t, n) {
      if n in s.open && t.open[n] == s.open[n] { assert OpenOk(s, n); }
      if t.flights[t.open[n]].leader != c { OtherOpenOk(s, t, c, n); }
    }
  }

  /** The cache and its history are untouched. */
  lemma SameCacheOk(s: State, t: State, c: nat)
    requires CacheOk(s) && OnlyMoved(s, t, c) && t.cache == s.cache && t.log == s.log
    ensures CacheOk(t)
  {
    forall i | i in t.cache ensures ItemOk(t, i) {
      assert ItemOk(s, i);
      assert FlightKept(s.flights[i.cert.serial], t.flights[i.cert.serial], c);
    }
  }

  // ---- the steps one by one ---------------------------------------------

  /** Steps that change neither the cache nor the flights. */
  lemma QuietStepKeepsInv(s: State, step: Step, c: nat)
    requires Inv(s) && Enabled(s, step)
    requires (step.Arrive? && step.c == c) || step == Acquire(c) || step == Wake(c)
    ensures Inv(Apply(s, step))
  {
    var t := Apply(s, step);
    if c in s.callers { assert CallerOk(s, c); }
    if step.Wake? { assert FlightOk(s, s.callers[c].flight); }
    assert OnlyMoved(s, t, c);
    SameCacheOk(s, t, c);
    forall f | 0 <= f < |t.flights| && t.flights[f].leader == c ensures FlightOk(t, f) { assert FlightOk(s, f); }
    forall n | n in t.open && t.open[n] < |t.flights| && t.flights[t.open[n]].leader == c ensures OpenOk(t, n) { assert OpenOk(s, n); }
    MoveKeepsInv(s, t, c);
  }

  lemma HitKeepsCache(s: State, c: nat)
    requires Inv(s) && Enabled(s, Lookup(c))
    ensures CacheOk(Apply(s, Lookup(c)))
    ensures var p := Find(s.cache, s.callers[c].name); p < |s.cache| ==> ItemOk(s, s.cache[p])
  {
    var t := Apply(s, Lookup(c));
    var name := s.callers[c].name;
    if Find(s.cache, name) < |s.cache| {
      HitKeepsLru(s.cache, s.log, CAPACITY, name);
    }
    forall i | i in t.cache ensures ItemOk(t, i) { assert i in s.cache; assert ItemOk(s, i); }
  }

  lemma LookupKeepsInv(s: State, c: nat)
    requires Inv(s) && Enabled(s, Lookup(c))
    ensures Inv(Apply(s, Lookup(c)))
  {
    var t := Apply(s, Lookup(c));
    assert CallerOk(s, c);
    HitKeepsCache(s, c);
    assert OnlyMoved(s, t, c);
    forall f | 0 <= f < |t.flights| && t.flights[f].leader == c ensures FlightOk(t, f) { assert FlightOk(s, f); }
    forall n | n in s.open ensures s.open[n] < |s.flights| && s.flights[s.open[n]].leader != c { assert OpenOk(s, n); }
    MoveKeepsInv(s, t, c);
  }

  lemma JoinKeepsInv(s: State, c: nat)
    requires Inv(s) && Enabled(s, Fly(c)) && s.callers[c].name in s.open
    ensures Inv(Apply(s, Fly(c)))
  {
    var t := Apply(s, Fly(c));
    assert CallerOk(s, c) && OpenOk(s, s.callers[c].name);
    SameCacheOk(s, t, c);
    forall f | 0 <= f < |t.flights| && t.flights[f].leader == c ensures FlightOk(t, f) { assert FlightOk(s, f); }
    forall n | n in s.open ensures s.open[n] < |s.flights| && s.flights[s.open[n]].leader != c { assert OpenOk(s, n); }
    MoveKeepsInv(s, t, c);
  }

  lemma StartKeepsInv(s: State, c: nat)
    requires Inv(s) && Enabled(s, Fly(c)) && s.callers[c].name !in s.open
    ensures Inv(Apply(s, Fly(c)))
  {
    var t := Apply(s, Fly(c));
    assert CallerOk(s, c);
    assert OnlyMoved(s, t, c);
    SameCacheOk(s, t, c);
    forall f | 0 <= f < |t.flights| && t.flights[f].leader == c ensures FlightOk(t, f) {
      if f < |s.flights| { assert FlightOk(s, f); }
    }
    forall n | n in s.open ensures s.open[n] < |s.flights| && s.flights[s.open[n]].leader != c { assert OpenOk(s, n); }
    MoveKeepsInv(s, t, c);
  }

  lemma GenerateKeepsInv(s: State, c: nat, ok: bool)
    requires Inv(s) && Enabled(s, Generate(c, ok))
    ensures Inv(Apply(s, Generate(c, ok)))
  {
    var t := Apply(s, Generate(c, ok));
    assert CallerOk(s, c);
    assert OnlyMoved(s, t, c);
    SameCacheOk(s, t, c);
    forall f | 0 <= f < |t.flights| && t.flights[f].leader == c ensures FlightOk(t, f) { assert FlightOk(s, f); }
    forall n | n in t.open && t.open[n] < |t.flights| && t.flights[t.open[n]].leader == c ensures OpenOk(t, n) { assert OpenOk(s, n); }
    MoveKeepsInv(s, t, c);
  }

  lemma InsertKeepsCache(s: State, c: nat)
    requires Inv(s) && Enabled(s, Insert(c))
    ensures CacheOk(Apply(s, Insert(c)))
  {
    var t := Apply(s, Insert(c));
    var pc := s.callers[c];
    var name := s.flights[pc.flight].name;
    assert CallerOk(s, c);
    AddKeepsLru(s.cache, s.log, CAPACITY, name, pc.cert);
    forall i | i in t.cache ensures ItemOk(t, i) {
      if i != Item(name, pc.cert) { assert i in s.cache; assert ItemOk(s, i); }
    }
  }

  lemma InsertKeepsInv(s: State, c: nat)
    requires Inv(s) && Enabled(s, Insert(c))
    ensures Inv(Apply(s, Insert(c)))
  {
    var t := Apply(s, Insert(c));
    assert CallerOk(s, c);
    assert OnlyMoved(s, t, c);
    InsertKeepsCache(s, c);
    forall f | 0 <= f < |t.flights| && t.flights[f].leader == c ensures FlightOk(t, f) { assert FlightOk(s, f); }
    forall n | n in t.open && t.open[n] < |t.flights| && t.flights[t.open[n]].leader == c ensures OpenOk(t, n) { assert OpenOk(s, n); }
    MoveKeepsInv(s, t, c);
  }

  lemma PublishKeepsInv(s: State, c: nat)
    requires Inv(s) && Enabled(s, Publish(c))
    ensures Inv(Apply(s, Publish(c)))
  {
    var t := Apply(s, Publish(c));
    assert CallerOk(s, c);
    assert OnlyMoved(s, t, c);
    SameCacheOk(s, t, c);
    forall f | 0 <= f < |t.flights| && t.flights[f].leader == c ensures FlightOk(t, f) { assert FlightOk(s, f); }
    forall n | n in t.open && t.open[n] < |t.flights| && t.flights[t.open[n]].leader == c ensures OpenOk(t, n) { assert OpenOk(s, n); }
    MoveKeepsInv(s, t, c);
  }

  lemma LeaveKeepsInv(s: State, c: nat)
    requires Inv(s) && Enabled(s, Leave(c))
    ensures Inv(Apply(s, Leave(c)))
  {
    var t := Apply(s, Leave(c));
    assert CallerOk(s, c) && FlightOk(s, s.callers[c].flight);
    forall n | n in s.open && s.open[n] < |s.flights| && s.flights[s.open[n]].leader != c
      ensures n in t.open && t.open[n] == s.open[n]
    {
      assert OpenOk(s, n);
    }
    assert OnlyMoved(s, t, c);
    SameCacheOk(s, t, c);
    forall f | 0 <= f < |t.flights| && t.flights[f].leader == c ensures FlightOk(t, f) { assert FlightOk(s, f); }
    forall n | n in t.open ensures t.open[n] < |t.flights| && t.flights[t.open[n]].leader != c { assert OpenOk(s, n); }
    MoveKeepsInv(s, t, c);
  }

  lemma StepKeepsInv(s: State, step: Step)
    requires Inv(s) && Enabled(s, step)
    ensures Inv(Apply(s, step))
  {
    match step
    case Arrive(c, _) => QuietStepKeepsInv(s, step, c);
    case Acquire(c) => QuietStepKeepsInv(s, step, c);
    case Lookup(c) => LookupKeepsInv(s, c);
    case Fly(c) => if s.callers[c].name in s.open { JoinKeepsInv(s, c); } else { StartKeepsInv(s, c); }
    case Generate(c, ok) => GenerateKeepsInv(s, c, ok);
    case Insert(c) => InsertKeepsInv(s, c);
    case Publish(c) => PublishKeepsInv(s, c);
    case Leave(c) => LeaveKeepsInv(s, c);
    case Wake(c) => QuietStepKeepsInv(s, step, c);
  }

  lemma {:induction false} RunKeepsInv(s: State, steps: seq<Step>, t: State)
    requires Inv(s) && Runs(s, steps, t)
    ensures Inv(t)
    decreases |steps|
  {
    if steps != [] {
      StepKeepsInv(s, steps[0]);
      RunKeepsInv(Apply(s, steps[0]), steps[1..], t);
    }
  }

  lemma Reachable(steps: seq<Step>, t: State)
    requires Runs(INIT, steps, t)
    ensures Inv(t)
  {
    assert Inv(INIT);
    RunKeepsInv(INIT, steps, t);
  }

  // ---- main results -----------------------------------------------------

  /** Whatever is cached or returned was generated, successfully, for the name asked for. */
  lemma CertsMatchNames(steps: seq<Step>, t: State)
    requires Runs(INIT, steps, t)
    ensures forall i :: i in t.cache ==> Made(t, i.cert, i.name)
    ensures forall c :: c in t.callers && t.callers[c].Returned? && t.callers[c].outcome.Issued? ==>
              Made(t, t.callers[c].outcome.cert, t.callers[c].name)
  {
    Reachable(steps, t);
    forall i | i in t.cache ensures Made(t, i.cert, i.name) {
      assert ItemOk(t, i);
    }
    forall c | c in t.callers && t.callers[c].Returned? && t.callers[c].outcome.Issued?
      ensures Made(t, t.callers[c].outcome.cert, t.callers[c].name)
    {
      assert CallerOk(t, c);
    }
  }

  /** At most one caller at a time is generating for a name. */
  lemma OneGenerationPerName(steps: seq<Step>, t: State, c: nat, d: nat)
    requires Runs(INIT, steps, t)
    requires c in t.callers && d in t.callers && t.callers[c].Generating? && t.callers[d].Generating?
    requires t.callers[c].name == t.callers[d].name
    ensures c == d
  {
    Reachable(steps, t);
    assert CallerOk(t, c) && CallerOk(t, d);
  }

  /** Everybody who returned through a flight got what it published, be it a certificate or the error. */
  lemma OneOutcomePerFlight(steps: seq<Step>, t: State, c: nat, d: nat)
    requires Runs(INIT, steps, t)
    requires c in t.callers && d in t.callers && t.callers[c].Returned? && t.callers[d].Returned?
    requires t.callers[c].via.Some? && t.callers[c].via == t.callers[d].via
    ensures t.callers[c].outcome == t.callers[d].outcome && t.callers[c].name == t.callers[d].name
  {
    Reachable(steps, t);
    assert CallerOk(t, c) && CallerOk(t, d);
  }

  /** The mutex is held only around the two cache accesses, never while generating or waiting. */
  lemma LockIsShort(steps: seq<Step>, t: State, c: nat)
    requires Runs(INIT, steps, t) && c in t.callers
    ensures t.lock == Some(c) <==> HoldsLock(t.callers[c])
  {
    Reachable(steps, t);
    assert CallerOk(t, c);
  }

  /** Nobody is ever stuck: as long as a caller has not returned, some caller can take a step. */
  lemma NoDeadlock(steps: seq<Step>, t: State, c: nat)
    requires Runs(INIT, steps, t) && c in t.callers && !t.callers[c].Returned?
    ensures exists step: Step :: !step.Arrive? && Enabled(t, step)
  {
    Reachable(steps, t);
    assert CallerOk(t, c);
    if t.lock.Some? {
      SomebodyMoves(t, t.lock.value);
    } else if t.callers[c].Waiting? && t.flights[t.callers[c].flight].result.None? {
      var leader := t.flights[t.callers[c].flight].leader;
      assert FlightOk(t, t.callers[c].flight);
      SomebodyMoves(t, leader);
    } else {
      SomebodyMoves(t, c);
    }
  }

  /** A caller that is neither blocked on the mutex nor on a flight can move. */
  lemma SomebodyMoves(s: State, c: nat)
    requires Inv(s) && c in s.callers && !s.callers[c].Returned?
    requires s.lock.None? || HoldsLock(s.callers[c])
    requires s.callers[c].Waiting? ==> s.flights[s.callers[c].flight].result.Some?
    ensures exists step: Step :: !step.Arrive? && Enabled(s, step)
  {
    assert CallerOk(s, c);
    var step: Step :=
      match s.callers[c]
      case Wants(_) => Acquire(c)
      case Looking(_) => Lookup(c)
      case Missed(_) => Fly(c)
      case Waiting(_, _) => Wake(c)
      case Generating(_, _) => Generate(c, true)
      case Storing(_, _) => Acquire(c)
      case Adding(_, _) => Insert(c)
      case Publishing(_, _) => Publish(c)
      case _ => Leave(c);
    assert Enabled(s, step);
  }

  /** The cache holds exactly the most recently touched names, as many as fit, each with its latest certificate. */
  lemma CacheIsLru(steps: seq<Step>, t: State)
    requires Runs(INIT, steps, t)
    ensures IsLru(t.cache, t.log, 100)
    ensures |t.cache| == |Names(t.cache)| == if |Touched(t.log)| < 100 then |Touched(t.log)| else 100
  {
    Reachable(steps, t);
    LruSize(t.cache, t.log, CAPACITY);
  }

  // ---- what each caller gets, and why -----------------------------------

  /** A cached name is answered from the cache with the certificate inserted last, and touched; any other one is missed. */
  lemma HitsAreAnswered(steps: seq<Step>, t: State, c: nat, name: string)
    requires Runs(INIT, steps, t) && c in t.callers && t.callers[c] == Looking(name)
    ensures Enabled(t, Lookup(c))
    ensures var u := Apply(t, Lookup(c));
            && u.lock.None? && u.flights == t.flights && u.open == t.open
            && if name in Names(t.cache) then
                 && Latest(t.log, name).Some?
                 && u.callers == t.callers[c := Returned(name, Issued(Latest(t.log, name).value), None)]
                 && u.log == t.log + [Touch(name, None)]
               else
                 u.callers == t.callers[c := Missed(name)] && u.log == t.log && u.cache == t.cache
  {
    Reachable(steps, t);
    var p := Find(t.cache, name);
    if p < |t.cache| {
      assert t.cache[p].name in Names(t.cache);
      assert Kept(t.cache, n => Last(t.log, n), n => Latest(t.log, n));
    }
  }

  /** Somebody is at work on a flight for the name. */
  ghost predicate InFlight(s: State, name: string) {
    exists f: nat :: f < |s.flights| && s.flights[f].name == name && Led(s, f)
  }

  /** A caller that missed joins the flight for its name if there is one, and otherwise starts one. */
  lemma FlightsAreShared(steps: seq<Step>, t: State, c: nat, name: string)
    requires Runs(INIT, steps, t) && c in t.callers && t.callers[c] == Missed(name)
    ensures var u := Apply(t, Fly(c));
            && (name in t.open <==> InFlight(t, name))
            && if InFlight(t, name) then
                 && u.flights == t.flights && u.callers == t.callers[c := Waiting(name, t.open[name])]
                 && t.open[name] < |t.flights| && t.flights[t.open[name]].name == name && Led(t, t.open[name])
               else
                 && u.flights == t.flights + [Flight(name, c, None, None)]
                 && u.callers == t.callers[c := Generating(name, |t.flights|)]
  {
    Reachable(steps, t);
    if name in t.open {
      assert OpenOk(t, name);
    }
    if InFlight(t, name) {
      var f: nat :| f < |t.flights| && t.flights[f].name == name && Led(t, f);
      assert CallerOk(t, t.flights[f].leader);
    }
  }

  /** The name a caller came for. */
  function NameOf(s: State, pc: Pc): string {
    match pc
    case Wants(n) => n
    case Looking(n) => n
    case Missed(n) => n
    case Waiting(n, _) => n
    case Generating(n, _) => n
    case Returned(n, _, _) => n
    case Storing(f, _) => FlightName(s, f)
    case Adding(f, _) => FlightName(s, f)
    case Publishing(f, _) => FlightName(s, f)
    case Leaving(f, _) => FlightName(s, f)
  }

  function FlightName(s: State, f: nat): string {
    if f < |s.flights| then s.flights[f].name else ""
  }

  /** Each caller arrived once, and goes on with the name it arrived with. */
  ghost predicate NamesLedger(past: seq<Step>, s: State) {
    forall c, n :: Arrive(c, n) in past <==> c in s.callers && n == NameOf(s, s.callers[c])
  }

  /** A leader works on its flight or has returned through it, so it leads no other one. */
  ghost predicate LeadersLedger(s: State) {
    forall f: nat :: f < |s.flights| ==>
      s.flights[f].leader in s.callers
      && (Leads(s.callers[s.flights[f].leader], f) || Via(s.callers[s.flights[f].leader]) == Some(f))
  }

  function Via(pc: Pc): Option<nat> {
    if pc.Returned? then pc.via else None
  }

  /** The caller has generated. */
  predicate Generated(pc: Pc) {
    pc.Storing? || pc.Adding? || pc.Publishing? || pc.Leaving? || Via(pc).Some?
  }

  /** What was generated for a flight is what its leader's generation came to. */
  predicate GenerationLedger(past: seq<Step>, s: State, f: nat)
    requires f < |s.flights|
  {
    var c := s.flights[f].leader;
    match s.flights[f].generated
    case None => Generate(c, true) !in past && Generate(c, false) !in past
    case Some(o) => (o.Issued? <==> Generate(c, true) in past) && (o.Failed? <==> Generate(c, false) in past)
  }

  ghost predicate GenerationsLedger(past: seq<Step>, s: State) {
    && (forall f: nat :: f < |s.flights| ==> GenerationLedger(past, s, f))
    && (forall c, ok :: Generate(c, ok) in past ==> c in s.callers && Generated(s.callers[c]))
  }

  /** The leader is between the generation and the insert. */
  predicate AboutToInsert(s: State, f: nat)
    requires f < |s.flights|
  {
    var c := s.flights[f].leader;
    c in s.callers && Leads(s.callers[c], f) && (s.callers[c].Storing? || s.callers[c].Adding?)
  }

  /** What was generated successfully is inserted, at the latest before the others see it. */
  predicate Inserted(s: State, f: nat)
    requires f < |s.flights|
  {
    s.flights[f].generated == Some(Issued(Cert(s.flights[f].name, f))) ==>
      Touch(s.flights[f].name, Some(Cert(s.flights[f].name, f))) in s.log || AboutToInsert(s, f)
  }

  predicate HitLogged(s: State, pc: Pc) {
    pc.Returned? && pc.via.None? ==> pc.outcome.Issued? && Touch(pc.name, None) in s.log
  }

  ghost predicate InsertsLedger(s: State) {
    && (forall f: nat :: f < |s.flights| ==> Inserted(s, f))
    && (forall touch :: touch in s.log && touch.inserted.Some? ==> Made(s, touch.inserted.value, touch.name))
    && (forall c :: c in s.callers ==> HitLogged(s, s.callers[c]))
  }

  ghost predicate Ledger(past: seq<Step>, s: State) {
    NamesLedger(past, s) && LeadersLedger(s) && GenerationsLedger(past, s) && InsertsLedger(s)
  }

  // ---- what a step changes in the ledger --------------------------------

  /** Steps of a caller that leads no flight. */
  predicate Early(s: State, step: Step)
    requires Enabled(s, step)
  {
    step.Arrive? || step.Lookup? || step.Fly? || step.Wake? || (step.Acquire? && s.callers[step.c].Wants?)
  }

  lemma EarlyOnlyMoves(s: State, step: Step)
    requires Inv(s) && Enabled(s, step) && Early(s, step) && !step.Fly?
    ensures OnlyMoved(s, Apply(s, step), step.c)
  {
    if step.Lookup? { assert CallerOk(s, step.c); }
  }

  lemma FlyOnlyMoves(s: State, c: nat)
    requires Inv(s) && Enabled(s, Fly(c))
    ensures OnlyMoved(s, Apply(s, Fly(c)), c)
  {
    forall n | n in s.open ensures s.open[n] < |s.flights| { assert OpenOk(s, n); }
  }

  lemma LaterOnlyMoves(s: State, step: Step)
    requires step.c in s.callers && CallerOk(s, step.c) && (forall n :: n in s.open ==> OpenOk(s, n)) && Enabled(s, step) && !Early(s, step)
    ensures OnlyMoved(s, Apply(s, step), step.c)
  {
    if step.Leave? {
      var t := Apply(s, step);
      forall n | n in s.open && s.open[n] < |s.flights| && s.flights[s.open[n]].leader != step.c
        ensures n in t.open && t.open[n] == s.open[n]
      {
        assert OpenOk(s, n);
      }
    }
  }

  lemma StepOnlyMoves(s: State, step: Step)
    requires Inv(s) && Enabled(s, step)
    ensures OnlyMoved(s, Apply(s, step), step.c)
  {
    if step.Fly? {
      FlyOnlyMoves(s, step.c);
    } else if Early(s, step) {
      EarlyOnlyMoves(s, step);
    } else {
      assert CallerOk(s, step.c);
      LaterOnlyMoves(s, step);
    }
  }

  lemma EarlyNameStays(s: State, step: Step)
    requires Enabled(s, step) && Early(s, step)
    ensures var t := Apply(s, step);
            NameOf(t, t.callers[step.c]) == if step.Arrive? then step.name else NameOf(s, s.callers[step.c])
  {
  }

  lemma LaterNameStays(s: State, step: Step)
    requires step.c in s.callers && CallerOk(s, step.c) && Enabled(s, step) && !Early(s, step)
    ensures var t := Apply(s, step); NameOf(t, t.callers[step.c]) == NameOf(s, s.callers[step.c])
  {
    var f := FlightOf(s.callers[step.c]);
    assert Leads(s.callers[step.c], f);
    FlightNameStays(s, step, f);
  }

  lemma FlightNameStays(s: State, step: Step, f: nat)
    requires Enabled(s, step) && f < |s.flights|
    ensures f < |Apply(s, step).flights| && Apply(s, step).flights[f].name == s.flights[f].name
  {
  }

  function FlightOf(pc: Pc): nat {
    match pc
    case Generating(_, f) => f
    case Storing(f, _) => f
    case Adding(f, _) => f
    case Publishing(f, _) => f
    case Leaving(f, _) => f
    case _ => 0
  }

  lemma OwnNameStays(s: State, step: Step)
    requires Inv(s) && Enabled(s, step)
    ensures var t := Apply(s, step);
            NameOf(t, t.callers[step.c]) == if step.Arrive? then step.name else NameOf(s, s.callers[step.c])
  {
    if step.c in s.callers { assert CallerOk(s, step.c); }
    if Early(s, step) {
      EarlyNameStays(s, step);
    } else {
      LaterNameStays(s, step);
    }
  }

  lemma OtherNameStays(s: State, t: State, c: nat, d: nat)
    requires Inv(s) && OnlyMoved(s, t, c) && d in s.callers && d != c
    ensures NameOf(t, t.callers[d]) == NameOf(s, s.callers[d])
  {
    assert CallerOk(s, d);
    forall f: nat | f < |s.flights| ensures t.flights[f].name == s.flights[f].name { assert FlightKept(s.flights[f], t.flights[f], c); }
  }

  lemma StepKeepsNames(past: seq<Step>, s: State, step: Step)
    requires Inv(s) && NamesLedger(past, s) && Enabled(s, step)
    ensures NamesLedger(past + [step], Apply(s, step))
  {
    var t := Apply(s, step);
    StepOnlyMoves(s, step);
    OwnNameStays(s, step);
    forall c, n ensures Arrive(c, n) in past + [step] <==> c in t.callers && n == NameOf(t, t.callers[c]) {
      if c != step.c && c in s.callers { OtherNameStays(s, t, step.c, c); }
    }
  }

  /** A caller that leads no flight yet, or has done so, starts none or goes on with its own. */
  lemma OwnLeadStays(s: State, step: Step, f: nat)
    requires Enabled(s, step) && step.c in s.callers
    requires Leads(s.callers[step.c], f) || Via(s.callers[step.c]) == Some(f)
    ensures var pc := Apply(s, step).callers[step.c]; Leads(pc, f) || Via(pc) == Some(f)
  {
  }

  lemma StepKeepsLeaders(s: State, step: Step)
    requires Inv(s) && LeadersLedger(s) && Enabled(s, step)
    ensures LeadersLedger(Apply(s, step))
  {
    var t := Apply(s, step);
    StepOnlyMoves(s, step);
    forall f: nat | f < |t.flights|
      ensures t.flights[f].leader in t.callers
              && (Leads(t.callers[t.flights[f].leader], f) || Via(t.callers[t.flights[f].leader]) == Some(f))
    {
      if f < |s.flights| {
        assert FlightKept(s.flights[f], t.flights[f], step.c);
        if s.flights[f].leader == step.c { OwnLeadStays(s, step, f); }
      }
    }
  }

  lemma GenerationIsKept(past: seq<Step>, s: State, c: nat, ok: bool, f: nat)
    requires c in s.callers && CallerOk(s, c) && LeadersLedger(s) && GenerationsLedger(past, s) && Enabled(s, Generate(c, ok))
    requires f < |s.flights| && s.flights[f].leader == c
    ensures GenerationLedger(past + [Generate(c, ok)], Apply(s, Generate(c, ok)), f)
  {
    assert GenerationLedger(past, s, f);
  }

  lemma OwnGenerationKept(past: seq<Step>, s: State, step: Step, f: nat)
    requires Inv(s) && LeadersLedger(s) && GenerationsLedger(past, s) && Enabled(s, step)
    requires f < |Apply(s, step).flights| && Apply(s, step).flights[f].leader == step.c
    ensures GenerationLedger(past + [step], Apply(s, step), f)
  {
    if step.Generate? {
      assert CallerOk(s, step.c);
      GenerationIsKept(past, s, step.c, step.ok, f);
    } else if f < |s.flights| {
      GeneratedFieldStays(s, step, f);
      assert GenerationLedger(past, s, f);
    }
  }

  lemma GeneratedFieldStays(s: State, step: Step, f: nat)
    requires Enabled(s, step) && !step.Generate? && f < |s.flights|
    ensures var t := Apply(s, step);
            f < |t.flights| && t.flights[f].generated == s.flights[f].generated && t.flights[f].leader == s.flights[f].leader
            && t.flights[f].name == s.flights[f].name
  {
  }

  lemma OtherGenerationKept(past: seq<Step>, s: State, t: State, step: Step, f: nat)
    requires OnlyMoved(s, t, step.c) && f < |s.flights| && s.flights[f].leader != step.c && GenerationLedger(past, s, f)
    ensures GenerationLedger(past + [step], t, f)
  {
    assert FlightKept(s.flights[f], t.flights[f], step.c);
  }

  lemma StepKeepsGenerations(past: seq<Step>, s: State, step: Step)
    requires Inv(s) && LeadersLedger(s) && GenerationsLedger(past, s) && Enabled(s, step)
    ensures GenerationsLedger(past + [step], Apply(s, step))
  {
    var t := Apply(s, step);
    StepOnlyMoves(s, step);
    forall f: nat | f < |t.flights| ensures GenerationLedger(past + [step], t, f) {
      if t.flights[f].leader == step.c {
        OwnGenerationKept(past, s, step, f);
      } else {
        assert f < |s.flights| && FlightKept(s.flights[f], t.flights[f], step.c);
        OtherGenerationKept(past, s, t, step, f);
      }
    }
    GeneratedStays(s, step);
  }

  lemma GeneratedStays(s: State, step: Step)
    requires Enabled(s, step)
    ensures var t := Apply(s, step);
            && step.c in t.callers && (forall d :: d in s.callers && d != step.c ==> d in t.callers && t.callers[d] == s.callers[d])
            && (step.Generate? || (step.c in s.callers && Generated(s.callers[step.c])) ==> Generated(t.callers[step.c]))
  {
  }

  lemma LogOnlyGrows(s: State, step: Step)
    requires Enabled(s, step)
    ensures var t := Apply(s, step);
            && s.log <= t.log
            && (!step.Lookup? && !step.Insert? ==> t.log == s.log)
  {
  }

  lemma GenerateIsToBeInserted(s: State, c: nat, ok: bool, f: nat)
    requires c in s.callers && CallerOk(s, c) && LeadersLedger(s) && Enabled(s, Generate(c, ok)) && f < |s.flights| && s.flights[f].leader == c
    ensures Inserted(Apply(s, Generate(c, ok)), f)
  {
  }

  lemma InsertInserts(s: State, c: nat, f: nat)
    requires c in s.callers && CallerOk(s, c) && LeadersLedger(s) && Enabled(s, Insert(c)) && f < |s.flights| && s.flights[f].leader == c
    ensures Inserted(Apply(s, Insert(c)), f)
  {
  }

  lemma OwnInserted(s: State, step: Step, f: nat)
    requires Inv(s) && LeadersLedger(s) && InsertsLedger(s) && Enabled(s, step)
    requires f < |Apply(s, step).flights| && Apply(s, step).flights[f].leader == step.c
    ensures Inserted(Apply(s, step), f)
  {
    if step.c in s.callers { assert CallerOk(s, step.c); }
    if step.Generate? {
      GenerateIsToBeInserted(s, step.c, step.ok, f);
    } else if step.Insert? {
      InsertInserts(s, step.c, f);
    } else if f < |s.flights| {
      LogOnlyGrows(s, step);
      GeneratedFieldStays(s, step, f);
      assert Inserted(s, f);
    }
  }

  lemma OtherInserted(s: State, t: State, c: nat, f: nat)
    requires OnlyMoved(s, t, c) && s.log <= t.log && f < |s.flights| && s.flights[f].leader != c && Inserted(s, f)
    ensures Inserted(t, f)
  {
    assert FlightKept(s.flights[f], t.flights[f], c);
  }

  lemma TouchesAreMade(s: State, step: Step)
    requires Inv(s) && InsertsLedger(s) && Enabled(s, step)
    ensures var t := Apply(s, step);
            forall touch :: touch in t.log && touch.inserted.Some? ==> Made(t, touch.inserted.value, touch.name)
  {
    var t := Apply(s, step);
    StepOnlyMoves(s, step);
    LogOnlyGrows(s, step);
    if step.c in s.callers { assert CallerOk(s, step.c); }
    forall touch | touch in t.log && touch.inserted.Some? ensures Made(t, touch.inserted.value, touch.name) {
      if touch in s.log {
        var f := touch.inserted.value.serial;
        assert FlightKept(s.flights[f], t.flights[f], step.c);
      }
    }
  }

  lemma OwnHitLogged(s: State, step: Step)
    requires InsertsLedger(s) && Enabled(s, step)
    ensures HitLogged(Apply(s, step), Apply(s, step).callers[step.c])
  {
  }

  lemma StepKeepsInserts(s: State, step: Step)
    requires Inv(s) && LeadersLedger(s) && InsertsLedger(s) && Enabled(s, step)
    ensures InsertsLedger(Apply(s, step))
  {
    var t := Apply(s, step);
    StepOnlyMoves(s, step);
    LogOnlyGrows(s, step);
    TouchesAreMade(s, step);
    OwnHitLogged(s, step);
    forall f: nat | f < |t.flights| ensures Inserted(t, f) {
      if t.flights[f].leader == step.c {
        OwnInserted(s, step, f);
      } else {
        assert f < |s.flights| && FlightKept(s.flights[f], t.flights[f], step.c);
        OtherInserted(s, t, step.c, f);
      }
    }
  }

  lemma StepKeepsLedger(past: seq<Step>, s: State, step: Step)
    requires Inv(s) && Ledger(past, s) && Enabled(s, step)
    ensures Ledger(past + [step], Apply(s, step))
  {
    StepKeepsNames(past, s, step);
    StepKeepsLeaders(s, step);
    StepKeepsGenerations(past, s, step);
    StepKeepsInserts(s, step);
  }

  lemma {:induction false} RunKeepsLedger(past: seq<Step>, s: State, steps: seq<Step>, t: State)
    requires Inv(s) && Ledger(past, s) && Runs(s, steps, t)
    ensures Ledger(past + steps, t)
    decreases |steps|
  {
    if steps == [] {
      assert past + steps == past;
    } else {
      var step, rest := steps[0], steps[1..];
      assert past + steps == (past + [step]) + rest;
      assert Inv(Apply(s, step)) by { StepKeepsInv(s, step); }
      assert Ledger(past + [step], Apply(s, step)) by { StepKeepsLedger(past, s, step); }
      RunKeepsLedger(past + [step], Apply(s, step), rest, t);
    }
  }

  lemma Recorded(steps: seq<Step>, t: State)
    requires Runs(INIT, steps, t)
    ensures Inv(t) && Ledger(steps, t)
  {
    Reachable(steps, t);
    assert Inv(INIT);
    RunKeepsLedger([], INIT, steps, t);
    assert [] + steps == steps;
  }

  /** A caller returns with the name it came for: a certificate if the generation it waited for succeeded, else the error. */
  lemma CallersGetWhatWasGenerated(steps: seq<Step>, t: State, c: nat)
    requires Runs(INIT, steps, t) && c in t.callers && t.callers[c].Returned?
    ensures var pc := t.callers[c];
            && Arrive(c, pc.name) in steps && (forall n :: Arrive(c, n) in steps ==> n == pc.name)
            && match pc.via
               case None => pc.outcome.Issued? && Touch(pc.name, None) in t.log
               case Some(f) =>
                 && f < |t.flights| && t.flights[f].name == pc.name
                 && (pc.outcome.Issued? <==> Generate(t.flights[f].leader, true) in steps)
                 && (pc.outcome.Failed? <==> Generate(t.flights[f].leader, false) in steps)
  {
    Recorded(steps, t);
    assert CallerOk(t, c) && HitLogged(t, t.callers[c]);
    if t.callers[c].via.Some? {
      var f := t.callers[c].via.value;
      assert FlightOk(t, f) && GenerationLedger(steps, t, f);
    }
  }

  /** A certificate that anybody returned with through a flight was inserted before, and nothing else is ever inserted. */
  lemma SuccessIsStored(steps: seq<Step>, t: State, c: nat)
    requires Runs(INIT, steps, t) && c in t.callers && t.callers[c].Returned? && t.callers[c].via.Some?
    ensures t.callers[c].outcome.Issued? ==> Touch(t.callers[c].name, Some(t.callers[c].outcome.cert)) in t.log
    ensures forall touch :: touch in t.log && touch.inserted.Some? ==> Made(t, touch.inserted.value, touch.name)
  {
    Recorded(steps, t);
    var f := t.callers[c].via.value;
    assert CallerOk(t, c) && FlightOk(t, f) && Inserted(t, f);
    if t.flights[f].leader in t.callers { assert CallerOk(t, t.flights[f].leader); }
  }

  // ---- every run ends ---------------------------------------------------

  /** How many steps a caller can still take. */
  function Left(pc: Pc): nat {
    match pc
    case Wants(_) => 8
    case Looking(_) => 7
    case Missed(_) => 6
    case Waiting(_, _) => 1
    case Generating(_, _) => 5
    case Storing(_, _) => 4
    case Adding(_, _) => 3
    case Publishing(_, _) => 2
    case Leaving(_, _) => 1
    case Returned(_, _, _) => 0
  }

  /** How many steps all of them can still take. */
  ghost function AllLeft(callers: map<nat, Pc>): nat {
    if callers == map[] then 0
    else
      var c :| c in callers;
      Left(callers[c]) + AllLeft(callers - {c})
  }

  lemma {:induction false} AllLeftWithout(callers: map<nat, Pc>, c: nat)
    requires c in callers
    ensures AllLeft(callers) == Left(callers[c]) + AllLeft(callers - {c})
    decreases |callers|
  {
    var d :| d in callers && AllLeft(callers) == Left(callers[d]) + AllLeft(callers - {d});
    if d != c {
      AllLeftWithout(callers - {d}, c);
      AllLeftWithout(callers - {c}, d);
      assert callers - {d} - {c} == callers - {c} - {d};
    }
  }

  /** Moving one caller, or adding one, changes its share only. */
  lemma AllLeftMoves(callers: map<nat, Pc>, c: nat, pc: Pc)
    ensures AllLeft(callers[c := pc]) == AllLeft(callers) + Left(pc) - if c in callers then Left(callers[c]) else 0
  {
    AllLeftWithout(callers[c := pc], c);
    assert callers[c := pc] - {c} == callers - {c};
    if c in callers {
      AllLeftWithout(callers, c);
    } else {
      assert callers - {c} == callers;
    }
  }

  /** A step moves one caller on, or lets one in. */
  lemma StepMovesOne(s: State, step: Step)
    requires Enabled(s, step)
    ensures var t := Apply(s, step);
            && step.c in t.callers && t.callers == s.callers[step.c := t.callers[step.c]]
            && (step.c in s.callers <==> !step.Arrive?)
            && Left(t.callers[step.c]) + 1 <= if step.c in s.callers then Left(s.callers[step.c]) else 9
  {
  }

  lemma StepUsesUp(s: State, step: Step)
    requires Enabled(s, step)
    ensures AllLeft(Apply(s, step).callers) + 1 <= AllLeft(s.callers) + if step.Arrive? then 9 else 0
  {
    StepMovesOne(s, step);
    AllLeftMoves(s.callers, step.c, Apply(s, step).callers[step.c]);
  }

  function Arrivals(steps: seq<Step>): nat {
    if steps == [] then 0 else (if steps[0].Arrive? then 1 else 0) + Arrivals(steps[1..])
  }

  lemma {:induction false} RunIsBounded(s: State, steps: seq<Step>, t: State)
    requires Runs(s, steps, t)
    ensures |steps| + AllLeft(t.callers) <= AllLeft(s.callers) + 9 * Arrivals(steps)
    decreases |steps|
  {
    if steps != [] {
      StepUsesUp(s, steps[0]);
      RunIsBounded(Apply(s, steps[0]), steps[1..], t);
    }
  }

  /** Each caller takes at most nine steps, and a run in which nobody can move has everyone returned. */
  lemma EveryRunEnds(steps: seq<Step>, t: State)
    requires Runs(INIT, steps, t)
    ensures |steps| <= 9 * Arrivals(steps)
    ensures (forall step: Step :: !step.Arrive? ==> !Enabled(t, step)) ==> forall c :: c in t.callers ==> t.callers[c].Returned?
  {
    RunIsBounded(INIT, steps, t);
    forall c | c in t.callers && !t.callers[c].Returned? ensures exists step: Step :: !step.Arrive? && Enabled(t, step) {
      NoDeadlock(steps, t, c);
    }
  }
}
