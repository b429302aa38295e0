/**
 * The replay engine: range normalisation, one attempt with its recover-and-retry
 * recursion, and the loop over the selected versions.
 */
module Replay {
  import opened Common
  import opened Rewrite

  newtype int64 = x: int | -0x8000_0000_0000_0000 <= x < 0x8000_0000_0000_0000

  const RETRIES: nat := 3

  // ---- the index range --------------------------------------------------

  /** Index k lies in the slice [start, end) of a list of n, where a negative bound counts from the last. */
  ghost predicate Asked(k: int, n: int, start: int, end: int) {
    && 0 <= k < n
    && (if start < 0 then start <= k - n else start <= k)
    && (if end < 0 then k - n < end else k < end)
  }

  /** The range replayed is the slice asked for, or everything when that slice is empty. */
  ghost predicate InRange(from: int, to: int, n: int, start: int, end: int) {
    if exists k :: Asked(k, n, start, end)
    then forall k :: Asked(k, n, start, end) <==> from <= k < to
    else from == 0 && to == n
  }

  method NormaliseRange(n: int64, cStart: int64, cEnd: int64) returns (start: int64, end: int64)
    requires 0 <= n  // a length
    ensures 0 <= start <= end <= n
    ensures n > 0 ==> start < end
    ensures InRange(start as int, end as int, n as int, cStart as int, cEnd as int)
  {
    start, end := cStart, cEnd;
    if start < 0 {
      start := n + start;
    }
    if end < 0 {
      end := n + end;
    }
    start, end := if 0 > start then 0 else start, if n < end then n else end;
    ghost var size, low, high := n as int, cStart as int, cEnd as int;
    ghost var from, to := start as int, end as int;
    assert forall k :: Asked(k, size, low, high) <==> from <= k < to;
    if start != 0 || end != n {
      if start >= end {
        start, end := 0, n;
      } else {
        assert Asked(from, size, low, high);
      }
    } else if n > 0 {
      assert Asked(0, size, low, high);
    }
  }

  // ---- attempts ---------------------------------------------------------

  /** What one attempt comes to: a parsed reply, or any of the panics before the append. */
  datatype Reply = Parsed(versionID: nat) | Panics

  /** The outside world: the reply to attempt number n when it sends the given body. */
  type Oracle = (nat, Bytes) -> Reply

  /** A parsed reply. The attempt that allocated it stands for the identity of the pointer. */
  datatype Entry = Entry(attempt: nat, versionID: nat)

  /** What one target comes to. */
  datatype Slot = Slot(attempts: nat, kept: Option<Entry>)

  function Settle(oracle: Oracle, sent: Bytes, counter: nat, retry: nat): Slot
    decreases retry
  {
    match oracle(counter + 1, sent)
    case Parsed(v) => Slot(1, Some(Entry(counter + 1, v)))
    case Panics =>
      if retry > 0 then
        var later := Settle(oracle, sent, counter + 1, retry - 1);
        later.(attempts := later.attempts + 1)
      else Slot(1, None)
  }

  /** The slot is the first success among at most budget attempts, numbered from counter + 1. */
  ghost predicate FirstSuccess(oracle: Oracle, sent: Bytes, counter: nat, budget: nat, slot: Slot) {
    && 1 <= slot.attempts <= budget
    && (forall a :: counter < a < counter + slot.attempts ==> oracle(a, sent).Panics?)
    && match slot.kept
       case Some(entry) =>
         entry.attempt == counter + slot.attempts && oracle(entry.attempt, sent) == Parsed(entry.versionID)
       case None => slot.attempts == budget && oracle(counter + budget, sent).Panics?
  }

  lemma {:induction false} SettleIsFirstSuccess(oracle: Oracle, sent: Bytes, counter: nat, retry: nat)
    ensures FirstSuccess(oracle, sent, counter, retry + 1, Settle(oracle, sent, counter, retry))
    decreases retry
  {
    if oracle(counter + 1, sent).Panics? && retry > 0 {
      SettleIsFirstSuccess(oracle, sent, counter + 1, retry - 1);
    }
  }

  // ---- the plan: one slot per target ------------------------------------

  /** The bodies sent for the targets, in order. */
  function Bodies(body: Bytes, latest: nat, targets: seq<nat>): (r: seq<Bytes>)
    ensures |r| == |targets|
  {
    if targets == [] then []
    else
      var last := |targets| - 1;
      Bodies(body, latest, targets[..last]) + [RewriteBody(body, latest, targets[last])]
  }

  lemma {:induction false} BodyOfTarget(body: Bytes, latest: nat, targets: seq<nat>, k: nat)
    requires k < |targets|
    ensures Bodies(body, latest, targets)[k] == RewriteBody(body, latest, targets[k])
  {
    var last := |targets| - 1;
    if k < last {
      BodyOfTarget(body, latest, targets[..last], k);
    }
  }

  /** The result of sending the bodies in order, the first of them after counter attempts. */
  function Plan(oracle: Oracle, bodies: seq<Bytes>, counter: nat, retry: nat): (r: seq<Slot>)
    ensures |r| == |bodies|
  {
    if bodies == [] then []
    else
      var last := |bodies| - 1;
      var before := Plan(oracle, bodies[..last], counter, retry);
      before + [Settle(oracle, bodies[last], counter + Total(before), retry)]
  }

  function Total(slots: seq<Slot>): nat {
    if slots == [] then 0 else Total(slots[..|slots| - 1]) + slots[|slots| - 1].attempts
  }

  /** The successes in order. */
  function Kept(slots: seq<Slot>): seq<Entry> {
    if slots == [] then []
    else
      var last := slots[|slots| - 1].kept;
      Kept(slots[..|slots| - 1]) + if last.Some? then [last.value] else []
  }

  /** The same body, n times. */
  function Repeat(b: Bytes, n: nat): (r: seq<Bytes>)
    ensures |r| == n
  {
    if n == 0 then [] else [b] + Repeat(b, n - 1)
  }

  lemma RepeatOnce(b: Bytes)
    ensures Repeat(b, 1) == [b]
  {
    assert Repeat(b, 0) == [];
  }

  /** The bodies sent: each target's own body, once per attempt. */
  function Sent(bodies: seq<Bytes>, slots: seq<Slot>): seq<Bytes>
    requires |bodies| == |slots|
  {
    if slots == [] then []
    else
      var last := |slots| - 1;
      Sent(bodies[..last], slots[..last]) + Repeat(bodies[last], slots[last].attempts)
  }

  /** The lines printed: each success under the position of its target. */
  function Printed(slots: seq<Slot>): seq<(nat, Entry)> {
    if slots == [] then []
    else
      var last := slots[|slots| - 1].kept;
      Printed(slots[..|slots| - 1]) + if last.Some? then [(|slots| - 1, last.value)] else []
  }

  /** How many targets failed in every attempt. */
  function Exhausted(slots: seq<Slot>): nat {
    if slots == [] then 0
    else Exhausted(slots[..|slots| - 1]) + if slots[|slots| - 1].kept.None? then 1 else 0
  }

  lemma PlanOneMore(oracle: Oracle, bodies: seq<Bytes>, body: Bytes, counter: nat, retry: nat)
    ensures var before := Plan(oracle, bodies, counter, retry);
            Plan(oracle, bodies + [body], counter, retry) == before + [Settle(oracle, body, counter + Total(before), retry)]
  {
    assert (bodies + [body])[..|bodies|] == bodies;
  }

  lemma SlotOneMore(slots: seq<Slot>, slot: Slot)
    ensures Total(slots + [slot]) == Total(slots) + slot.attempts
    ensures Kept(slots + [slot]) == Kept(slots) + if slot.kept.Some? then [slot.kept.value] else []
    ensures Printed(slots + [slot]) == Printed(slots) + if slot.kept.Some? then [(|slots|, slot.kept.value)] else []
  {
    assert (slots + [slot])[..|slots|] == slots;
  }

  lemma {:induction false} PlanSlot(oracle: Oracle, bodies: seq<Bytes>, counter: nat, retry: nat, k: nat)
    requires k < |bodies|
    ensures var slots := Plan(oracle, bodies, counter, retry);
            slots[k] == Settle(oracle, bodies[k], counter + Total(slots[..k]), retry)
  {
    var front, body := bodies[..|bodies| - 1], bodies[|bodies| - 1];
    assert front + [body] == bodies;
    PlanOneMore(oracle, front, body, counter, retry);
    var slots, before := Plan(oracle, bodies, counter, retry), Plan(oracle, front, counter, retry);
    assert slots[..k] == before[..k];
    if k < |front| {
      PlanSlot(oracle, front, counter, retry, k);
    } else {
      assert before[..k] == before;
    }
  }

  /** A slot of the plan is the first success of its own four attempts. */
  lemma SlotIsFirstSuccess(oracle: Oracle, bodies: seq<Bytes>, counter: nat, retry: nat, k: nat)
    requires k < |bodies|
    ensures var slots := Plan(oracle, bodies, counter, retry);
            FirstSuccess(oracle, bodies[k], counter + Total(slots[..k]), retry + 1, slots[k])
  {
    var before := Total(Plan(oracle, bodies, counter, retry)[..k]);
    PlanSlot(oracle, bodies, counter, retry, k);
    SettleIsFirstSuccess(oracle, bodies[k], counter + before, retry);
  }

  /** A target is given up exactly after four failures: with a success among its next four attempts it is kept. */
  lemma ExhaustedAfterFour(oracle: Oracle, bodies: seq<Bytes>, counter: nat, k: nat)
    requires k < |bodies|
    ensures var slots := Plan(oracle, bodies, counter, RETRIES);
            var from := counter + Total(slots[..k]);
            && (slots[k].kept.None? <==> forall a :: from < a <= from + 4 ==> oracle(a, bodies[k]).Panics?)
            && (slots[k].kept.None? ==> slots[k].attempts == 4)
            && (slots[k].kept.Some? ==>
                  var e := slots[k].kept.value;
                  && from < e.attempt <= from + 4 && oracle(e.attempt, bodies[k]) == Parsed(e.versionID)
                  && forall a :: from < a < e.attempt ==> oracle(a, bodies[k]).Panics?)
  {
    SlotIsFirstSuccess(oracle, bodies, counter, RETRIES, k);
  }

  /** At least one and at most four attempts per target, and never two results for one. */
  lemma {:induction false} PlanCounts(oracle: Oracle, bodies: seq<Bytes>, counter: nat)
    ensures var slots := Plan(oracle, bodies, counter, RETRIES);
            && |bodies| <= Total(slots) <= 4 * |bodies|
            && |Kept(slots)| + Exhausted(slots) == |bodies|
  {
    var slots := Plan(oracle, bodies, counter, RETRIES);
    PlanIsTimed(oracle, bodies, counter, RETRIES);
    SlotCounts(slots, counter);
    KeptAndExhausted(slots);
  }

  /** Each slot takes at most the attempts allowed, and its entry is allocated by the last of them. */
  ghost predicate Timed(slots: seq<Slot>, counter: nat, budget: nat) {
    slots == [] ||
    var last := slots[|slots| - 1];
    && Timed(slots[..|slots| - 1], counter, budget)
    && 1 <= last.attempts <= budget
    && (last.kept.Some? ==> last.kept.value.attempt == counter + Total(slots))
  }

  lemma {:induction false} PlanIsTimed(oracle: Oracle, bodies: seq<Bytes>, counter: nat, retry: nat)
    ensures Timed(Plan(oracle, bodies, counter, retry), counter, retry + 1)
  {
    if bodies != [] {
      var last := |bodies| - 1;
      var before := Plan(oracle, bodies[..last], counter, retry);
      PlanIsTimed(oracle, bodies[..last], counter, retry);
      SettleIsFirstSuccess(oracle, bodies[last], counter + Total(before), retry);
      assert Plan(oracle, bodies, counter, retry)[..last] == before;
    }
  }

  lemma {:induction false} SlotCounts(slots: seq<Slot>, counter: nat)
    requires Timed(slots, counter, 4)
    ensures |slots| <= Total(slots) <= 4 * |slots|
  {
    if slots != [] {
      SlotCounts(slots[..|slots| - 1], counter);
    }
  }

  /** A success sits in the list at its printed position minus the exhausted targets before it. */
  lemma {:induction false} KeptPosition(slots: seq<Slot>, k: nat)
    requires k < |slots| && slots[k].kept.Some?
    ensures Exhausted(slots[..k]) <= k
    ensures k - Exhausted(slots[..k]) < |Kept(slots)|
    ensures Kept(slots)[k - Exhausted(slots[..k])] == slots[k].kept.value
  {
    var before := slots[..|slots| - 1];
    if k == |slots| - 1 {
      KeptAndExhausted(before);
    } else {
      KeptPosition(before, k);
      assert before[..k] == slots[..k];
    }
  }

  lemma {:induction false} KeptAndExhausted(slots: seq<Slot>)
    ensures |Kept(slots)| + Exhausted(slots) == |slots|
  {
    if slots != [] {
      KeptAndExhausted(slots[..|slots| - 1]);
    }
  }

  /** No success comes from an attempt after the last. */
  lemma {:induction false} KeptAreBounded(slots: seq<Slot>, counter: nat, budget: nat)
    requires Timed(slots, counter, budget)
    ensures forall i :: 0 <= i < |Kept(slots)| ==> Kept(slots)[i].attempt <= counter + Total(slots)
  {
    if slots != [] {
      KeptAreBounded(slots[..|slots| - 1], counter, budget);
    }
  }

  /** Later slots hold later attempts, so no two entries of the list are the same pointer. */
  lemma {:induction false} KeptAreDistinct(slots: seq<Slot>, counter: nat, budget: nat)
    requires Timed(slots, counter, budget)
    ensures forall i, j :: 0 <= i < j < |Kept(slots)| ==> Kept(slots)[i].attempt < Kept(slots)[j].attempt
  {
    if slots != [] {
      var before := slots[..|slots| - 1];
      KeptAreDistinct(before, counter, budget);
      KeptAreBounded(before, counter, budget);
    }
  }

  /** The version the user gets for a typed number, if the number is in range. */
  function Select(history: seq<Entry>, typed: nat): Option<Entry> {
    if typed >= |history| then None else Some(history[typed])
  }

  /** The number printed for a success selects it exactly when no earlier target was exhausted. */
  lemma {:induction false} TypedNumberSelectsPrinted(slots: seq<Slot>, counter: nat, budget: nat, k: nat)
    requires Timed(slots, counter, budget)
    requires k < |slots| && slots[k].kept.Some?
    ensures (k, slots[k].kept.value) in Printed(slots)
    ensures Select(Kept(slots), k) == slots[k].kept <==> Exhausted(slots[..k]) == 0
  {
    KeptPosition(slots, k);
    KeptAreDistinct(slots, counter, budget);
    PrintedPosition(slots, k);
    var kept, position := Kept(slots), k - Exhausted(slots[..k]);
    if position < k < |kept| {
      assert kept[position].attempt < kept[k].attempt;
    }
  }

  lemma {:induction false} PrintedPosition(slots: seq<Slot>, k: nat)
    requires k < |slots| && slots[k].kept.Some?
    ensures (k, slots[k].kept.value) in Printed(slots)
  {
    if k < |slots| - 1 {
      PrintedPosition(slots[..|slots| - 1], k);
    }
  }

  /** Replies to every attempt but the first four, so that exactly the first target is exhausted. */
  const LATE: Oracle := (attempt: nat, sent: Bytes) => if attempt <= 4 then Panics else Parsed(attempt)

  /** With the first of three targets exhausted, the number printed for the second selects the third. */
  lemma TypedNumberMisses(a: Bytes, b: Bytes, c: Bytes)
    ensures var slots := Plan(LATE, [a, b, c], 0, RETRIES);
            && Printed(slots) == [(1, Entry(5, 5)), (2, Entry(6, 6))]
            && Select(Kept(slots), 1) == Some(Entry(6, 6))
  {
    var lost, second, third := Slot(4, None), Slot(1, Some(Entry(5, 5))), Slot(1, Some(Entry(6, 6)));
    assert Settle(LATE, a, 2, 1) == Slot(2, None);
    assert [a] == [] + [a] && [a, b] == [a] + [b] && [a, b, c] == [a, b] + [c];
    PlanOneMore(LATE, [], a, 0, RETRIES);
    SlotOneMore([], lost);
    PlanOneMore(LATE, [a], b, 0, RETRIES);
    SlotOneMore([lost], second);
    PlanOneMore(LATE, [a, b], c, 0, RETRIES);
    SlotOneMore([lost, second], third);
  }

  // ---- the addon --------------------------------------------------------

  datatype Latest = Latest(versionID: nat, versionIDs: seq<nat>)

  const DEFAULT_USER_AGENT: string := "Mozilla/5.0 (Linux; Android 6.0; Nexus 5 Build/MRA58N) AppleWebKit/537.36 (KHTML, like Gecko) Chrome/94.0.4606.61 Mobile Safari/537.36"

  /** The fields that replaying updates, and what it shows to the outside. */
  datatype Log = Log(counter: nat, history: seq<Entry>, printed: seq<(nat, Entry)>, sent: seq<Bytes>)

  function Record(log: Log, slot: Slot, body: Bytes, actualIndex: nat): Log {
    Log(log.counter + slot.attempts,
        log.history + (if slot.kept.Some? then [slot.kept.value] else []),
        log.printed + (if slot.kept.Some? then [(actualIndex, slot.kept.value)] else []),
        log.sent + Repeat(body, slot.attempts))
  }

  function RecordAll(log: Log, bodies: seq<Bytes>, slots: seq<Slot>): Log
    requires |bodies| == |slots|
  {
    Log(log.counter + Total(slots), log.history + Kept(slots), log.printed + Printed(slots), log.sent + Sent(bodies, slots))
  }

  /** Replaying the first n targets, one after the other. */
  function After(oracle: Oracle, log: Log, bodies: seq<Bytes>, n: nat, retry: nat): Log
    requires n <= |bodies|
  {
    if n == 0 then log else ReplayOne(oracle, After(oracle, log, bodies, n - 1, retry), bodies[n - 1], n - 1, retry)
  }

  function ReplayOne(oracle: Oracle, log: Log, body: Bytes, actualIndex: nat, retry: nat): Log {
    Record(log, Settle(oracle, body, log.counter, retry), body, actualIndex)
  }

  lemma RecordAllEndsWithRecord(log: Log, bodies: seq<Bytes>, slots: seq<Slot>, body: Bytes, slot: Slot)
    requires |bodies| == |slots|
    ensures RecordAll(log, bodies + [body], slots + [slot]) == Record(RecordAll(log, bodies, slots), slot, body, |slots|)
  {
    assert (bodies + [body])[..|bodies|] == bodies && (slots + [slot])[..|slots|] == slots;
  }

  /** What the plan of these bodies comes to. */
  function Planned(oracle: Oracle, log: Log, bodies: seq<Bytes>, retry: nat): Log {
    RecordAll(log, bodies, Plan(oracle, bodies, log.counter, retry))
  }

  lemma PlannedOneMore(oracle: Oracle, log: Log, bodies: seq<Bytes>, body: Bytes, retry: nat)
    ensures Planned(oracle, log, bodies + [body], retry)
            == ReplayOne(oracle, Planned(oracle, log, bodies, retry), body, |bodies|, retry)
  {
    var slots := Plan(oracle, bodies, log.counter, retry);
    PlanOneMore(oracle, bodies, body, log.counter, retry);
    RecordAllEndsWithRecord(log, bodies, slots, body, Settle(oracle, body, log.counter + Total(slots), retry));
  }

  lemma {:induction false} AfterRecordsThePlan(oracle: Oracle, log: Log, bodies: seq<Bytes>, n: nat, retry: nat)
    requires n <= |bodies|
    ensures After(oracle, log, bodies, n, retry) == Planned(oracle, log, bodies[..n], retry)
  {
    if n == 0 {
      assert RecordAll(log, [], []) == log;
    } else {
      AfterRecordsThePlan(oracle, log, bodies, n - 1, retry);
      PlannedOneMore(oracle, log, bodies[..n - 1], bodies[n - 1], retry);
      assert bodies[..n] == bodies[..n - 1] + [bodies[n - 1]];
    }
  }

  lemma AfterAllIsPlanned(oracle: Oracle, log: Log, bodies: seq<Bytes>, retry: nat)
    ensures After(oracle, log, bodies, |bodies|, retry) == Planned(oracle, log, bodies, retry)
  {
    AfterRecordsThePlan(oracle, log, bodies, |bodies|, retry);
    assert bodies[..|bodies|] == bodies;
  }

  // ---- what the replay leaves, said without the functions above ---------

  /** The attempts after from, up to to, are one target's: the first success, or four failures. */
  ghost predicate Tried(oracle: Oracle, body: Bytes, from: nat, to: nat) {
    && from < to <= from + 4
    && (forall a :: from < a < to ==> oracle(a, body).Panics?)
    && (to < from + 4 ==> oracle(to, body).Parsed?)
  }

  /** end(k) is the number of attempts before target k. */
  ghost predicate Attempts(oracle: Oracle, bodies: seq<Bytes>, end: nat -> nat) {
    forall k: nat :: k < |bodies| ==> Tried(oracle, bodies[k], end(k), end(k + 1))
  }

  /** The attempts of target k sent its body, and nothing else was sent. */
  ghost predicate SentInTurn(bodies: seq<Bytes>, n: nat, end: nat -> nat, before: seq<Bytes>, after: seq<Bytes>)
    requires n <= |bodies|
  {
    && before <= after && |after| + end(0) == |before| + end(n)
    && forall k: nat, p :: k < n && 0 <= p < |after| && |before| + end(k) <= p + end(0) < |before| + end(k + 1) ==> after[p] == bodies[k]
  }

  /** The entry is the success of target k. */
  ghost predicate SuccessOf(oracle: Oracle, bodies: seq<Bytes>, end: nat -> nat, k: nat, e: Entry)
    requires k < |bodies|
  {
    e.attempt == end(k + 1) && oracle(e.attempt, bodies[k]) == Parsed(e.versionID)
  }

  /** The successes, each with the position of its target: all of them, in order. */
  ghost predicate Successes(oracle: Oracle, bodies: seq<Bytes>, n: nat, end: nat -> nat, found: seq<(nat, Entry)>)
    requires n <= |bodies|
  {
    && (forall i, j :: 0 <= i < j < |found| ==> found[i].0 < found[j].0)
    && (forall i :: 0 <= i < |found| ==> found[i].0 < n && SuccessOf(oracle, bodies, end, found[i].0, found[i].1))
    && (forall k: nat, v :: k < n && oracle(end(k + 1), bodies[k]) == Parsed(v) ==> (k, Entry(end(k + 1), v)) in found)
  }

  function Entries(found: seq<(nat, Entry)>): seq<Entry> {
    seq(|found|, i requires 0 <= i < |found| => found[i].1)
  }

  /** The replay of all bodies: attempts, bodies sent, results kept, and lines printed. */
  ghost predicate Replays(oracle: Oracle, bodies: seq<Bytes>, before: Log, after: Log, end: nat -> nat, found: seq<(nat, Entry)>) {
    && end(0) == before.counter && end(|bodies|) == after.counter && Attempts(oracle, bodies, end)
    && SentInTurn(bodies, |bodies|, end, before.sent, after.sent)
    && Successes(oracle, bodies, |bodies|, end, found)
    && after.history == before.history + Entries(found) && after.printed == before.printed + found
  }

  ghost predicate ReplaysAll(oracle: Oracle, bodies: seq<Bytes>, before: Log, after: Log) {
    exists end, found :: Replays(oracle, bodies, before, after, end, found)
  }

  /** What Settle gives is the next target's share. */
  lemma NextIsTried(oracle: Oracle, body: Bytes, from: nat)
    ensures var slot := Settle(oracle, body, from, RETRIES);
            && Tried(oracle, body, from, from + slot.attempts)
            && match oracle(from + slot.attempts, body)
               case Panics => slot.kept.None?
               case Parsed(v) => slot.kept == Some(Entry(from + slot.attempts, v))
  {
    SettleIsFirstSuccess(oracle, body, from, RETRIES);
  }

  /** How many attempts there have been before target k. */
  function End(oracle: Oracle, bodies: seq<Bytes>, counter: nat, k: nat): nat {
    if k == 0 || k > |bodies| then counter
    else
      var from := End(oracle, bodies, counter, k - 1);
      from + Settle(oracle, bodies[k - 1], from, RETRIES).attempts
  }

  /** Target k takes the attempts from end(k) to end(k + 1), and keeps what they came to. */
  ghost predicate Shares(oracle: Oracle, bodies: seq<Bytes>, end: nat -> nat, share: nat -> Slot) {
    forall k: nat :: k < |bodies| ==>
      && end(k + 1) == end(k) + share(k).attempts
      && match oracle(end(k + 1), bodies[k])
         case Panics => share(k).kept.None?
         case Parsed(v) => share(k).kept == Some(Entry(end(k + 1), v))
  }

  function FoundIn(share: nat -> Slot, n: nat): seq<(nat, Entry)> {
    if n == 0 then [] else FoundIn(share, n - 1) + if share(n - 1).kept.Some? then [(n - 1, share(n - 1).kept.value)] else []
  }

  /** Replaying with the shares already known. */
  function Recorded(log: Log, bodies: seq<Bytes>, share: nat -> Slot, n: nat): Log
    requires n <= |bodies|
  {
    if n == 0 then log else Record(Recorded(log, bodies, share, n - 1), share(n - 1), bodies[n - 1], n - 1)
  }

  lemma {:induction false} CounterIsEnd(oracle: Oracle, log: Log, bodies: seq<Bytes>, n: nat, end: nat -> nat, share: nat -> Slot)
    requires n <= |bodies| && Shares(oracle, bodies, end, share) && end(0) == log.counter
    ensures Recorded(log, bodies, share, n).counter == end(n)
  {
    if n > 0 {
      CounterIsEnd(oracle, log, bodies, n - 1, end, share);
      assert end(n) == end(n - 1) + share(n - 1).attempts;
    }
  }

  lemma {:induction false} RepeatIs(b: Bytes, n: nat)
    ensures forall k :: 0 <= k < n ==> Repeat(b, n)[k] == b
  {
    if n > 0 {
      RepeatIs(b, n - 1);
    }
  }

  lemma {:induction false} EndsGrow(oracle: Oracle, bodies: seq<Bytes>, end: nat -> nat, share: nat -> Slot, k: nat, n: nat)
    requires k <= n <= |bodies| && Shares(oracle, bodies, end, share)
    ensures end(k) <= end(n)
  {
    if k < n {
      EndsGrow(oracle, bodies, end, share, k, n - 1);
      assert end(n) == end(n - 1) + share(n - 1).attempts;
    }
  }

  lemma SentOneMore(bodies: seq<Bytes>, n: nat, end: nat -> nat, attempts: nat, before: seq<Bytes>, after: seq<Bytes>)
    requires n < |bodies| && SentInTurn(bodies, n, end, before, after)
    requires end(n + 1) == end(n) + attempts && forall k: nat :: k <= n ==> end(k) <= end(n)
    ensures SentInTurn(bodies, n + 1, end, before, after + Repeat(bodies[n], attempts))
  {
    RepeatIs(bodies[n], attempts);
    var more := after + Repeat(bodies[n], attempts);
    forall k: nat, p | k < n + 1 && 0 <= p < |more| && |before| + end(k) <= p + end(0) < |before| + end(k + 1)
      ensures more[p] == bodies[k]
    {
      if k < n {
        assert end(k + 1) <= end(n);
        assert p < |after| && more[p] == after[p];
      }
    }
  }

  lemma {:induction false} SentToEnd(oracle: Oracle, log: Log, bodies: seq<Bytes>, n: nat, end: nat -> nat, share: nat -> Slot)
    requires n <= |bodies| && Shares(oracle, bodies, end, share)
    ensures SentInTurn(bodies, n, end, log.sent, Recorded(log, bodies, share, n).sent)
  {
    if n > 0 {
      SentToEnd(oracle, log, bodies, n - 1, end, share);
      forall k: nat | k <= n - 1 ensures end(k) <= end(n - 1) {
        EndsGrow(oracle, bodies, end, share, k, n - 1);
      }
      assert end(n) == end(n - 1) + share(n - 1).attempts;
      SentOneMore(bodies, n - 1, end, share(n - 1).attempts, log.sent, Recorded(log, bodies, share, n - 1).sent);
    }
  }

  lemma NoSuccessMore(oracle: Oracle, bodies: seq<Bytes>, n: nat, end: nat -> nat, found: seq<(nat, Entry)>)
    requires n < |bodies| && Successes(oracle, bodies, n, end, found) && oracle(end(n + 1), bodies[n]).Panics?
    ensures Successes(oracle, bodies, n + 1, end, found)
  {
  }

  lemma OneSuccessMore(oracle: Oracle, bodies: seq<Bytes>, n: nat, end: nat -> nat, found: seq<(nat, Entry)>, v: nat)
    requires n < |bodies| && Successes(oracle, bodies, n, end, found) && oracle(end(n + 1), bodies[n]) == Parsed(v)
    ensures Successes(oracle, bodies, n + 1, end, found + [(n, Entry(end(n + 1), v))])
  {
  }

  lemma SuccessesOneMore(oracle: Oracle, bodies: seq<Bytes>, n: nat, end: nat -> nat, found: seq<(nat, Entry)>, kept: Option<Entry>)
    requires n < |bodies| && Successes(oracle, bodies, n, end, found)
    requires match oracle(end(n + 1), bodies[n]) case Panics => kept.None? case Parsed(v) => kept == Some(Entry(end(n + 1), v))
    ensures Successes(oracle, bodies, n + 1, end, found + if kept.Some? then [(n, kept.value)] else [])
  {
    if kept.Some? {
      OneSuccessMore(oracle, bodies, n, end, found, kept.value.versionID);
    } else {
      assert found + [] == found;
      NoSuccessMore(oracle, bodies, n, end, found);
    }
  }

  lemma {:induction false} FoundAreSuccesses(oracle: Oracle, bodies: seq<Bytes>, n: nat, end: nat -> nat, share: nat -> Slot)
    requires n <= |bodies| && Shares(oracle, bodies, end, share)
    ensures Successes(oracle, bodies, n, end, FoundIn(share, n))
  {
    if n > 0 {
      FoundAreSuccesses(oracle, bodies, n - 1, end, share);
      SuccessesOneMore(oracle, bodies, n - 1, end, FoundIn(share, n - 1), share(n - 1).kept);
    }
  }

  lemma {:induction false} FoundAreKept(log: Log, bodies: seq<Bytes>, n: nat, share: nat -> Slot)
    requires n <= |bodies|
    ensures var found, after := FoundIn(share, n), Recorded(log, bodies, share, n);
            after.history == log.history + Entries(found) && after.printed == log.printed + found
  {
    if n == 0 {
      assert Entries([]) == [];
    } else {
      FoundAreKept(log, bodies, n - 1, share);
      RecordFound(log, Recorded(log, bodies, share, n - 1), share(n - 1), bodies[n - 1], n - 1, FoundIn(share, n - 1));
    }
  }

  lemma RecordFound(before: Log, mid: Log, slot: Slot, body: Bytes, n: nat, found: seq<(nat, Entry)>)
    requires mid.history == before.history + Entries(found) && mid.printed == before.printed + found
    ensures var after, found' := Record(mid, slot, body, n), found + if slot.kept.Some? then [(n, slot.kept.value)] else [];
            after.history == before.history + Entries(found') && after.printed == before.printed + found'
  {
    if slot.kept.Some? {
      assert Entries(found + [(n, slot.kept.value)]) == Entries(found) + [slot.kept.value];
    } else {
      assert found + [] == found;
    }
  }

  function Share(oracle: Oracle, bodies: seq<Bytes>, counter: nat, k: nat): Slot {
    if k < |bodies| then Settle(oracle, bodies[k], End(oracle, bodies, counter, k), RETRIES) else Slot(0, None)
  }

  lemma SettledShares(oracle: Oracle, bodies: seq<Bytes>, counter: nat)
    ensures Shares(oracle, bodies, (k: nat) => End(oracle, bodies, counter, k), (k: nat) => Share(oracle, bodies, counter, k))
    ensures Attempts(oracle, bodies, (k: nat) => End(oracle, bodies, counter, k))
  {
    forall k: nat | k < |bodies|
      ensures var end := End(oracle, bodies, counter, k + 1);
              && end == End(oracle, bodies, counter, k) + Share(oracle, bodies, counter, k).attempts
              && Tried(oracle, bodies[k], End(oracle, bodies, counter, k), end)
              && match oracle(end, bodies[k])
                 case Panics => Share(oracle, bodies, counter, k).kept.None?
                 case Parsed(v) => Share(oracle, bodies, counter, k).kept == Some(Entry(end, v))
    {
      NextIsTried(oracle, bodies[k], End(oracle, bodies, counter, k));
    }
  }

  lemma {:induction false} AfterIsRecorded(oracle: Oracle, log: Log, bodies: seq<Bytes>, n: nat, end: nat -> nat, share: nat -> Slot)
    requires n <= |bodies| && Shares(oracle, bodies, end, share) && end(0) == log.counter
    requires forall k: nat :: k < |bodies| ==> share(k) == Settle(oracle, bodies[k], end(k), RETRIES)
    ensures After(oracle, log, bodies, n, RETRIES) == Recorded(log, bodies, share, n)
  {
    if n > 0 {
      AfterIsRecorded(oracle, log, bodies, n - 1, end, share);
      CounterIsEnd(oracle, log, bodies, n - 1, end, share);
    }
  }

  lemma PlannedReplaysAll(oracle: Oracle, log: Log, bodies: seq<Bytes>)
    ensures ReplaysAll(oracle, bodies, log, Planned(oracle, log, bodies, 3))
  {
    var end: nat -> nat := (k: nat) => End(oracle, bodies, log.counter, k);
    var share: nat -> Slot := (k: nat) => Share(oracle, bodies, log.counter, k);
    var n := |bodies|;
    AfterAllIsPlanned(oracle, log, bodies, 3);
    SettledShares(oracle, bodies, log.counter);
    AfterIsRecorded(oracle, log, bodies, n, end, share);
    CounterIsEnd(oracle, log, bodies, n, end, share);
    SentToEnd(oracle, log, bodies, n, end, share);
    FoundAreSuccesses(oracle, bodies, n, end, share);
    FoundAreKept(log, bodies, n, share);
    assert Replays(oracle, bodies, log, Planned(oracle, log, bodies, 3), end, FoundIn(share, n));
  }

  /** A parsed reply ends the target. */
  lemma ParsedAtOnce(oracle: Oracle, log: Log, body: Bytes, actualIndex: nat, retry: nat)
    requires oracle(log.counter + 1, body).Parsed?
    ensures var entry := Entry(log.counter + 1, oracle(log.counter + 1, body).versionID);
            Record(log, Settle(oracle, body, log.counter, retry), body, actualIndex)
            == Log(log.counter + 1, log.history + [entry], log.printed + [(actualIndex, entry)], log.sent + [body])
  {
    RepeatOnce(body);
  }

  /** A panic counts as an attempt, and leaves the rest to the retries if there are any. */
  lemma PanickedOnce(oracle: Oracle, log: Log, body: Bytes, actualIndex: nat, retry: nat)
    requires oracle(log.counter + 1, body).Panics?
    ensures var later := log.(counter := log.counter + 1, sent := log.sent + [body]);
            Record(log, Settle(oracle, body, log.counter, retry), body, actualIndex)
            == if retry == 0 then later else Record(later, Settle(oracle, body, log.counter + 1, retry - 1), body, actualIndex)
  {
    if retry == 0 {
      RepeatOnce(body);
    } else {
      var attempts := Settle(oracle, body, log.counter + 1, retry - 1).attempts;
      assert log.sent + Repeat(body, attempts + 1) == (log.sent + [body]) + Repeat(body, attempts);
    }
  }

  class Addon {
    const oracle: Oracle
    const start: int64
    const end: int64
    var historyVersions: seq<Entry>
    var clientUserAgent: string
    var counter: nat
    var sent: seq<Bytes>           // the bodies sent, one per attempt
    var printed: seq<(nat, Entry)> // the result lines shown to the user

    constructor (oracle: Oracle, start: int64, end: int64)
      ensures this.oracle == oracle && this.start == start && this.end == end
      ensures historyVersions == [] && counter == 0 && sent == [] && printed == []
    {
      this.oracle, this.start, this.end := oracle, start, end;
      historyVersions, counter, sent, printed := [], 0, [], [];
      clientUserAgent := "";
    }

    function State(): Log
      reads this
    {
      Log(counter, historyVersions, printed, sent)
    }

    /** One target: a panic is recovered and the call repeats itself with one retry less. */
    method ReplayRequest(body: Bytes, latest: nat, target: nat, actualIndex: nat, retry: nat)
      modifies this`counter, this`sent, this`historyVersions, this`printed
      ensures State() == ReplayOne(oracle, old(State()), RewriteBody(body, latest, target), actualIndex, retry)
      decreases retry
    {
      ghost var log := State();
      counter := counter + 1;
      var bodyClone := RewriteBody(body, latest, target);
      sent := sent + [bodyClone];
      var reply := oracle(counter, bodyClone);
      match reply
      case Parsed(versionID) =>
        var appInfo := Entry(counter, versionID);
        historyVersions := historyVersions + [appInfo];
        printed := printed + [(actualIndex, appInfo)];
        ParsedAtOnce(oracle, log, bodyClone, actualIndex, retry);
      case Panics =>
        PanickedOnce(oracle, log, bodyClone, actualIndex, retry);
        if retry > 0 {
          ReplayRequest(body, latest, target, actualIndex, retry - 1);
        }
    }

    /** The targets versionIDs[from..to], one after the other. */
    method ReplayRange(body: Bytes, latest: nat, versionIDs: seq<nat>, from: nat, to: nat, retry: nat)
      requires from <= to <= |versionIDs|
      modifies this`counter, this`sent, this`historyVersions, this`printed
      ensures State() == Planned(oracle, old(State()), Bodies(body, latest, versionIDs[from..to]), retry)
    {
      var i := 0;
      ghost var first, targets := State(), versionIDs[from..to];
      ghost var bodies := Bodies(body, latest, targets);
      for index := from to to
        invariant i == index - from
        invariant State() == After(oracle, first, bodies, i, retry)
      {
        BodyOfTarget(body, latest, targets, i);
        ReplayRequest(body, latest, versionIDs[index], i, retry);
        i := i + 1;
      }
      AfterAllIsPlanned(oracle, first, bodies, retry);
    }

    /** A matching flow. The result is the value sent on Done; query is None when the first request panics. */
    method HandleBuyRequest(userAgent: string, body: Bytes, query: Option<Latest>) returns (done: bool)
      requires query.Some? ==> |query.value.versionIDs| < 0x8000_0000_0000_0000  // the length of a Go slice
      modifies this
      ensures done == query.Some?
      ensures clientUserAgent == if userAgent == "" then DEFAULT_USER_AGENT else userAgent
      ensures query.None? ==> unchanged(`historyVersions, `counter, `sent, `printed)
      ensures query.Some? ==>
                exists from, to :: 0 <= from <= to <= |query.value.versionIDs|
                  && InRange(from, to, |query.value.versionIDs|, start as int, end as int)
                  && var bodies := Bodies(body, query.value.versionID, query.value.versionIDs[from..to]);
                     && State() == Planned(oracle, old(State()), bodies, 3)
                     && ReplaysAll(oracle, bodies, old(State()), State())
    {
      clientUserAgent := if userAgent == "" then DEFAULT_USER_AGENT else userAgent;
      if query.None? {
        return false;
      }
      var latest := query.value;
      var from, to := NormaliseRange(|latest.versionIDs| as int64, start, end);
      ReplayRange(body, latest.versionID, latest.versionIDs, from as nat, to as nat, RETRIES);
      PlannedReplaysAll(oracle, old(State()), Bodies(body, latest.versionID, latest.versionIDs[from..to]));
      return true;
    }
  }
}
