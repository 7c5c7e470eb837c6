/** The outbox worker: a batch of persistent events, retries, storage failures and the circuit breaker.

    The world outside answers every delivery, every call on the store and every look at the clock
    in any way it likes; it is a parameter.  The log records the exchange in order, and a batch is
    specified by what it adds to the log.
 */
module Outbox {
  import opened Wrappers

  datatype Record = Record(id: string, malformed: bool, attempts: int)

  datatype Mark = Delivered | DeadLettered | Retry

  /** The delivery of an event starts, each attempt succeeds or not, with pauses between them, and it
      ends, opening the circuit or not; a mark is stored or raises; a retry is scheduled. */
  datatype Event =
    | Started(id: string, at: real)
    | Tried(id: string, ok: bool)
    | Paused(id: string, seconds: real)
    | Ended(id: string, ok: bool, until: Option<real>)
    | Marked(id: string, mark: Mark, accepted: bool)
    | Scheduled(id: string, at: real)

  /** The answers of the world, by the number of answers given so far. */
  datatype World = World(
    delivers: nat -> bool, sanitises: nat -> bool, accepts: nat -> bool, stops: nat -> bool,
    elapses: nat -> real, lists: nat -> Option<seq<Record>>)

  datatype Settings = Settings(baseBackoff: real, maxBackoff: real, threshold: nat, cooldown: real, maxAttempts: int)

  /** What the constructor's clamping guarantees. */
  predicate Sensible(s: Settings) {
    0.1 <= s.baseBackoff <= s.maxBackoff && s.threshold >= 1 && s.cooldown >= 1.0 && 1 <= s.maxAttempts <= 100
  }

  function Pow2(n: nat): (r: real)
    ensures r >= 1.0
  {
    if n == 0 then 1.0 else 2.0 * Pow2(n - 1)
  }

  function Scale(k: real, x: real): real {
    k * x
  }

  function Backoff(s: Settings, attempt: int): real {
    var delay := Scale(s.baseBackoff, Pow2(if attempt > 1 then attempt - 1 else 0));
    if delay < s.maxBackoff then delay else s.maxBackoff
  }

  lemma {:induction false} Pow2Grows(m: nat, n: nat)
    requires m <= n
    ensures Pow2(m) <= Pow2(n)
    decreases n
  {
    if m < n {
      Pow2Grows(m, n - 1);
    }
  }

  /** The waits: the base for the first attempt, doubled for each later one, up to the maximum. */
  lemma {:induction false} BackoffDoubles(s: Settings, attempt: int)
    requires Sensible(s)
    ensures attempt <= 1 ==> Backoff(s, attempt) == s.baseBackoff
    ensures attempt >= 1 ==>
              Backoff(s, attempt + 1) == if 2.0 * Backoff(s, attempt) < s.maxBackoff then 2.0 * Backoff(s, attempt) else s.maxBackoff
  {
    hide Scale;
    ScaleGrows(s.baseBackoff, 1.0, 1.0);
    if attempt >= 1 {
      var p := Pow2(attempt - 1);
      assert Pow2(attempt) == 2.0 * p;
      ScaleDoubles(s.baseBackoff, p);
      ScaleGrows(s.baseBackoff, 1.0, p);
    }
  }

  lemma {:induction false} ScaleDoubles(k: real, x: real)
    ensures Scale(k, 2.0 * x) == 2.0 * Scale(k, x)
  {
  }

  /** The constructor's clamping of its arguments. */
  function Clamp(baseBackoff: real, maxBackoff: real, threshold: int, cooldown: real, maxAttempts: int): Settings {
    var base := if baseBackoff < 0.1 then 0.1 else baseBackoff;
    Settings(base, if maxBackoff < base then base else maxBackoff, if threshold < 1 then 1 else threshold,
             if cooldown < 1.0 then 1.0 else cooldown,
             if maxAttempts < 1 then 1 else if maxAttempts > 100 then 100 else maxAttempts)
  }

  /** Clamped settings are sensible, and sensible ones are left alone; what is out of range goes to
      the nearest bound. */
  lemma {:induction false} ClampIsSensible(baseBackoff: real, maxBackoff: real, threshold: int, cooldown: real, maxAttempts: int)
    ensures Sensible(Clamp(baseBackoff, maxBackoff, threshold, cooldown, maxAttempts))
    ensures var s := Clamp(baseBackoff, maxBackoff, threshold, cooldown, maxAttempts);
            && (s.baseBackoff != baseBackoff ==> s.baseBackoff == 0.1) && (s.maxBackoff != maxBackoff ==> s.maxBackoff == s.baseBackoff)
            && (s.threshold != threshold ==> s.threshold == 1) && (s.cooldown != cooldown ==> s.cooldown == 1.0)
            && (maxAttempts < 1 ==> s.maxAttempts == 1) && (maxAttempts > 100 ==> s.maxAttempts == 100)
    ensures threshold >= 0 && Sensible(Settings(baseBackoff, maxBackoff, threshold, cooldown, maxAttempts)) ==>
              Clamp(baseBackoff, maxBackoff, threshold, cooldown, maxAttempts)
              == Settings(baseBackoff, maxBackoff, threshold, cooldown, maxAttempts)
  {
  }

  /** A later attempt never waits shorter, and every wait lies between the two bounds. */
  lemma {:induction false} BackoffGrows(s: Settings, a: int, b: int)
    requires Sensible(s) && a <= b
    ensures s.baseBackoff <= Backoff(s, a) <= Backoff(s, b) <= s.maxBackoff
  {
    hide Scale;
    var m, n := if a > 1 then a - 1 else 0, if b > 1 then b - 1 else 0;
    Pow2Grows(m, n);
    ScaleGrows(s.baseBackoff, 1.0, Pow2(m));
    ScaleGrows(s.baseBackoff, Pow2(m), Pow2(n));
  }

  lemma {:induction false} ScaleGrows(k: real, x: real, y: real)
    requires k >= 0.0 && x <= y
    ensures Scale(k, x) <= Scale(k, y) && Scale(k, 1.0) == k
  {
    assert k * (y - x) >= 0.0;
  }

  /** How many of the latest deliveries failed in a row. */
  function TrailingFailures(deliveries: seq<bool>): nat {
    if deliveries == [] || deliveries[|deliveries| - 1] then 0
    else 1 + TrailingFailures(deliveries[..|deliveries| - 1])
  }

  lemma {:induction false} TrailingAll(deliveries: seq<bool>, n: nat)
    ensures TrailingFailures(deliveries) >= n <==>
            n <= |deliveries| && forall i | |deliveries| - n <= i < |deliveries| :: !deliveries[i]
    decreases n
  {
    if n > 0 && deliveries != [] && !deliveries[|deliveries| - 1] {
      var init := deliveries[..|deliveries| - 1];
      TrailingAll(init, n - 1);
      assert forall i | 0 <= i < |init| :: init[i] == deliveries[i];
      if n <= |deliveries| && forall i | |deliveries| - n <= i < |deliveries| :: !deliveries[i] {
        assert forall i | |init| - (n - 1) <= i < |init| :: !init[i];
      }
      if n - 1 <= |init| && forall i | |init| - (n - 1) <= i < |init| :: !init[i] {
        forall i | |deliveries| - n <= i < |deliveries|
          ensures !deliveries[i]
        {
          if i < |init| {
            assert !init[i];
          }
        }
      }
    }
  }

  lemma {:induction false} TrailingStep(deliveries: seq<bool>, ok: bool)
    ensures TrailingFailures(deliveries + [ok]) == if ok then 0 else TrailingFailures(deliveries) + 1
  {
    assert (deliveries + [ok])[..|deliveries + [ok]| - 1] == deliveries;
  }

  // ----- The log -------------------------------------------------------------------------------

  /** Until when the circuit is open after a log: the last delivery that opened it, unless a later
      one succeeded. */
  function OpenUntil(log: seq<Event>): real {
    if log == [] then 0.0
    else
      var last := log[|log| - 1];
      if last.Ended? && last.ok then 0.0
      else if last.Ended? && last.until.Some? then last.until.value
      else OpenUntil(log[..|log| - 1])
  }

  /** The outcomes of the deliveries in a log. */
  function Outcomes(log: seq<Event>): seq<bool> {
    if log == [] then []
    else Outcomes(log[..|log| - 1]) + if log[|log| - 1].Ended? then [log[|log| - 1].ok] else []
  }

  lemma {:induction false} OpenUntilOne(log: seq<Event>, e: Event)
    ensures Outcomes(log + [e]) == Outcomes(log) + if e.Ended? then [e.ok] else []
    ensures OpenUntil(log + [e]) == if e.Ended? && e.ok then 0.0
                                    else if e.Ended? && e.until.Some? then e.until.value
                                    else OpenUntil(log)
  {
    assert (log + [e])[..|log + [e]| - 1] == log;
  }

  predicate Switches(e: Event) {
    e.Ended? && (e.ok || e.until.Some?)
  }

  /** Some delivery of the batch opened the circuit, it has not been switched since, and at the
      given time it is still open. */
  ghost predicate OpenedInBatch(log: seq<Event>, start: nat, j: nat, at: real)
    requires start <= j <= |log|
  {
    exists i | start <= i < j ::
      && log[i].Ended? && !log[i].ok && log[i].until.Some? && log[i].until.value > at
      && forall k | i < k < j :: !Switches(log[k])
  }

  /** When the circuit is not open at the start of a batch, it is open at a later time of the batch
      exactly if a delivery of that batch opened it. */
  lemma {:induction false} OpenOnlyByThisBatch(log: seq<Event>, start: nat, j: nat, at: real)
    requires start <= j <= |log| && OpenUntil(log[..start]) <= at && at >= 0.0
    ensures OpenUntil(log[..j]) > at <==> OpenedInBatch(log, start, j, at)
    decreases j
  {
    hide OpenUntil, Outcomes;
    if start < j {
      assert log[..j] == log[..j - 1] + [log[j - 1]];
      OpenUntilOne(log[..j - 1], log[j - 1]);
      OpenOnlyByThisBatch(log, start, j - 1, at);
      if OpenedInBatch(log, start, j - 1, at) && !Switches(log[j - 1]) {
        var i :| start <= i < j - 1 && log[i].Ended? && !log[i].ok && log[i].until.Some? && log[i].until.value > at
                 && forall k | i < k < j - 1 :: !Switches(log[k]);
        assert forall k | i < k < j :: !Switches(log[k]);
      }
      if OpenedInBatch(log, start, j, at) {
        var i :| start <= i < j && log[i].Ended? && !log[i].ok && log[i].until.Some? && log[i].until.value > at
                 && forall k | i < k < j :: !Switches(log[k]);
        assert i < j - 1 ==> !Switches(log[j - 1]) && forall k | i < k < j - 1 :: !Switches(log[k]);
      }
    }
  }

  /** The calls on the store, in order. */
  function Marks(events: seq<Event>): seq<Event> {
    if events == [] then []
    else Marks(events[..|events| - 1]) + if events[|events| - 1].Marked? then [events[|events| - 1]] else []
  }

  /** The calls that raised a storage error. */
  function Raised(events: seq<Event>): nat {
    if events == [] then 0
    else Raised(events[..|events| - 1])
         + if events[|events| - 1].Marked? && !events[|events| - 1].accepted then 1 else 0
  }

  function Deadlines(events: seq<Event>): multiset<real> {
    if events == [] then multiset{}
    else Deadlines(events[..|events| - 1])
         + if events[|events| - 1].Scheduled? then Just(events[|events| - 1].at) else multiset{}
  }

  function Just(d: real): (deadlines: multiset<real>)
    ensures |deadlines| == 1
  {
    multiset{d}
  }

  lemma {:induction false} OneMore(events: seq<Event>, e: Event)
    ensures Marks(events + [e]) == Marks(events) + if e.Marked? then [e] else []
    ensures Raised(events + [e]) == Raised(events) + if e.Marked? && !e.accepted then 1 else 0
    ensures Deadlines(events + [e]) == Deadlines(events) + if e.Scheduled? then Just(e.at) else multiset{}
  {
    assert (events + [e])[..|events + [e]| - 1] == events;
  }

  lemma {:induction false} Together(a: seq<Event>, b: seq<Event>)
    ensures Marks(a + b) == Marks(a) + Marks(b)
    ensures Raised(a + b) == Raised(a) + Raised(b)
    ensures Deadlines(a + b) == Deadlines(a) + Deadlines(b)
    decreases |b|
  {
    hide Marks, Raised, Deadlines;
    if b == [] {
      assert a + b == a;
      NothingYet();
    } else {
      var n := |b| - 1;
      assert b == b[..n] + [b[n]] && a + b == a + b[..n] + [b[n]];
      OneMore(b[..n], b[n]);
      OneMore(a + b[..n], b[n]);
      Together(a, b[..n]);
    }
  }

  lemma {:induction false} NothingYet()
    ensures Marks([]) == [] && Raised([]) == 0 && Deadlines([]) == multiset{} && Earliest(None, multiset{})
  {
  }

  /** Deliveries leave no marks and schedule nothing. */
  lemma {:induction false} DeliveriesMarkNothing(events: seq<Event>)
    requires forall e | e in events :: !e.Marked? && !e.Scheduled?
    ensures Marks(events) == [] && Raised(events) == 0 && Deadlines(events) == multiset{}
  {
    if events != [] {
      assert events[|events| - 1] in events;
      DeliveriesMarkNothing(events[..|events| - 1]);
    }
  }

  // ----- What a batch must do ------------------------------------------------------------------

  /** The mark that a record is due after its delivery. */
  function Due(s: Settings, r: Record, delivered: bool): Mark {
    if r.malformed then DeadLettered
    else if delivered then Delivered
    else if r.attempts >= s.maxAttempts then DeadLettered else Retry
  }

  /** The calls on the store that one record may cause: its due mark is stored; or it raises, and
      then a release is tried, which is stored or raises as well. */
  predicate Settles(calls: seq<Event>, id: string, due: Mark) {
    || calls == [Marked(id, due, true)]
    || calls == [Marked(id, due, false), Marked(id, Retry, true)]
    || calls == [Marked(id, due, false), Marked(id, Retry, false)]
  }

  /** What a visit of a record adds to the log: its delivery before the first call on the store, and
      then the calls the delivery's outcome requires.  Every retry is scheduled once. */
  ghost predicate Handled(s: Settings, r: Record, delivery: seq<Event>, calls: seq<Event>) {
    && (forall e | e in delivery + calls :: e.id == r.id)
    && (forall e | e in calls :: e.Marked? || e.Scheduled?)
    && (r.malformed ==> forall e | e in delivery :: !e.Tried?)
    && Marks(delivery) == []
    && var due := Due(s, r, Tried(r.id, true) in delivery);
       && calls != [] && calls[0].Marked? && Settles(Marks(calls), r.id, due)
       && |Deadlines(delivery)| == (if due == Retry then 1 else 0)
       && |Deadlines(calls)| == Raised(calls)
  }

  /** Which mark comes first: delivered exactly after a successful attempt, dead-lettered exactly when
      malformed or out of attempts, and else a retry; a second one is a retry after a raised first. */
  lemma {:induction false} FirstMark(s: Settings, r: Record, delivery: seq<Event>, calls: seq<Event>)
    requires Handled(s, r, delivery, calls)
    ensures var marks := Marks(calls);
            && 1 <= |marks| <= 2 && marks[0].id == r.id
            && (marks[0].mark == Delivered <==> !r.malformed && Tried(r.id, true) in delivery)
            && (marks[0].mark == DeadLettered <==> r.malformed || (Tried(r.id, true) !in delivery && r.attempts >= s.maxAttempts))
            && (|marks| == 2 <==> !marks[0].accepted)
            && (|marks| == 2 ==> marks[1].mark == Retry && marks[1].id == r.id)
  {
    hide Marks;
  }

  /** The accepted and the raising calls that carry an id. */
  function Calls(events: seq<Event>, id: string, accepted: bool): nat {
    if events == [] then 0
    else Calls(events[..|events| - 1], id, accepted)
         + var e := events[|events| - 1]; if e.Marked? && e.id == id && e.accepted == accepted then 1 else 0
  }

  lemma {:induction false} CallsTogether(a: seq<Event>, b: seq<Event>, id: string, accepted: bool)
    ensures Calls(a + b, id, accepted) == Calls(a, id, accepted) + Calls(b, id, accepted)
    decreases |b|
  {
    if b == [] {
      assert a + b == a;
    } else {
      assert (a + b)[..|a + b| - 1] == a + b[..|b| - 1];
      CallsTogether(a, b[..|b| - 1], id, accepted);
    }
  }

  lemma {:induction false} CallsOne(events: seq<Event>, e: Event, id: string, accepted: bool)
    ensures Calls(events + [e], id, accepted)
            == Calls(events, id, accepted) + if e.Marked? && e.id == id && e.accepted == accepted then 1 else 0
  {
    assert (events + [e])[..|events + [e]| - 1] == events;
  }

  lemma {:induction false} CallsAreMarks(events: seq<Event>, id: string, accepted: bool)
    ensures Calls(events, id, accepted) == Calls(Marks(events), id, accepted)
  {
    if events != [] {
      hide Calls, Marks;
      var init, e := events[..|events| - 1], events[|events| - 1];
      assert events == init + [e];
      CallsAreMarks(init, id, accepted);
      CallsOne(init, e, id, accepted);
      OneMore(init, e);
      if e.Marked? {
        CallsOne(Marks(init), e, id, accepted);
      } else {
        assert Marks(init) + [] == Marks(init);
      }
    }
  }

  lemma {:induction false} ForeignCalls(events: seq<Event>, id: string, accepted: bool)
    requires forall e | e in events :: e.id != id
    ensures Calls(events, id, accepted) == 0
  {
    if events != [] {
      assert events[|events| - 1] in events;
      ForeignCalls(events[..|events| - 1], id, accepted);
    }
  }

  /** A handled record has exactly one accepted call, or none and two that raised. */
  lemma {:induction false} OneMarkOrTwoRaised(s: Settings, r: Record, delivery: seq<Event>, calls: seq<Event>)
    requires Handled(s, r, delivery, calls)
    ensures var accepted := Calls(delivery + calls, r.id, true); var raised := Calls(delivery + calls, r.id, false);
            (accepted == 1 && raised <= 1) || (accepted == 0 && raised == 2)
  {
    var due := Due(s, r, Tried(r.id, true) in delivery);
    Together(delivery, calls);
    assert Marks(delivery + calls) == Marks(calls);
    forall accepted: bool
      ensures Calls(delivery + calls, r.id, accepted) == Calls(Marks(calls), r.id, accepted)
    {
      CallsAreMarks(delivery + calls, r.id, accepted);
    }
    CountCalls(r.id, due);
  }

  lemma {:induction false} CountCalls(id: string, due: Mark)
    ensures forall accepted, b :: Calls([Marked(id, due, b)], id, accepted) == if b == accepted then 1 else 0
    ensures forall accepted, b :: Calls([Marked(id, due, false), Marked(id, Retry, b)], id, accepted)
                                  == (if accepted then 0 else 1) + if b == accepted then 1 else 0
  {
    forall accepted, b
      ensures Calls([Marked(id, due, b)], id, accepted) == if b == accepted then 1 else 0
      ensures Calls([Marked(id, due, false), Marked(id, Retry, b)], id, accepted)
              == (if accepted then 0 else 1) + if b == accepted then 1 else 0
    {
      var first, two := [Marked(id, due, false)], [Marked(id, due, false), Marked(id, Retry, b)];
      assert two[..1] == first && first[..0] == [];
      assert [Marked(id, due, b)][..0] == [];
    }
  }

  /** The log of a batch: consecutive visits, each of which handles its record.  mids are where the
      calls on the store start. */
  ghost predicate Batch(s: Settings, records: seq<Record>, log: seq<Event>, cuts: seq<nat>, mids: seq<nat>) {
    && |cuts| == |records| + 1 && |mids| == |records| && cuts[0] <= cuts[|records|] == |log|
    && forall i | 0 <= i < |records| :: VisitAt(s, records, log, cuts, mids, i)
  }

  ghost predicate VisitAt(s: Settings, records: seq<Record>, log: seq<Event>, cuts: seq<nat>, mids: seq<nat>, i: nat)
    requires i < |records| && |cuts| == |records| + 1 && |mids| == |records|
  {
    && cuts[i] <= mids[i] <= cuts[i + 1] <= |log|
    && Handled(s, records[i], log[cuts[i]..mids[i]], log[mids[i]..cuts[i + 1]])
  }

  lemma {:induction false} BatchBounds(s: Settings, records: seq<Record>, log: seq<Event>, cuts: seq<nat>, mids: seq<nat>)
    requires Batch(s, records, log, cuts, mids)
    ensures |cuts| == |records| + 1 && |mids| == |records| && cuts[0] <= cuts[|records|] == |log|
  {
  }

  lemma {:induction false} LastVisit(s: Settings, records: seq<Record>, log: seq<Event>, cuts: seq<nat>, mids: seq<nat>)
    requires Batch(s, records, log, cuts, mids) && |records| > 0
    ensures |cuts| == |records| + 1 && |mids| == |records|
    ensures VisitAt(s, records, log, cuts, mids, |records| - 1)
  {
  }

  /** In a batch of different ids, every visited id has exactly one accepted call in the whole batch,
      or none and two that raised. */
  lemma {:induction false} EveryIdIsSettled(s: Settings, records: seq<Record>, log: seq<Event>, cuts: seq<nat>,
                                            mids: seq<nat>, id: string)
    requires Batch(s, records, log, cuts, mids)
    requires forall i, j | 0 <= i < j < |records| :: records[i].id != records[j].id
    ensures var events := log[cuts[0]..];
            if exists r :: r in records && r.id == id
            then (Calls(events, id, true) == 1 && Calls(events, id, false) <= 1)
                 || (Calls(events, id, true) == 0 && Calls(events, id, false) == 2)
            else Calls(events, id, true) == 0 && Calls(events, id, false) == 0
    decreases |records|
  {
    hide Handled, Calls, Batch;
    var n := |records|;
    BatchBounds(s, records, log, cuts, mids);
    if n == 0 {
      assert log[cuts[0]..] == [];
      ForeignCalls([], id, true);
      ForeignCalls([], id, false);
    } else {
      var r := records[n - 1];
      LastVisit(s, records, log, cuts, mids);
      var before := log[..cuts[n - 1]];
      BatchPrefix(s, records, log, cuts, mids);
      EveryIdIsSettled(s, records[..n - 1], before, cuts[..n], mids[..n - 1], id);
      CutsGrow(s, records, log, cuts, mids, n - 1);
      var delivery, calls := log[cuts[n - 1]..mids[n - 1]], log[mids[n - 1]..cuts[n]];
      assert log[cuts[0]..] == before[cuts[0]..] + (delivery + calls);
      CallsTogether(before[cuts[0]..], delivery + calls, id, true);
      CallsTogether(before[cuts[0]..], delivery + calls, id, false);
      HandledIds(s, r, delivery, calls);
      if r.id == id {
        OneMarkOrTwoRaised(s, r, delivery, calls);
        assert !exists q :: q in records[..n - 1] && q.id == id;
        assert r in records;
      } else {
        ForeignCalls(delivery + calls, id, true);
        ForeignCalls(delivery + calls, id, false);
        assert (exists q :: q in records && q.id == id) <==> (exists q :: q in records[..n - 1] && q.id == id) by {
          assert records == records[..n - 1] + [r];
        }
      }
    }
  }

  lemma {:induction false} HandledIds(s: Settings, r: Record, delivery: seq<Event>, calls: seq<Event>)
    requires Handled(s, r, delivery, calls)
    ensures forall e | e in delivery + calls :: e.id == r.id
  {
  }

  lemma {:induction false} CutsGrow(s: Settings, records: seq<Record>, log: seq<Event>, cuts: seq<nat>, mids: seq<nat>, n: nat)
    requires Batch(s, records, log, cuts, mids) && n <= |records|
    ensures cuts[0] <= cuts[n]
  {
    if n > 0 {
      assert VisitAt(s, records, log, cuts, mids, n - 1);
      CutsGrow(s, records, log, cuts, mids, n - 1);
    }
  }

  lemma {:induction false} BatchPrefix(s: Settings, records: seq<Record>, log: seq<Event>, cuts: seq<nat>, mids: seq<nat>)
    requires Batch(s, records, log, cuts, mids) && records != []
    ensures var n := |records| - 1; cuts[n] <= |log| && Batch(s, records[..n], log[..cuts[n]], cuts[..n + 1], mids[..n])
  {
    hide Handled;
    var n := |records| - 1;
    assert VisitAt(s, records, log, cuts, mids, n);
    CutsGrow(s, records, log, cuts, mids, n);
    var records', log', cuts', mids' := records[..n], log[..cuts[n]], cuts[..n + 1], mids[..n];
    forall i | 0 <= i < |records'|
      ensures VisitAt(s, records', log', cuts', mids', i)
    {
      assert VisitAt(s, records, log, cuts, mids, i);
      LaterCut(s, records, log, cuts, mids, i + 1, n);
      assert log'[cuts[i]..mids[i]] == log[cuts[i]..mids[i]];
      assert log'[mids[i]..cuts[i + 1]] == log[mids[i]..cuts[i + 1]];
    }
  }

  lemma {:induction false} LaterCut(s: Settings, records: seq<Record>, log: seq<Event>, cuts: seq<nat>, mids: seq<nat>,
                                    m: nat, n: nat)
    requires Batch(s, records, log, cuts, mids) && m <= n <= |records|
    ensures cuts[m] <= cuts[n]
    decreases n
  {
    if m < n {
      assert VisitAt(s, records, log, cuts, mids, n - 1);
      LaterCut(s, records, log, cuts, mids, m, n - 1);
    }
  }

  /** One more visit at the end of a batch. */
  lemma {:induction false} BatchGrows(s: Settings, records: seq<Record>, log: seq<Event>, cuts: seq<nat>, mids: seq<nat>,
                                      r: Record, delivery: seq<Event>, calls: seq<Event>)
    requires Batch(s, records, log, cuts, mids) && Handled(s, r, delivery, calls)
    ensures Batch(s, records + [r], log + delivery + calls, cuts + [|log + delivery + calls|], mids + [|log + delivery|])
  {
    hide Handled;
    var log' := log + delivery + calls;
    var records', cuts', mids' := records + [r], cuts + [|log'|], mids + [|log + delivery|];
    var n := |records|;
    forall i | 0 <= i < |records'|
      ensures VisitAt(s, records', log', cuts', mids', i)
    {
      if i < n {
        assert VisitAt(s, records, log, cuts, mids, i);
        assert log'[cuts[i]..mids[i]] == log[cuts[i]..mids[i]];
        assert log'[mids[i]..cuts[i + 1]] == log[mids[i]..cuts[i + 1]];
      } else {
        assert log'[|log|..|log + delivery|] == delivery;
        assert log'[|log + delivery|..|log'|] == calls;
      }
    }
  }

  /** The earliest of some deadlines. */
  predicate Earliest(deadline: Option<real>, deadlines: multiset<real>) {
    if deadline.None? then deadlines == multiset{}
    else deadline.value in deadlines && forall d | d in deadlines :: deadline.value <= d
  }

  function Earlier(a: Option<real>, d: real): Option<real> {
    if a.None? || d < a.value then Some(d) else a
  }

  lemma {:induction false} EarliestAdds(a: Option<real>, deadlines: multiset<real>, d: real)
    requires Earliest(a, deadlines)
    ensures Earliest(Earlier(a, d), deadlines + Just(d))
  {
  }

  lemma {:induction false} EarliestOfTwo(a: Option<real>, m: multiset<real>, b: Option<real>, n: multiset<real>)
    requires Earliest(a, m) && Earliest(b, n)
    ensures Earliest(if b.None? then a else Earlier(a, b.value), m + n)
  {
  }

  // ----- The worker ----------------------------------------------------------------------------

  predicate Succeeded(tries: seq<bool>) {
    |tries| > 0 && tries[|tries| - 1]
  }

  /** One event's attempts: it stops at the first success, or after three failures. */
  predicate Attempts(tries: seq<bool>) {
    && 1 <= |tries| <= 3
    && (forall i | 0 <= i < |tries| - 1 :: !tries[i])
    && (Succeeded(tries) || |tries| == 3)
  }

  /** The attempts, with a pause after a failed one that is not the third. */
  function AttemptEvents(s: Settings, id: string, tries: seq<bool>): seq<Event> {
    if tries == [] then []
    else
      var n := |tries|;
      AttemptEvents(s, id, tries[..n - 1]) + [Tried(id, tries[n - 1])]
      + if !tries[n - 1] && n < 3 then [Paused(id, Backoff(s, n))] else []
  }

  /** The events of one delivery that started. */
  function DeliveryEvents(s: Settings, id: string, at: real, tries: seq<bool>, until: Option<real>): seq<Event> {
    [Started(id, at)] + AttemptEvents(s, id, tries) + [Ended(id, Succeeded(tries), until)]
  }

  lemma {:induction false} NoAttempts(s: Settings, id: string)
    ensures AttemptEvents(s, id, []) == []
  {
  }

  lemma {:induction false} OneMoreAttempt(s: Settings, id: string, tries: seq<bool>, ok: bool)
    ensures AttemptEvents(s, id, tries + [ok])
            == AttemptEvents(s, id, tries) + [Tried(id, ok)] + if !ok && |tries| < 2 then [Paused(id, Backoff(s, |tries| + 1))] else []
  {
    assert (tries + [ok])[..|tries + [ok]| - 1] == tries;
  }

  lemma {:induction false} AttemptFacts(s: Settings, id: string, tries: seq<bool>)
    ensures forall e | e in AttemptEvents(s, id, tries) :: e.id == id && (e.Tried? || e.Paused?)
    ensures Tried(id, true) in AttemptEvents(s, id, tries) <==> true in tries
  {
    hide Backoff, AttemptEvents;
    if tries == [] {
      NoAttempts(s, id);
    } else {
      var n := |tries| - 1;
      AttemptFacts(s, id, tries[..n]);
      OneMoreAttempt(s, id, tries[..n], tries[n]);
      assert tries == tries[..n] + [tries[n]];
    }
  }

  /** A delivery that started, or none because the event could not be sanitised. */
  ghost predicate Delivery(s: Settings, id: string, events: seq<Event>, at: real, tries: seq<bool>, until: Option<real>) {
    if tries == [] then events == [] else Attempts(tries) && events == DeliveryEvents(s, id, at, tries, until)
  }

  lemma {:induction false} DeliveryFacts(s: Settings, id: string, events: seq<Event>, at: real, tries: seq<bool>, until: Option<real>)
    requires Delivery(s, id, events, at, tries, until)
    ensures forall e | e in events :: e.id == id && !e.Marked? && !e.Scheduled?
    ensures Tried(id, true) in events <==> Succeeded(tries)
    ensures forall k | 0 <= k < |events| && events[k].Started? :: events[k].at == at
    ensures tries != [] ==> events != [] && events[0] == Started(id, at)
    ensures Marks(events) == [] && Raised(events) == 0 && Deadlines(events) == multiset{}
  {
    hide Marks, Raised, Deadlines, AttemptEvents;
    AttemptFacts(s, id, tries);
    DeliveriesMarkNothing(events);
  }

  /** In a failing world every delivery starts at once, and the circuit is open after the one that
      reaches the threshold. */
  ghost predicate StartsFailing(s: Settings, r: Record, added: seq<Event>, now: real, streak: nat,
                                now': real, streak': nat, openUntil: real) {
    && now' == now && streak' == streak + 1
    && (streak' >= s.threshold ==> openUntil == now + s.cooldown)
    && added != [] && added[0] == Started(r.id, now)
  }

  /** The delivery at a position starts, and from the threshold on the circuit is open then. */
  ghost predicate StartsOpen(s: Settings, id: string, log: seq<Event>, j: nat, k: nat, now: real) {
    && j < |log| && log[j] == Started(id, now)
    && (k >= s.threshold ==> OpenUntil(log[..j]) == now + s.cooldown)
  }

  /** A failing batch up to a record. */
  ghost predicate FailingSoFar(s: Settings, w: World, pending: seq<Record>, log: seq<Event>, cuts: seq<nat>, now: real,
                               now': real, streak: nat, openUntil: real)
    requires |cuts| <= |pending| + 1
  {
    AlwaysFails(w) && (forall r | r in pending :: !r.malformed) ==>
      && now' == now && |cuts| <= streak + 1
      && (streak >= s.threshold && |cuts| > s.threshold ==> openUntil == now + s.cooldown)
      && forall k | 0 <= k < |cuts| - 1 :: StartsOpen(s, pending[k].id, log, cuts[k], k, now)
  }

  lemma {:induction false} FailingStep(s: Settings, w: World, pending: seq<Record>, log: seq<Event>, cuts: seq<nat>,
                                       now: real, now': real, streak: nat, openUntil: real,
                                       delivery: seq<Event>, calls: seq<Event>, now'': real, streak': nat, openUntil': real)
    requires 0 < |cuts| <= |pending| && FailingSoFar(s, w, pending, log, cuts, now, now', streak, openUntil)
    requires openUntil == OpenUntil(log) && cuts[|cuts| - 1] == |log|
    requires AlwaysFails(w) && !pending[|cuts| - 1].malformed ==>
               StartsFailing(s, pending[|cuts| - 1], delivery, now', streak, now'', streak', openUntil')
    ensures var log' := log + delivery + calls;
            FailingSoFar(s, w, pending, log', cuts + [|log'|], now, now'', streak', openUntil')
  {
    hide OpenUntil, Outcomes, AlwaysFails;
    var log', n := log + delivery + calls, |cuts| - 1;
    if AlwaysFails(w) && (forall r | r in pending :: !r.malformed) {
      assert pending[n] in pending;
      forall k | 0 <= k <= n
        ensures StartsOpen(s, pending[k].id, log', cuts[k], k, now)
      {
        if k < n {
          assert StartsOpen(s, pending[k].id, log, cuts[k], k, now);
          assert log'[..cuts[k]] == log[..cuts[k]];
        } else {
          assert log'[..|log|] == log;
          assert log'[|log|] == delivery[0];
        }
      }
    }
  }

  lemma {:induction false} NothingFailed(s: Settings, w: World, pending: seq<Record>, log: seq<Event>, now: real,
                                         streak: nat, openUntil: real)
    requires Sensible(s)
    ensures FailingSoFar(s, w, pending, log, [|log|], now, now, streak, openUntil)
  {
  }

  lemma {:induction false} FailedAll(s: Settings, w: World, pending: seq<Record>, log: seq<Event>, cuts: seq<nat>,
                                     now: real, now': real, streak: nat, openUntil: real)
    requires |cuts| <= |pending| + 1 && FailingSoFar(s, w, pending, log, cuts, now, now', streak, openUntil)
    ensures AlwaysFails(w) && (forall r | r in pending :: !r.malformed) ==>
              forall k | 0 <= k < |cuts| - 1 :: StartsOpen(s, pending[k].id, log, cuts[k], k, now)
  {
  }

  /** A world in which no delivery succeeds, no call fails, and no time passes. */
  ghost predicate AlwaysFails(w: World) {
    forall n :: !w.delivers(n) && w.sanitises(n) && !w.stops(n) && w.elapses(n) == 0.0
  }

  /** What a turn of the worker came to, with the time at which it tested the circuit. */
  datatype Turn =
    | Gated(now: real)
    | Unlisted(now: real)
    | Dispatched(now: real, pending: seq<Record>, stopped: bool, visited: nat, cuts: seq<nat>, mids: seq<nat>)

  class Dispatcher {
    const settings: Settings
    const world: World
    var answers: nat
    var failureStreak: nat
    var circuitOpenUntil: real
    var storageStreak: nat
    var storageFailures: nat
    var clock: real

    /** The exchange with the world, and the outcome of every delivery that started. */
    ghost var log: seq<Event>
    ghost var deliveries: seq<bool>

    /** The streak is the trailing failures, the circuit has been opened exactly when they reach the
        threshold, and its time is that of the log. */
    ghost predicate Valid()
      reads this
    {
      && Sensible(settings) && clock > 0.0
      && failureStreak == TrailingFailures(deliveries)
      && (circuitOpenUntil > 0.0 <==> failureStreak >= settings.threshold)
      && circuitOpenUntil == OpenUntil(log) && deliveries == Outcomes(log)
    }

    constructor (settings: Settings, world: World, now: real)
      requires Sensible(settings) && now > 0.0
      ensures Valid() && log == [] && deliveries == [] && this.settings == settings && this.world == world && clock == now
      ensures answers == 0 && storageStreak == 0 && storageFailures == 0
    {
      this.settings, this.world, answers := settings, world, 0;
      failureStreak, circuitOpenUntil, storageStreak, storageFailures := 0, 0.0, 0, 0;
      clock, log, deliveries := now, [], [];
    }

    /** The monotonic clock. */
    method Monotonic() returns (now: real)
      modifies this`clock, this`answers
      ensures now == clock == old(clock) + (if world.elapses(old(answers)) > 0.0 then world.elapses(old(answers)) else 0.0)
      ensures answers == old(answers) + 1
      ensures AlwaysFails(world) ==> clock == old(clock)
    {
      var elapsed := world.elapses(answers);
      answers := answers + 1;
      if elapsed > 0.0 {
        clock := clock + elapsed;
      }
      now := clock;
    }

    /** Sleeping between attempts; what the clock says afterwards is up to the world. */
    method Pause(id: string, seconds: real)
      modifies this`clock, this`log, this`answers
      ensures clock >= old(clock) && log == old(log) + [Paused(id, seconds)] && answers == old(answers) + 1
      ensures AlwaysFails(world) ==> clock == old(clock)
    {
      log := log + [Paused(id, seconds)];
      var _ := Monotonic();
    }

    /** The attempts themselves. */
    method TryThreeTimes(id: string) returns (tries: seq<bool>)
      modifies this`clock, this`log, this`answers
      ensures Attempts(tries) && |tries| <= 3 && log == old(log) + AttemptEvents(settings, id, tries) && clock >= old(clock)
      ensures forall i | 0 <= i < |tries| :: tries[i] == world.delivers(old(answers) + 2 * i)
      ensures AlwaysFails(world) ==> !Succeeded(tries) && clock == old(clock)
    {
      hide AttemptEvents, Backoff;
      tries := [];
      NoAttempts(settings, id);
      assert log + [] == log;
      var attempt, done := 1, false;
      while attempt < 4 && !done
        invariant 1 <= attempt <= 4 && |tries| == attempt - 1 && (forall i | 0 <= i < |tries| - 1 :: !tries[i])
        invariant if tries == [] then !done else done == tries[|tries| - 1]
        invariant log == old(log) + AttemptEvents(settings, id, tries) && clock >= old(clock)
        invariant attempt < 4 && !done ==> answers == old(answers) + 2 * |tries|
        invariant forall i | 0 <= i < |tries| :: tries[i] == world.delivers(old(answers) + 2 * i)
        invariant AlwaysFails(world) ==> !done && clock == old(clock)
        decreases 4 - attempt
      {
        var ok := world.delivers(answers);
        answers := answers + 1;
        log := log + [Tried(id, ok)];
        done := ok;
        if !ok && attempt < 3 {
          Pause(id, Backoff(settings, attempt));
        }
        OneMoreAttempt(settings, id, tries, ok);
        tries := tries + [ok];
        attempt := attempt + 1;
      }
    }

    /** The end of a delivery: a success closes the circuit, and the failure that reaches the threshold
        opens it. */
    method Conclude(id: string, done: bool) returns (ghost until: Option<real>)
      requires Valid()
      modifies this`failureStreak, this`circuitOpenUntil, this`clock, this`deliveries, this`log, this`answers
      ensures Valid() && clock >= old(clock) && log == old(log) + [Ended(id, done, until)]
      ensures until == (if failureStreak >= settings.threshold then Some(circuitOpenUntil) else None)
      ensures deliveries == old(deliveries) + [done]
      ensures failureStreak == if done then 0 else old(failureStreak) + 1
      ensures circuitOpenUntil == if done then 0.0
                                  else if failureStreak >= settings.threshold then clock + settings.cooldown
                                  else old(circuitOpenUntil)
      ensures AlwaysFails(world) ==> clock == old(clock)
    {
      hide TrailingFailures, OpenUntil, Outcomes;
      TrailingStep(deliveries, done);
      deliveries := deliveries + [done];
      if done {
        failureStreak, circuitOpenUntil := 0, 0.0;
      } else {
        failureStreak := failureStreak + 1;
        if failureStreak >= settings.threshold {
          var now := Monotonic();
          circuitOpenUntil := now + settings.cooldown;
        }
      }
      until := if failureStreak >= settings.threshold then Some(circuitOpenUntil) else None;
      OpenUntilOne(log, Ended(id, done, until));
      log := log + [Ended(id, done, until)];
    }

    /** Up to three attempts; the event fails only when all three did.  An event that cannot be
        sanitised fails before the first attempt and leaves streak and circuit alone. */
    method DeliverWithRetries(id: string) returns (tries: seq<bool>, ghost added: seq<Event>, ghost at: real)
      requires Valid()
      modifies this`failureStreak, this`circuitOpenUntil, this`clock, this`deliveries, this`log, this`answers
      ensures Valid() && log == old(log) + added && at >= old(clock) && clock >= at
      ensures Delivery(settings, id, added, at, tries, if failureStreak >= settings.threshold then Some(circuitOpenUntil) else None)
      ensures tries == [] <==> !world.sanitises(old(answers))
      ensures forall i | 0 <= i < |tries| :: tries[i] == world.delivers(old(answers) + 2 + 2 * i)
      ensures |tries| <= 3 && (tries != [] && !Succeeded(tries) ==> |tries| == 3)
      ensures deliveries == old(deliveries) + if tries == [] then [] else [Succeeded(tries)]
      ensures failureStreak == if tries == [] then old(failureStreak) else if Succeeded(tries) then 0 else old(failureStreak) + 1
      ensures circuitOpenUntil == if tries == [] then old(circuitOpenUntil)
                                  else if Succeeded(tries) then 0.0
                                  else if failureStreak >= settings.threshold then clock + settings.cooldown
                                  else old(circuitOpenUntil)
      ensures AlwaysFails(world) ==> tries != [] && !Succeeded(tries) && at == clock == old(clock)
    {
      hide TrailingFailures, OpenUntil, Outcomes, AttemptEvents, AlwaysFails;
      tries, added := [], [];
      var sane := world.sanitises(answers);
      answers := answers + 1;
      at := clock;
      assert log + [] == log && deliveries + [] == deliveries;
      FailingSanitises(world, answers - 1);
      if !sane {
        return;
      }
      ghost var before := log;
      at := Monotonic();
      log := log + [Started(id, at)];
      tries := TryThreeTimes(id);
      AttemptFacts(settings, id, tries);
      NothingEnds(before, [Started(id, at)] + AttemptEvents(settings, id, tries));
      assert log == before + ([Started(id, at)] + AttemptEvents(settings, id, tries));
      ghost var until := Conclude(id, tries[|tries| - 1]);
      added := DeliveryEvents(settings, id, at, tries, until);
      assert log == before + added;
    }

    method RecordStorageFailure() returns (delay: real)
      modifies this`storageStreak, this`storageFailures
      ensures storageFailures == old(storageFailures) + 1 && storageStreak == old(storageStreak) + 1
      ensures delay == Backoff(settings, storageStreak)
    {
      storageStreak := storageStreak + 1;
      delay := Backoff(settings, storageStreak);
      storageFailures := storageFailures + 1;
    }

    /** A failed event waits for its backoff, or for the cooldown while the circuit is open. */
    method ScheduleEventRetry(r: Record, retry: Option<real>, ghost events: multiset<real>)
      returns (retry': Option<real>, ghost at: real)
      requires Valid() && Earliest(retry, events)
      modifies this`clock, this`log, this`answers
      ensures Valid() && clock >= old(clock) && log == old(log) + [Scheduled(r.id, at)]
      ensures at == clock + if failureStreak >= settings.threshold then settings.cooldown else Backoff(settings, r.attempts)
      ensures Earliest(retry', events + Just(at))
      ensures AlwaysFails(world) ==> clock == old(clock)
    {
      hide OpenUntil, Outcomes, Earliest, Backoff;
      var delay := if failureStreak >= settings.threshold then settings.cooldown else Backoff(settings, r.attempts);
      var now := Monotonic();
      EarliestAdds(retry, events, now + delay);
      retry', at := Earlier(retry, now + delay), now + delay;
      OpenUntilOne(log, Scheduled(r.id, at));
      log := log + [Scheduled(r.id, at)];
    }

    /** Delivers one record unless it is malformed, decides its mark and schedules its retry. */
    method Attempt(r: Record, retry: Option<real>, ghost events: multiset<real>)
      returns (due: Mark, retry': Option<real>, ghost added: seq<Event>, ghost delivered: Option<bool>)
      requires Valid() && Earliest(retry, events)
      modifies this`failureStreak, this`circuitOpenUntil, this`clock, this`deliveries, this`log, this`answers
      ensures Valid() && clock >= old(clock) && log == old(log) + added
      ensures forall e | e in added :: e.id == r.id && !e.Marked? && (r.malformed ==> !e.Tried?)
      ensures StartsAfter(added, old(clock))
      ensures due == Due(settings, r, Tried(r.id, true) in added)
      ensures due == Delivered <==> !r.malformed && Tried(r.id, true) in added
      ensures due == DeadLettered <==> r.malformed || (Tried(r.id, true) !in added && r.attempts >= settings.maxAttempts)
      ensures Marks(added) == [] && Raised(added) == 0
      ensures Deadlines(added) == if due != Retry then multiset{}
                                  else Just(clock + if failureStreak >= settings.threshold then settings.cooldown
                                                    else Backoff(settings, r.attempts))
      ensures Earliest(retry', events + Deadlines(added))
      ensures deliveries == old(deliveries) + if delivered.Some? then [delivered.value] else []
      ensures delivered.Some? ==> !r.malformed && delivered.value == (Tried(r.id, true) in added)
      ensures AlwaysFails(world) && !r.malformed ==> StartsFailing(settings, r, added, old(clock), old(failureStreak), clock, failureStreak, circuitOpenUntil)
    {
      hide Earliest, Attempts, Marks, Raised, Deadlines, OpenUntil, Outcomes, Backoff, Delivery, TrailingFailures, AlwaysFails, Just;
      due, retry', added, delivered := DeadLettered, retry, [], None;
      NothingYet();
      assert events + multiset{} == events && log + [] == log && deliveries + [] == deliveries;
      if !r.malformed {
        var tries;
        ghost var at, until;
        tries, added, at := DeliverWithRetries(r.id);
        until := if failureStreak >= settings.threshold then Some(circuitOpenUntil) else None;
        DeliveryFacts(settings, r.id, added, at, tries, until);
        delivered := if tries == [] then None else Some(Succeeded(tries));
        if Succeeded(tries) {
          due := Delivered;
        } else if r.attempts < settings.maxAttempts {
          due := Retry;
          ghost var next;
          retry', next := ScheduleEventRetry(r, retry, events);
          OneMore(added, Scheduled(r.id, next));
          added := added + [Scheduled(r.id, next)];
        }
      }
    }

    /** One call on the store; it may raise a storage error. */
    method StoreMark(id: string, mark: Mark) returns (accepted: bool)
      requires Valid()
      modifies this`log, this`answers
      ensures Valid() && log == old(log) + [Marked(id, mark, accepted)]
      ensures accepted == world.accepts(old(answers)) && answers == old(answers) + 1
    {
      hide OpenUntil, Outcomes;
      accepted := world.accepts(answers);
      answers := answers + 1;
      OpenUntilOne(log, Marked(id, mark, accepted));
      log := log + [Marked(id, mark, accepted)];
    }

    /** Counts a storage failure and schedules the next try. */
    method ScheduleStorageRetry(id: string, storage: Option<real>, ghost releases: multiset<real>)
      returns (storage': Option<real>, at: real)
      requires Valid() && Earliest(storage, releases)
      modifies this`storageStreak, this`storageFailures, this`clock, this`log, this`answers
      ensures Valid() && clock >= old(clock) && storageFailures == old(storageFailures) + 1
      ensures storageStreak == old(storageStreak) + 1 && at == clock + Backoff(settings, storageStreak)
      ensures log == old(log) + [Scheduled(id, at)] && Earliest(storage', releases + Just(at))
      ensures AlwaysFails(world) ==> clock == old(clock)
    {
      hide OpenUntil, Outcomes, Earliest, Backoff;
      var delay := RecordStorageFailure();
      var now := Monotonic();
      at := now + delay;
      EarliestAdds(storage, releases, at);
      storage' := Earlier(storage, at);
      OpenUntilOne(log, Scheduled(id, at));
      log := log + [Scheduled(id, at)];
    }

    /** The calls on the store for one record: its due mark, and on a storage error its release. */
    method Settle(id: string, due: Mark, storage: Option<real>, ghost releases: multiset<real>)
      returns (stored: bool, storage': Option<real>, ghost calls: seq<Event>)
      requires Valid() && Earliest(storage, releases)
      modifies this`storageStreak, this`storageFailures, this`clock, this`log, this`answers
      ensures Valid() && clock >= old(clock) && log == old(log) + calls
      ensures calls != [] && calls[0].Marked? && Settles(Marks(calls), id, due)
      ensures forall e | e in calls :: e.id == id && (e.Marked? || e.Scheduled?)
      ensures |Deadlines(calls)| == Raised(calls) && storageFailures == old(storageFailures) + Raised(calls)
      ensures storageStreak == old(storageStreak) + Raised(calls)
      ensures stored <==> Raised(calls) == 0
      ensures Earliest(storage', releases + Deadlines(calls))
      ensures AlwaysFails(world) ==> clock == old(clock)
    {
      hide Valid, AlwaysFails, Earliest, Marks, Raised, Deadlines, Just;
      storage' := storage;
      NothingYet();
      stored := StoreMark(id, due);
      calls := [Marked(id, due, stored)];
      OneMore([], calls[0]);
      assert [] + calls == calls;
      if stored {
        assert releases + multiset{} == releases;
        return;
      }
      var at, later;
      storage', at := ScheduleStorageRetry(id, storage', releases);
      OneMore(calls, Scheduled(id, at));
      calls := calls + [Scheduled(id, at)];
      var released := StoreMark(id, Retry);
      OneMore(calls, Marked(id, Retry, released));
      calls := calls + [Marked(id, Retry, released)];
      assert Deadlines(calls) == Just(at);
      if !released {
        storage', later := ScheduleStorageRetry(id, storage', releases + Just(at));
        OneMore(calls, Scheduled(id, later));
        calls := calls + [Scheduled(id, later)];
        assert Deadlines(calls) == Just(at) + Just(later);
        assert releases + Just(at) + Just(later) == releases + (Just(at) + Just(later));
      }
    }

    /** One record: deliver or give up, mark, and on a storage failure release the record.  The two
        deadlines are the earliest retries so far, of events and of storage. */
    method VisitRecord(r: Record, retry: Option<real>, storage: Option<real>, ghost events: multiset<real>,
                       ghost releases: multiset<real>)
      returns (stored: bool, retry': Option<real>, storage': Option<real>, ghost delivery: seq<Event>,
               ghost calls: seq<Event>, ghost delivered: Option<bool>)
      requires Valid() && Earliest(retry, events) && Earliest(storage, releases)
      modifies this
      ensures Valid() && clock >= old(clock) && log == old(log) + delivery + calls
      ensures Handled(settings, r, delivery, calls) && StartsAfter(delivery + calls, old(clock))
      ensures storageFailures == old(storageFailures) + Raised(delivery + calls)
      ensures storageStreak == old(storageStreak) + Raised(delivery + calls)
      ensures stored <==> Raised(delivery + calls) == 0
      ensures Earliest(retry', events + Deadlines(delivery)) && Earliest(storage', releases + Deadlines(calls))
      ensures deliveries == old(deliveries) + if delivered.Some? then [delivered.value] else []
      ensures AlwaysFails(world) && !r.malformed ==> StartsFailing(settings, r, delivery, old(clock), old(failureStreak), clock, failureStreak, circuitOpenUntil)
    {
      hide Earliest, Marks, Raised, Deadlines, OpenUntil, Outcomes, Backoff, Just, TrailingFailures, Settles;
      var due;
      due, retry', delivery, delivered := Attempt(r, retry, events);
      stored, storage', calls := Settle(r.id, due, storage, releases);
      Together(delivery, calls);
      NothingYet();
    }

    /** A batch: every pending record is visited, or a prefix if the worker is stopped, each as its
        record requires; the batch succeeded if no call on the store raised; the deadline is the
        earliest of everything scheduled. */
    method DispatchBatch(pending: seq<Record>)
      returns (ok: bool, deadline: Option<real>, stopped: bool, ghost visited: nat, ghost cuts: seq<nat>, ghost mids: seq<nat>,
               ghost checks: seq<nat>)
      requires Valid()
      modifies this
      ensures Valid() && clock >= old(clock) && old(log) <= log && old(deliveries) <= deliveries
      // Before each record the worker looks whether it is stopped, and it goes on unless it is.
      ensures visited <= |pending| && |checks| == visited + (if stopped then 1 else 0) && (visited < |pending| <==> stopped)
      ensures forall i | 0 <= i < |checks| :: world.stops(checks[i]) <==> i == visited
      ensures Batch(settings, pending[..visited], log, cuts, mids) && cuts[0] == |old(log)|
      ensures StartsAfter(log[|old(log)|..], old(clock))
      ensures ok <==> Raised(log[|old(log)|..]) == 0
      ensures storageFailures == old(storageFailures) + Raised(log[|old(log)|..])
      ensures storageStreak == old(storageStreak) + Raised(log[|old(log)|..])
      ensures Earliest(deadline, Deadlines(log[|old(log)|..]))
      ensures AlwaysFails(world) && (forall r | r in pending :: !r.malformed) ==>
                visited == |pending| && forall k | 0 <= k < |pending| :: StartsOpen(settings, pending[k].id, log, cuts[k], k, old(clock))
    {
      hide Handled, Batch, Earliest, Raised, Deadlines, OpenUntil, Outcomes, TrailingFailures, StartsFailing, StartsOpen, AlwaysFails,
        FailingSoFar, BatchSoFar, StartsAfter;
      ok, stopped, visited, cuts, mids, checks := true, false, 0, [|log|], [], [];
      var retry: Option<real>, storage: Option<real> := None, None;
      ghost var events: multiset<real>, releases: multiset<real> := multiset{}, multiset{};
      EmptyBatch(settings, pending, log, clock);
      NothingFailed(settings, world, pending, log, clock, failureStreak, circuitOpenUntil);
      for i := 0 to |pending|
        invariant Valid() && clock >= old(clock) && old(deliveries) <= deliveries && storageFailures >= old(storageFailures)
        invariant storageStreak - old(storageStreak) == storageFailures - old(storageFailures)
        invariant |checks| == i && forall k | 0 <= k < i :: !world.stops(checks[k])
        invariant visited == i && !stopped && |mids| == i && |cuts| == i + 1 && cuts[i] == |log|
        invariant BatchSoFar(settings, pending, old(log), log, old(clock), cuts, mids, ok,
                             storageFailures - old(storageFailures), retry, storage, events, releases)
        invariant FailingSoFar(settings, world, pending, log, cuts, old(clock), clock, failureStreak, circuitOpenUntil)
      {
        FailingNeverStops(world, answers);
        stopped := world.stops(answers);
        checks := checks + [answers];
        answers := answers + 1;
        if stopped {
          break;
        }
        label before:
        BatchDeadlines(settings, pending, old(log), log, old(clock), cuts, mids, ok,
                       storageFailures - old(storageFailures), retry, storage, events, releases);
        var stored, retry', storage';
        ghost var delivery, calls, delivered;
        stored, retry', storage', delivery, calls, delivered := VisitRecord(pending[i], retry, storage, events, releases);
        BatchStep(settings, pending, old(log), old@before(log), old(clock), cuts, mids, ok,
                  old@before(storageFailures) - old(storageFailures), retry, storage, events, releases,
                  old@before(clock), delivery, calls, retry', storage');
        FailingStep(settings, world, pending, old@before(log), cuts, old(clock), old@before(clock), old@before(failureStreak),
                    old@before(circuitOpenUntil), delivery, calls, clock, failureStreak, circuitOpenUntil);
        events, releases := events + Deadlines(delivery), releases + Deadlines(calls);
        cuts, mids := cuts + [|log|], mids + [|old@before(log) + delivery|];
        retry, storage, visited, ok := retry', storage', visited + 1, ok && stored;
      }
      FailedAll(settings, world, pending, log, cuts, old(clock), clock, failureStreak, circuitOpenUntil);
      BatchDone(settings, pending, old(log), log, old(clock), cuts, mids, ok, storageFailures - old(storageFailures),
                retry, storage, events, releases);
      deadline := if storage.None? then retry else Earlier(retry, storage.value);
    }

    /** One turn of the worker.  The circuit gates the start of a batch, not its deliveries: a delivery
        starts while the circuit is open exactly if an earlier one of the same batch opened it and
        none has switched it since.  A failed listing is a storage failure of its own. */
    method RunOnce() returns (deadline: Option<real>, ghost turn: Turn)
      requires Valid()
      modifies this
      ensures Valid() && old(log) <= log && old(deliveries) <= deliveries && old(clock) <= turn.now <= clock
      ensures turn.Gated? <==> old(circuitOpenUntil) > turn.now
      ensures turn.Gated? ==> log == old(log) && deadline == None && storageStreak == old(storageStreak)
      ensures turn.Unlisted? <==> old(circuitOpenUntil) <= turn.now && world.lists(old(answers) + 1).None?
      ensures turn.Unlisted? ==>
                log == old(log) && storageStreak == old(storageStreak) + 1 && storageFailures == old(storageFailures) + 1
                && deadline == Some(clock + Backoff(settings, storageStreak))
      ensures turn.Dispatched? ==>
                && world.lists(old(answers) + 1) == Some(turn.pending)
                && turn.visited <= |turn.pending| && (turn.visited < |turn.pending| <==> turn.stopped)
                && Batch(settings, turn.pending[..turn.visited], log, turn.cuts, turn.mids) && turn.cuts[0] == |old(log)|
                && Earliest(deadline, Deadlines(log[|old(log)|..]))
                && storageFailures == old(storageFailures) + Raised(log[|old(log)|..])
                && storageStreak == if Raised(log[|old(log)|..]) == 0 then 0 else old(storageStreak) + Raised(log[|old(log)|..])
      ensures forall j | |old(log)| <= j < |log| && log[j].Started? ::
                OpenUntil(log[..j]) > log[j].at <==> OpenedInBatch(log, |old(log)|, j, log[j].at)
    {
      hide Batch, Earliest, Raised, Deadlines, OpenUntil, Outcomes, TrailingFailures, AlwaysFails, StartsOpen, OpenedInBatch;
      deadline := None;
      var tested := Monotonic();
      turn := Gated(tested);
      if circuitOpenUntil > tested {
        return;
      }
      var pending := world.lists(answers);
      answers := answers + 1;
      if pending.None? {
        turn := Unlisted(tested);
        var delay := RecordStorageFailure();
        var later := Monotonic();
        deadline := Some(later + delay);
        return;
      }
      ghost var before := log;
      var ok, stopped;
      ghost var visited, cuts, mids, checks;
      ok, deadline, stopped, visited, cuts, mids, checks := DispatchBatch(pending.value);
      turn := Dispatched(tested, pending.value, stopped, visited, cuts, mids);
      if ok {
        storageStreak := 0;
      }
      assert log[..|before|] == before;
      forall j | |before| <= j < |log| && log[j].Started?
        ensures OpenUntil(log[..j]) > log[j].at <==> OpenedInBatch(log, |before|, j, log[j].at)
      {
        assert log[|before|..][j - |before|] == log[j];
        OpenOnlyByThisBatch(log, |before|, j, log[j].at);
      }
    }
  }

  /** The circuit does not stop a batch: when the deliveries of as many records as the threshold all
      fail, the next record of the batch is delivered while the circuit is open. */
  method DeliversWhileOpen(settings: Settings, lists: nat -> Option<seq<Record>>, accepts: nat -> bool, ids: seq<string>)
    returns (d: Dispatcher, ghost j: nat)
    requires Sensible(settings) && |ids| == settings.threshold + 1
    ensures fresh(d) && d.settings == settings && d.Valid()
    ensures j < |d.log| && d.log[j].Started? && d.log[j].id == ids[settings.threshold]
    ensures OpenUntil(d.log[..j]) == d.log[j].at + settings.cooldown
  {
    hide Batch, Raised, Deadlines, OpenUntil, Outcomes, Earliest;
    var world := World(n => false, n => true, accepts, n => false, n => 0.0, lists);
    d := new Dispatcher(settings, world, 1.0);
    var pending := seq(|ids|, i requires 0 <= i < |ids| => Record(ids[i], false, 1));
    assert AlwaysFails(world);
    var ok, deadline, stopped;
    ghost var visited, cuts, mids, checks;
    ok, deadline, stopped, visited, cuts, mids, checks := d.DispatchBatch(pending);
    BatchShape(settings, pending[..visited], d.log, cuts, mids);
    j := cuts[settings.threshold];
    assert StartsOpen(settings, pending[settings.threshold].id, d.log, j, settings.threshold, 1.0);
  }

  /** The circuit has been opened exactly when the last deliveries, as many as the threshold, all
      failed. */
  lemma {:induction false} CircuitOpensAtThreshold(d: Dispatcher)
    requires d.Valid()
    ensures d.circuitOpenUntil > 0.0 <==>
            d.settings.threshold <= |d.deliveries|
            && forall i | |d.deliveries| - d.settings.threshold <= i < |d.deliveries| :: !d.deliveries[i]
  {
    TrailingAll(d.deliveries, d.settings.threshold);
  }

  /** A batch up to a record: what the loop knows about the log it has added. */
  ghost predicate BatchSoFar(s: Settings, pending: seq<Record>, log0: seq<Event>, log: seq<Event>, now: real,
                             cuts: seq<nat>, mids: seq<nat>, ok: bool, failures: int,
                             retry: Option<real>, storage: Option<real>, events: multiset<real>, releases: multiset<real>)
    requires |mids| <= |pending|
  {
    && log0 <= log && Batch(s, pending[..|mids|], log, cuts, mids) && cuts[0] == |log0|
    && StartsAfter(log[|log0|..], now)
    && (ok <==> Raised(log[|log0|..]) == 0) && failures == Raised(log[|log0|..])
    && Earliest(retry, events) && Earliest(storage, releases) && events + releases == Deadlines(log[|log0|..])
  }

  lemma {:induction false} EmptyBatch(s: Settings, pending: seq<Record>, log: seq<Event>, now: real)
    ensures BatchSoFar(s, pending, log, log, now, [|log|], [], true, 0, None, None, multiset{}, multiset{})
  {
    assert log[|log|..] == [] && pending[..0] == [];
    NothingYet();
  }

  lemma {:induction false} BatchDeadlines(s: Settings, pending: seq<Record>, log0: seq<Event>, log: seq<Event>, now: real,
                                          cuts: seq<nat>, mids: seq<nat>, ok: bool, failures: int, retry: Option<real>,
                                          storage: Option<real>, events: multiset<real>, releases: multiset<real>)
    requires |mids| <= |pending|
    requires BatchSoFar(s, pending, log0, log, now, cuts, mids, ok, failures, retry, storage, events, releases)
    ensures Earliest(retry, events) && Earliest(storage, releases)
  {
  }

  lemma {:induction false} BatchStep(s: Settings, pending: seq<Record>, log0: seq<Event>, log: seq<Event>, now: real,
                                     cuts: seq<nat>, mids: seq<nat>, ok: bool, failures: int, retry: Option<real>,
                                     storage: Option<real>, events: multiset<real>, releases: multiset<real>,
                                     before: real, delivery: seq<Event>, calls: seq<Event>,
                                     retry': Option<real>, storage': Option<real>)
    requires |mids| < |pending| && before >= now
    requires BatchSoFar(s, pending, log0, log, now, cuts, mids, ok, failures, retry, storage, events, releases)
    requires Handled(s, pending[|mids|], delivery, calls) && StartsAfter(delivery + calls, before)
    requires Earliest(retry', events + Deadlines(delivery)) && Earliest(storage', releases + Deadlines(calls))
    ensures var log' := log + delivery + calls;
            BatchSoFar(s, pending, log0, log', now, cuts + [|log'|], mids + [|log + delivery|],
                       ok && Raised(delivery + calls) == 0, failures + Raised(delivery + calls), retry', storage',
                       events + Deadlines(delivery), releases + Deadlines(calls))
  {
    hide Handled, Batch, Earliest, Raised, Deadlines;
    var log', n := log + delivery + calls, |mids|;
    var added := log[|log0|..];
    BatchGrows(s, pending[..n], log, cuts, mids, pending[n], delivery, calls);
    assert pending[..n + 1] == pending[..n] + [pending[n]];
    BatchShape(s, pending[..n], log, cuts, mids);
    assert log'[|log0|..] == added + (delivery + calls);
    Together(delivery, calls);
    Together(added, delivery + calls);
  }

  lemma {:induction false} BatchShape(s: Settings, records: seq<Record>, log: seq<Event>, cuts: seq<nat>, mids: seq<nat>)
    requires Batch(s, records, log, cuts, mids)
    ensures |cuts| == |records| + 1 && |mids| == |records|
  {
  }

  lemma {:induction false} BatchDone(s: Settings, pending: seq<Record>, log0: seq<Event>, log: seq<Event>, now: real,
                                     cuts: seq<nat>, mids: seq<nat>, ok: bool, failures: int, retry: Option<real>,
                                     storage: Option<real>, events: multiset<real>, releases: multiset<real>)
    requires |mids| <= |pending|
    requires BatchSoFar(s, pending, log0, log, now, cuts, mids, ok, failures, retry, storage, events, releases)
    ensures log0 <= log && Batch(s, pending[..|mids|], log, cuts, mids) && cuts[0] == |log0|
    ensures StartsAfter(log[|log0|..], now)
    ensures (ok <==> Raised(log[|log0|..]) == 0) && failures == Raised(log[|log0|..])
    ensures Earliest(if storage.None? then retry else Earlier(retry, storage.value), Deadlines(log[|log0|..]))
  {
    EarliestOfTwo(retry, events, storage, releases);
  }

  lemma {:induction false} FailingSanitises(w: World, n: nat)
    ensures AlwaysFails(w) ==> w.sanitises(n)
  {
  }

  lemma {:induction false} FailingNeverStops(w: World, n: nat)
    ensures AlwaysFails(w) ==> !w.stops(n)
  {
  }

  /** Every delivery of some events starts at a given time or later. */
  ghost predicate StartsAfter(events: seq<Event>, now: real) {
    forall k | 0 <= k < |events| && events[k].Started? :: events[k].at >= now
  }

  lemma {:induction false} NothingEnds(log: seq<Event>, events: seq<Event>)
    requires forall e | e in events :: !e.Ended?
    ensures OpenUntil(log + events) == OpenUntil(log) && Outcomes(log + events) == Outcomes(log)
    decreases |events|
  {
    hide OpenUntil, Outcomes;
    if events == [] {
      assert log + events == log;
    } else {
      var n := |events| - 1;
      assert events[n] in events;
      assert log + events == (log + events[..n]) + [events[n]];
      OpenUntilOne(log + events[..n], events[n]);
      NothingEnds(log, events[..n]);
    }
  }
}
