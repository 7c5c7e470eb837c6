/** One process's view of the shared review state: it fails closed on anything unexpected.

    A call takes the state lock in sections, and releases it between them; other threads of
    the process run whole sections in between.  The functions give each section's outcome
    for arbitrary replies; the theorem about them needs no assumption on Redis or on the threads.
 */
module ReviewCoordinator {
  import opened ReviewRedis
  import opened Wrappers

  /** A Redis reply: the call raised, or it returned. */
  datatype Reply<+T> = Raised | Value(value: T)

  /** What a stored revision may read as. */
  datatype Text = Missing | Malformed | Number(n: int)

  /** Unavailable stands for the raised coordination error. */
  datatype Result<+T> = Ok(value: T) | Unavailable

  datatype View = View(epoch: Option<Epoch>, runId: Option<nat>, keys: set<Key>, highWater: map<Key, int>)

  function HighWater(v: View, key: Key): int {
    if key in v.highWater then v.highWater[key] else -1
  }

  // ----- Sections as functions of their replies ------------------------------------------------

  datatype EpochReplies = EpochReplies(
    info: Reply<Option<nat>>, first: Reply<Option<Epoch>>, created: Reply<()>, second: Reply<Option<Epoch>>)

  function EpochSection(v: View, r: EpochReplies): (View, Result<Epoch>) {
    if r.info.Raised? || r.info.value.None? || (v.runId.Some? && r.info.value != v.runId) then (v, Unavailable)
    else
      var known := v.(runId := r.info.value);
      if r.first.Raised? then (known, Unavailable)
      else
        var create := r.first.value.None? && v.epoch.None?;
        if create && (r.created.Raised? || r.second.Raised?) then (known, Unavailable)
        else
          var value := if create then r.second.value else r.first.value;
          if value.None? || (v.epoch.Some? && value != v.epoch) then (known, Unavailable)
          else (known.(epoch := value), Ok(value.value))
  }

  datatype RevisionReplies = RevisionReplies(first: Reply<Text>, created: Reply<()>, second: Reply<Text>)

  function RevisionSection(v: View, key: Key, r: RevisionReplies): (View, Result<int>) {
    if r.first.Raised? then (v, Unavailable)
    else
      var create := r.first.value.Missing?;
      if create && (key in v.keys || r.created.Raised? || r.second.Raised?) then (v, Unavailable)
      else
        var value := if create then r.second.value else r.first.value;
        if !value.Number? || value.n < 0 || value.n < HighWater(v, key) then (v, Unavailable)
        else (v.(keys := v.keys + {key}, highWater := v.highWater[key := value.n]), Ok(value.n))
  }

  function AdvanceSection(v: View, key: Key, expected: int, result: Reply<int>): (View, Result<bool>) {
    if expected < HighWater(v, key) || result.Raised? then (v, Unavailable)
    else if result.value != expected + 1 then (v, Ok(false))
    else
      var mark := if HighWater(v, key) < expected + 1 then expected + 1 else HighWater(v, key);
      (v.(keys := v.keys + {key}, highWater := v.highWater[key := mark]), Ok(true))
  }

  // ----- When a section answers ----------------------------------------------------------------

  /** The reply fits what has been seen. */
  predicate Fits<T(==)>(seen: Option<T>, reply: Reply<Option<T>>) {
    reply.Value? && reply.value.Some? && (seen.None? || seen == reply.value)
  }

  /** The epoch's section answers exactly if the server is the same, and the stored epoch, or the one
      stored by the first section ever, is the one that has been seen. */
  lemma {:induction false} EpochAnswers(v: View, r: EpochReplies)
    ensures var (w, result) := EpochSection(v, r);
            && (result.Ok? <==>
                  && Fits(v.runId, r.info)
                  && (Fits(v.epoch, r.first)
                      || (v.epoch.None? && r.first == Value(None) && r.created.Value? && Fits(None, r.second))))
            && (result.Ok? ==> w == View(Some(result.value), r.info.value, v.keys, v.highWater))
            && (result.Ok? && r.first.value.Some? ==> Some(result.value) == r.first.value)
            && (result.Ok? && r.first.value.None? ==> Some(result.value) == r.second.value)
            && (result.Unavailable? ==> w == if Fits(v.runId, r.info) then v.(runId := r.info.value) else v)
  {
  }

  /** The revision's section answers exactly with a number that has not fallen; a revision that has
      been seen must still be there. */
  lemma {:induction false} RevisionAnswers(v: View, key: Key, r: RevisionReplies)
    ensures var (w, result) := RevisionSection(v, key, r);
            && (forall n :: result == Ok(n) <==>
                  && n >= 0 && (key in v.highWater ==> n >= v.highWater[key])
                  && (r.first == Value(Number(n))
                      || (key !in v.keys && r.first == Value(Missing) && r.created.Value? && r.second == Value(Number(n)))))
            && (result.Ok? ==> w == View(v.epoch, v.runId, v.keys + {key}, v.highWater[key := result.value]))
            && (result.Unavailable? ==> w == v)
  {
  }

  /** The last section answers exactly if nothing newer has been seen and the script replied; it
      reports success exactly for the next revision. */
  lemma {:induction false} AdvanceAnswers(v: View, key: Key, expected: int, reply: Reply<int>)
    requires expected >= 0
    ensures var (w, result) := AdvanceSection(v, key, expected, reply);
            && (result.Ok? <==> reply.Value? && (key in v.highWater ==> v.highWater[key] <= expected))
            && (result.Ok? ==> result.value == (reply.value - expected == 1))
            && (result == Ok(true) ==> w == View(v.epoch, v.runId, v.keys + {key}, v.highWater[key := expected + 1]))
            && (result != Ok(true) ==> w == v)
  {
  }

  // ----- Whole runs against arbitrary replies --------------------------------------------------

  /** The sections of all threads of a process, in the order in which they hold the lock. */
  datatype Section =
    | AskEpoch(er: EpochReplies)
    | AskRevision(key: Key, rr: RevisionReplies)
    | AskAdvance(key: Key, expected: int, result: Reply<int>)

  datatype Outcome = EpochIs(epoch: Epoch) | RevisionIs(key: Key, revision: int) | Refused

  function Perform(v: View, section: Section): (View, Outcome) {
    match section
    case AskEpoch(er) =>
      var (w, r) := EpochSection(v, er);
      (w, if r.Ok? then EpochIs(r.value) else Refused)
    case AskRevision(key, rr) =>
      var (w, r) := RevisionSection(v, key, rr);
      (w, if r.Ok? then RevisionIs(key, r.value) else Refused)
    case AskAdvance(key, expected, result) =>
      var (w, r) := AdvanceSection(v, key, expected, result);
      (w, if r == Ok(true) then RevisionIs(key, expected + 1) else Refused)
  }

  function Outcomes(v: View, sections: seq<Section>): seq<Outcome>
    decreases |sections|
  {
    if sections == [] then []
    else
      var (w, outcome) := Perform(v, sections[0]);
      [outcome] + Outcomes(w, sections[1..])
  }

  /** A later view keeps the epoch and never lowers a mark. */
  ghost predicate Extends(v: View, w: View) {
    && (v.epoch.Some? ==> w.epoch == v.epoch)
    && (v.runId.Some? ==> w.runId == v.runId)
    && v.keys <= w.keys
    && forall key :: HighWater(v, key) <= HighWater(w, key)
  }

  lemma {:induction false} ExtendsTwice(u: View, v: View, w: View)
    requires Extends(u, v) && Extends(v, w)
    ensures Extends(u, w)
  {
    forall key
      ensures HighWater(u, key) <= HighWater(w, key)
    {
      assert HighWater(u, key) <= HighWater(v, key) <= HighWater(w, key);
    }
  }

  lemma {:induction false} PerformExtends(v: View, section: Section)
    ensures var (w, outcome) := Perform(v, section);
            && Extends(v, w)
            && (outcome.EpochIs? ==> w.epoch == Some(outcome.epoch))
            && (outcome.RevisionIs? ==> HighWater(v, outcome.key) <= outcome.revision == HighWater(w, outcome.key))
  {
  }

  /** An outcome is consistent with everything a view has seen. */
  ghost predicate Respects(v: View, outcome: Outcome) {
    && (outcome.EpochIs? && v.epoch.Some? ==> outcome.epoch == v.epoch.value)
    && (outcome.RevisionIs? ==> HighWater(v, outcome.key) <= outcome.revision)
  }

  lemma {:induction false} OutcomesRespectView(v: View, sections: seq<Section>, j: nat)
    requires j < |Outcomes(v, sections)|
    ensures Respects(v, Outcomes(v, sections)[j])
    decreases |sections|
  {
    hide Perform;
    var (w, outcome) := Perform(v, sections[0]);
    PerformExtends(v, sections[0]);
    if j > 0 {
      OutcomesRespectView(w, sections[1..], j - 1);
    }
  }

  /** Whatever Redis replies, one process only ever sees one epoch, and the revisions it sees of
      a key never decrease; every other section is refused. */
  lemma {:induction false} FailsClosed(v: View, sections: seq<Section>, i: nat, j: nat)
    requires i <= j < |Outcomes(v, sections)|
    ensures var a, b := Outcomes(v, sections)[i], Outcomes(v, sections)[j];
            && (a.EpochIs? && b.EpochIs? ==> a.epoch == b.epoch)
            && (a.RevisionIs? && b.RevisionIs? && a.key == b.key ==> a.revision <= b.revision)
    decreases |sections|
  {
    hide Perform;
    if i < j {
      var (w, outcome) := Perform(v, sections[0]);
      PerformExtends(v, sections[0]);
      if i == 0 {
        OutcomesRespectView(w, sections[1..], j - 1);
      } else {
        FailsClosed(w, sections[1..], i - 1, j - 1);
      }
    }
  }
}
