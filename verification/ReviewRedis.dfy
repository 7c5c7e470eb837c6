/** The shared Redis keys behind reviewed edits, as a state machine over atomic commands.

    Any number of dashboard processes issue commands in any order; a run is the sequence of
    commands in the order in which Redis executes them.  The theorems: within one data
    generation a revision is advanced at most once, and an advance ends the life of every
    review that was based on an earlier revision.
 */
module ReviewRedis {
  import opened Wrappers

  type Key = string

  /** Epoch markers are random UUIDs; they are modelled as a supply of fresh numbers. */
  type Epoch = nat

  datatype State = State(epoch: Option<Epoch>, revisions: map<Key, nat>, supply: Epoch, runId: nat)

  const INITIAL := State(None, map[], 0, 0)

  datatype Command =
    | CreateEpoch                                                  // SET epoch <uuid> NX
    | CreateRevision(key: Key)                                     // SET revision 0 NX
    | Advance(caller: nat, key: Key, epoch: Epoch, expected: int)  // the compare-and-increment script
    | Flush                                                        // all data is lost
    | Restart                                                      // the server process is replaced

  /** The reply of the compare-and-increment script. */
  function AdvanceReply(s: State, key: Key, epoch: Epoch, expected: int): int {
    if s.epoch != Some(epoch) then -1
    else if key !in s.revisions || s.revisions[key] != expected then 0
    else s.revisions[key] + 1
  }

  function Execute(s: State, c: Command): State {
    match c
    case CreateEpoch => if s.epoch.None? then s.(epoch := Some(s.supply), supply := s.supply + 1) else s
    case CreateRevision(key) => if key in s.revisions then s else s.(revisions := s.revisions[key := 0])
    case Advance(_, key, epoch, expected) =>
      if AdvanceReply(s, key, epoch, expected) > 0 then s.(revisions := s.revisions[key := s.revisions[key] + 1]) else s
    case Flush => s.(epoch := None, revisions := map[])
    case Restart => s.(runId := s.runId + 1)
  }

  function Run(s: State, run: seq<Command>): State
    decreases |run|
  {
    if run == [] then s else Run(Execute(s, run[0]), run[1..])
  }

  lemma {:induction false} RunConcat(s: State, a: seq<Command>, b: seq<Command>)
    ensures Run(s, a + b) == Run(Run(s, a), b)
    decreases |a|
  {
    if a == [] {
      assert a + b == b;
    } else {
      assert (a + b)[1..] == a[1..] + b;
      RunConcat(Execute(s, a[0]), a[1..], b);
    }
  }

  /** The state in which the command at a position of a run is executed. */
  function Before(run: seq<Command>, i: nat): State
    requires i <= |run|
  {
    Run(INITIAL, run[..i])
  }

  lemma {:induction false} BeforeNext(run: seq<Command>, i: nat)
    requires i < |run|
    ensures Before(run, i + 1) == Execute(Before(run, i), run[i])
  {
    assert run[..i + 1] == run[..i] + [run[i]];
    RunConcat(INITIAL, run[..i], [run[i]]);
    assert Run(Before(run, i), [run[i]]) == Execute(Before(run, i), run[i]);
  }

  /** The command at a position advances a revision of a key in a data generation. */
  ghost predicate Advances(run: seq<Command>, i: nat, key: Key, epoch: Epoch, revision: nat) {
    && i < |run|
    && run[i].Advance? && run[i].key == key && run[i].epoch == epoch && run[i].expected == revision
    && AdvanceReply(Before(run, i), key, epoch, revision) == revision + 1
  }

  /** A review of a revision is alive while its generation and its revision are current. */
  ghost predicate Alive(s: State, key: Key, epoch: Epoch, revision: nat) {
    s.epoch == Some(epoch) && key in s.revisions && s.revisions[key] == revision
  }

  /** A review can never become alive again: its generation is over or its revision is past. */
  ghost predicate Dead(s: State, key: Key, epoch: Epoch, revision: nat) {
    && epoch < s.supply
    && (s.epoch == Some(epoch) ==> key in s.revisions && s.revisions[key] > revision)
  }

  ghost predicate Wellformed(s: State) {
    s.epoch.Some? ==> s.epoch.value < s.supply
  }

  lemma {:induction false} ExecuteKeepsWellformed(s: State, c: Command)
    requires Wellformed(s)
    ensures Wellformed(Execute(s, c)) && s.supply <= Execute(s, c).supply
  {
  }

  lemma {:induction false} RunKeepsWellformed(s: State, run: seq<Command>)
    requires Wellformed(s)
    ensures Wellformed(Run(s, run)) && s.supply <= Run(s, run).supply
    decreases |run|
  {
    if run != [] {
      ExecuteKeepsWellformed(s, run[0]);
      RunKeepsWellformed(Execute(s, run[0]), run[1..]);
    }
  }

  lemma {:induction false} ExecuteKeepsDead(s: State, c: Command, key: Key, epoch: Epoch, revision: nat)
    requires Dead(s, key, epoch, revision)
    ensures Dead(Execute(s, c), key, epoch, revision)
  {
  }

  lemma {:induction false} RunKeepsDead(s: State, run: seq<Command>, key: Key, epoch: Epoch, revision: nat)
    requires Dead(s, key, epoch, revision)
    ensures Dead(Run(s, run), key, epoch, revision)
    decreases |run|
  {
    if run != [] {
      ExecuteKeepsDead(s, run[0], key, epoch, revision);
      RunKeepsDead(Execute(s, run[0]), run[1..], key, epoch, revision);
    }
  }

  /** From the moment a review is dead, no later command of the run advances its revision. */
  lemma {:induction false} DeadNeverAdvances(run: seq<Command>, i: nat, j: nat, key: Key, epoch: Epoch, revision: nat)
    requires i <= j <= |run| && Dead(Before(run, i), key, epoch, revision)
    ensures Dead(Before(run, j), key, epoch, revision)
    ensures !Advances(run, j, key, epoch, revision)
  {
    assert run[..j] == run[..i] + run[i..j];
    RunConcat(INITIAL, run[..i], run[i..j]);
    RunKeepsDead(Before(run, i), run[i..j], key, epoch, revision);
  }

  /** An advance kills every review of the same key and generation up to the advanced revision. */
  lemma {:induction false} AdvanceKills(run: seq<Command>, i: nat, key: Key, epoch: Epoch, revision: nat, earlier: nat)
    requires Advances(run, i, key, epoch, revision) && earlier <= revision
    ensures Dead(Before(run, i + 1), key, epoch, earlier)
  {
    RunKeepsWellformed(INITIAL, run[..i]);
    BeforeNext(run, i);
  }

  /** In any interleaving of any number of processes, a revision is advanced at most once. */
  lemma {:induction false} AdvancedAtMostOnce(run: seq<Command>, i: nat, j: nat, key: Key, epoch: Epoch, revision: nat)
    requires Advances(run, i, key, epoch, revision) && Advances(run, j, key, epoch, revision)
    ensures i == j
  {
    if i < j {
      AdvanceKills(run, i, key, epoch, revision, revision);
      DeadNeverAdvances(run, i + 1, j, key, epoch, revision);
    } else if j < i {
      AdvanceKills(run, j, key, epoch, revision, revision);
      DeadNeverAdvances(run, j + 1, i, key, epoch, revision);
    }
  }

  /** So at most one caller is ever told that it advanced a given revision. */
  lemma {:induction false} OneCallerAdvances(run: seq<Command>, i: nat, j: nat, key: Key, epoch: Epoch, revision: nat)
    requires Advances(run, i, key, epoch, revision) && Advances(run, j, key, epoch, revision)
    ensures run[i].caller == run[j].caller
  {
    AdvancedAtMostOnce(run, i, j, key, epoch, revision);
  }

  /** In one generation the revision of a key never falls, so every review read no later than
      an advance is dead after it. */
  lemma {:induction false} RevisionsNeverFall(s: State, run: seq<Command>, key: Key, epoch: Epoch, revision: nat)
    requires Wellformed(s) && Alive(s, key, epoch, revision) && Run(s, run).epoch == Some(epoch)
    ensures key in Run(s, run).revisions && Run(s, run).revisions[key] >= revision
    decreases |run|
  {
    if run != [] {
      var t := Execute(s, run[0]);
      ExecuteKeepsWellformed(s, run[0]);
      if t.epoch == Some(epoch) {
        RevisionsNeverFall(t, run[1..], key, epoch, t.revisions[key]);
      } else {
        GenerationIsOver(t, run[1..], epoch);
      }
    }
  }

  /** A generation that has ended does not come back. */
  lemma {:induction false} GenerationIsOver(s: State, run: seq<Command>, epoch: Epoch)
    requires epoch < s.supply && s.epoch != Some(epoch)
    ensures Run(s, run).epoch != Some(epoch)
    decreases |run|
  {
    if run != [] {
      GenerationIsOver(Execute(s, run[0]), run[1..], epoch);
    }
  }

  /** A generation is one unbroken stretch of the run. */
  lemma {:induction false} GenerationIsUnbroken(run: seq<Command>, i: nat, j: nat, k: nat, epoch: Epoch)
    requires i <= j <= k <= |run|
    requires Before(run, i).epoch == Some(epoch) && Before(run, k).epoch == Some(epoch)
    ensures Before(run, j).epoch == Some(epoch)
  {
    RunKeepsWellformed(INITIAL, run[..i]);
    assert run[..j] == run[..i] + run[i..j];
    RunConcat(INITIAL, run[..i], run[i..j]);
    RunKeepsWellformed(Before(run, i), run[i..j]);
    assert run[..k] == run[..j] + run[j..k];
    RunConcat(INITIAL, run[..j], run[j..k]);
    if Before(run, j).epoch != Some(epoch) {
      GenerationIsOver(Before(run, j), run[j..k], epoch);
    }
  }

  /** A review reads its generation first and its revision later, with any commands between. */
  ghost predicate Reviewed(run: seq<Command>, epochAt: nat, revisionAt: nat, key: Key, epoch: Epoch, revision: int) {
    && epochAt <= revisionAt <= |run|
    && Before(run, epochAt).epoch == Some(epoch)
    && key in Before(run, revisionAt).revisions
    && Before(run, revisionAt).revisions[key] == revision
  }

  /** Any advance of the key and generation after a review ends it, whoever issued the advance
      and whatever revision it carried: the review can never be consumed afterwards. */
  lemma {:induction false} LaterAdvanceKillsReview(run: seq<Command>, epochAt: nat, revisionAt: nat, j: nat,
                                                   key: Key, epoch: Epoch, read: nat, revision: nat)
    requires Reviewed(run, epochAt, revisionAt, key, epoch, read)
    requires revisionAt <= j && Advances(run, j, key, epoch, revision)
    ensures forall k | j < k <= |run| :: !Advances(run, k, key, epoch, read)
  {
    GenerationIsUnbroken(run, epochAt, revisionAt, j, epoch);
    RunKeepsWellformed(INITIAL, run[..revisionAt]);
    assert run[..j] == run[..revisionAt] + run[revisionAt..j];
    RunConcat(INITIAL, run[..revisionAt], run[revisionAt..j]);
    RevisionsNeverFall(Before(run, revisionAt), run[revisionAt..j], key, epoch, read);
    AdvanceKills(run, j, key, epoch, revision, read);
    forall k | j < k <= |run|
      ensures !Advances(run, k, key, epoch, read)
    {
      DeadNeverAdvances(run, j + 1, k, key, epoch, read);
    }
  }
}
