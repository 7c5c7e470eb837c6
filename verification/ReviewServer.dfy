/** A process's connection to the shared Redis server, and the coordinator that uses it.

    Before each command any number of commands of other processes may run, and each command
    may fail, be lost, or take effect with its reply lost.  Before each section under the state
    lock any number of sections of other threads of the process may run.
 */
module ReviewServer {
  import opened ReviewRedis
  import opened ReviewCoordinator
  import opened Wrappers

  class Server {
    /** The commands executed so far, by all processes. */
    ghost var run: seq<Command>
    var state: State
    /** On a calm server no other process runs and no command fails. */
    const calm: bool

    ghost predicate Valid()
      reads this
    {
      state == Run(INITIAL, run)
    }

    constructor (calm: bool)
      ensures Valid() && run == [] && this.calm == calm
    {
      state := INITIAL;
      run := [];
      this.calm := calm;
    }

    method Fails() returns (fails: bool)
      ensures calm ==> !fails
    {
      fails := *;
      if calm {
        fails := false;
      }
    }

    /** Other processes run. */
    method Others()
      requires Valid()
      modifies this
      ensures Valid() && old(run) <= run
      ensures calm ==> unchanged(this)
    {
      if !calm {
        var commands: seq<Command> := *;
        RunConcat(INITIAL, run, commands);
        state := Run(state, commands);
        run := run + commands;
      }
    }

    method Perform(command: Command)
      requires Valid()
      modifies this
      ensures Valid() && run == old(run) + [command] && state == Execute(old(state), command)
    {
      RunConcat(INITIAL, run, [command]);
      assert Run(state, [command]) == Execute(state, command);
      state := Execute(state, command);
      run := run + [command];
    }

    method RunId() returns (r: Reply<Option<nat>>)
      requires Valid()
      modifies this
      ensures Valid() && old(run) <= run
      ensures calm ==> unchanged(this) && r == Value(Some(state.runId))
    {
      Others();
      var fails := Fails();
      r := if fails then Raised else Value(Some(state.runId));
    }

    method GetEpoch() returns (r: Reply<Option<Epoch>>)
      requires Valid()
      modifies this
      ensures Valid() && old(run) <= run
      ensures r.Value? ==> r.value == state.epoch
      ensures calm ==> unchanged(this) && r.Value?
    {
      Others();
      var fails := Fails();
      r := if fails then Raised else Value(state.epoch);
    }

    method GetRevision(key: Key) returns (r: Reply<Text>)
      requires Valid()
      modifies this
      ensures Valid() && old(run) <= run
      ensures r.Value? ==> r.value == if key in state.revisions then Number(state.revisions[key]) else Missing
      ensures calm ==> unchanged(this) && r.Value?
    {
      Others();
      var fails := Fails();
      r := if fails then Raised else Value(if key in state.revisions then Number(state.revisions[key]) else Missing);
    }

    /** A set-if-absent; its reply carries no information the caller uses. */
    method SetIfAbsent(command: Command) returns (r: Reply<()>)
      requires Valid() && (command.CreateEpoch? || command.CreateRevision?)
      modifies this
      ensures Valid() && old(run) <= run
      ensures calm ==> r.Value? && run == old(run) + [command] && state == Execute(old(state), command)
    {
      Others();
      var lost := Fails();
      if lost {
        return Raised;
      }
      Perform(command);
      var fails := Fails();
      r := if fails then Raised else Value(());
    }

    /** The compare-and-increment script; a reply is that of the command it issued. */
    method EvalAdvance(caller: nat, key: Key, epoch: Epoch, expected: int) returns (r: Reply<int>)
      requires Valid()
      modifies this
      ensures Valid() && old(run) <= run
      ensures r.Value? ==>
                && |old(run)| < |run|
                && run[|run| - 1] == Advance(caller, key, epoch, expected)
                && r.value == AdvanceReply(Before(run, |run| - 1), key, epoch, expected)
      ensures calm ==>
                && r == Value(AdvanceReply(old(state), key, epoch, expected))
                && state == Execute(old(state), Advance(caller, key, epoch, expected))
    {
      Others();
      var lost := Fails();
      if lost {
        return Raised;
      }
      ghost var before := run;
      var result := AdvanceReply(state, key, epoch, expected);
      Perform(Advance(caller, key, epoch, expected));
      assert run[..|run| - 1] == before;
      var fails := Fails();
      r := if fails then Raised else Value(result);
    }
  }

  /** The epoch was current at some point of the run between the two positions. */
  ghost predicate EpochSeen(run: seq<Command>, from: nat, epoch: Epoch, at: nat) {
    from <= at <= |run| && Before(run, at).epoch == Some(epoch)
  }

  /** The epoch is the one there was, or the first one; the revisions stay. */
  predicate KeepsEpoch(s: State, s': State, epoch: Epoch) {
    s'.epoch == Some(epoch) && (s.epoch.Some? ==> s' == s) && s'.revisions == s.revisions && s'.runId == s.runId
  }

  /** The same for a revision, which starts at zero. */
  predicate KeepsRevision(s: State, s': State, key: Key, revision: int) {
    && key in s'.revisions && s'.revisions[key] == revision
    && s' == if key in s.revisions then s else s.(revisions := s.revisions[key := 0])
  }

  /** A view that contradicts nothing in the state. */
  predicate Agrees(v: View, s: State) {
    && (v.epoch.Some? ==> v.epoch == s.epoch)
    && (v.runId.Some? ==> v.runId == Some(s.runId))
    && (forall key | key in v.keys :: key in s.revisions)
    && forall key | key in v.highWater :: key in s.revisions && v.highWater[key] <= s.revisions[key]
  }

  lemma {:induction false} AgreesOnEpoch(v: View, s: State)
    ensures Agrees(v, s) ==> (v.epoch.Some? ==> v.epoch == s.epoch) && (v.runId.Some? ==> v.runId == Some(s.runId))
  {
  }

  lemma {:induction false} AgreesAfterEpoch(v: View, s: State, s': State, runId: nat, epoch: Epoch)
    ensures Agrees(v, s) && runId == s.runId && s'.epoch == Some(epoch) && s' == (if s.epoch.Some? then s else Execute(s, CreateEpoch)) ==>
              KeepsEpoch(s, s', epoch) && Agrees(v.(epoch := Some(epoch), runId := Some(runId)), s')
  {
  }

  class Coordinator {
    const server: Server
    var observedEpoch: Option<Epoch>
    var observedRunId: Option<nat>
    var observedKeys: set<Key>
    var highWater: map<Key, int>

    constructor (server: Server)
      ensures this.server == server && Seen() == View(None, None, {}, map[])
    {
      this.server := server;
      observedEpoch, observedRunId, observedKeys, highWater := None, None, {}, map[];
    }

    function Seen(): View
      reads this
    {
      View(observedEpoch, observedRunId, observedKeys, highWater)
    }

    /** The process has seen nothing that the server no longer says. */
    predicate InStep()
      reads this, server
    {
      Agrees(Seen(), server.state)
    }

    /** The section that reads the epoch. */
    method ReadEpoch() returns (r: Result<Epoch>, ghost replies: EpochReplies, ghost at: nat)
      requires server.Valid()
      modifies this, server
      ensures server.Valid() && old(server.run) <= server.run
      ensures (Seen(), r) == EpochSection(old(Seen()), replies)
      ensures r.Ok? ==> EpochSeen(server.run, |old(server.run)|, r.value, at)
      ensures server.calm && old(InStep()) ==> InStep() && r.Ok? && KeepsEpoch(old(server.state), server.state, r.value)
    {
      hide Agrees, KeepsEpoch, Run;
      ghost var v, s := Seen(), server.state;
      AgreesOnEpoch(v, s);
      at := 0;
      replies := EpochReplies(Raised, Raised, Raised, Raised);
      var info := server.RunId();
      replies := replies.(info := info);
      if info.Raised? || info.value.None? {
        return Unavailable, replies, at;
      }
      if observedRunId.Some? && info.value != observedRunId {
        return Unavailable, replies, at;
      }
      observedRunId := info.value;
      var value := server.GetEpoch();
      replies := replies.(first := value);
      if value.Raised? {
        return Unavailable, replies, at;
      }
      if value.value.None? && observedEpoch.None? {
        var created := server.SetIfAbsent(CreateEpoch);
        replies := replies.(created := created);
        if created.Raised? {
          return Unavailable, replies, at;
        }
        value := server.GetEpoch();
        replies := replies.(second := value);
        if value.Raised? {
          return Unavailable, replies, at;
        }
      }
      if value.value.None? || (observedEpoch.Some? && value.value != observedEpoch) {
        return Unavailable, replies, at;
      }
      observedEpoch := value.value;
      AgreesAfterEpoch(v, s, server.state, info.value.value, value.value.value);
      at := |server.run|;
      assert server.run[..at] == server.run;
      return Ok(value.value.value), replies, at;
    }

    /** The section that reads a revision. */
    method ReadRevision(key: Key) returns (r: Result<int>, ghost replies: RevisionReplies, ghost at: nat)
      requires server.Valid()
      modifies this, server
      ensures server.Valid() && old(server.run) <= server.run
      ensures (Seen(), r) == RevisionSection(old(Seen()), key, replies)
      ensures r.Ok? ==>
                && |old(server.run)| <= at <= |server.run|
                && key in Before(server.run, at).revisions && Before(server.run, at).revisions[key] == r.value
      ensures server.calm && old(InStep()) ==> InStep() && r.Ok? && KeepsRevision(old(server.state), server.state, key, r.value)
    {
      at := 0;
      replies := RevisionReplies(Raised, Raised, Raised);
      var value := server.GetRevision(key);
      replies := replies.(first := value);
      if value.Raised? {
        return Unavailable, replies, at;
      }
      if value.value.Missing? {
        if key in observedKeys {
          return Unavailable, replies, at;
        }
        var created := server.SetIfAbsent(CreateRevision(key));
        replies := replies.(created := created);
        if created.Raised? {
          return Unavailable, replies, at;
        }
        value := server.GetRevision(key);
        replies := replies.(second := value);
        if value.Raised? {
          return Unavailable, replies, at;
        }
      }
      if !value.value.Number? {
        return Unavailable, replies, at;
      }
      var revision := value.value.n;
      if revision < 0 || revision < (if key in highWater then highWater[key] else -1) {
        return Unavailable, replies, at;
      }
      observedKeys := observedKeys + {key};
      highWater := highWater[key := revision];
      at := |server.run|;
      assert server.run[..at] == server.run;
      return Ok(revision), replies, at;
    }

    /** The section that advances; true only if this caller's own command advanced the revision. */
    method TryAdvance(caller: nat, key: Key, expected: nat, expectedEpoch: Epoch)
      returns (r: Result<bool>, ghost result: Reply<int>, ghost at: nat)
      requires server.Valid()
      modifies this, server
      ensures server.Valid() && old(server.run) <= server.run
      ensures (Seen(), r) == AdvanceSection(old(Seen()), key, expected, result)
      ensures r == Ok(true) ==>
                && |old(server.run)| <= at
                && Advances(server.run, at, key, expectedEpoch, expected)
                && server.run[at].caller == caller
      ensures server.calm && old(InStep()) ==> InStep()
      ensures server.calm && old(InStep()) && key in old(server.state).revisions && expected >= old(server.state).revisions[key] ==>
                r == Ok(Alive(old(server.state), key, expectedEpoch, expected))
                && server.state == Execute(old(server.state), Advance(caller, key, expectedEpoch, expected))
    {
      at, result := 0, Raised;
      var mark := if key in highWater then highWater[key] else -1;
      if expected < mark {
        return Unavailable, result, at;
      }
      var reply := server.EvalAdvance(caller, key, expectedEpoch, expected);
      result := reply;
      if reply.Raised? {
        return Unavailable, result, at;
      }
      var advanced := reply.value == expected + 1;
      if advanced {
        highWater := highWater[key := if mark < expected + 1 then expected + 1 else mark];
        observedKeys := observedKeys + {key};
        at := |server.run| - 1;
      }
      return Ok(advanced), result, at;
    }

    /** Other threads of the process run any number of sections. */
    method OtherThreads()
      requires server.Valid()
      modifies this, server
      ensures server.Valid() && old(server.run) <= server.run
      ensures Extends(old(Seen()), Seen())
      ensures server.calm ==> unchanged(this, server)
    {
      hide EpochSection, RevisionSection, AdvanceSection, Extends, Run, Agrees, KeepsEpoch, KeepsRevision;
      ExtendsItself(Seen());
      var sections: int := *;
      if server.calm {
        return;
      }
      while sections > 0
        invariant server.Valid() && old(server.run) <= server.run
        invariant Extends(old(Seen()), Seen())
      {
        sections := sections - 1;
        var which: nat, key: Key, caller: nat, expected: nat, epoch: Epoch := *, *, *, *, *;
        ghost var seen := Seen();
        if which == 0 {
          var _, replies, _ := ReadEpoch();
          SectionExtends(seen, AskEpoch(replies));
        } else if which == 1 {
          var _, replies, _ := ReadRevision(key);
          SectionExtends(seen, AskRevision(key, replies));
        } else {
          var _, result, _ := TryAdvance(caller, key, expected, epoch);
          SectionExtends(seen, AskAdvance(key, expected, result));
        }
        ExtendsTwice(old(Seen()), seen, Seen());
      }
    }

    /** The current epoch: one section, which may find what other threads have left. */
    method CurrentEpoch() returns (r: Result<Epoch>, ghost replies: EpochReplies, ghost entered: View, ghost at: nat)
      requires server.Valid()
      modifies this, server
      ensures server.Valid() && old(server.run) <= server.run
      ensures Extends(old(Seen()), entered) && (Seen(), r) == EpochSection(entered, replies)
      ensures Extends(old(Seen()), Seen())
      ensures r.Ok? ==> EpochSeen(server.run, |old(server.run)|, r.value, at)
      ensures server.calm && old(InStep()) ==> InStep() && r.Ok? && KeepsEpoch(old(server.state), server.state, r.value)
    {
      hide EpochSection, Extends, Run, Agrees, KeepsEpoch;
      OtherThreads();
      entered := Seen();
      r, replies, at := ReadEpoch();
      SectionExtends(entered, AskEpoch(replies));
      ExtendsTwice(old(Seen()), entered, Seen());
    }

    /** The current revision: the epoch's section and then, if it succeeds, the revision's. */
    method CurrentRevision(key: Key)
      returns (r: Result<int>, ghost replies: RevisionReplies, ghost entered: Option<View>, ghost at: nat)
      requires server.Valid()
      modifies this, server
      ensures server.Valid() && old(server.run) <= server.run
      ensures entered.None? ==> r.Unavailable?
      ensures entered.Some? ==>
                Extends(old(Seen()), entered.value) && (Seen(), r) == RevisionSection(entered.value, key, replies)
      ensures Extends(old(Seen()), Seen())
      ensures r.Ok? ==>
                && |old(server.run)| <= at <= |server.run|
                && key in Before(server.run, at).revisions && Before(server.run, at).revisions[key] == r.value
      ensures server.calm && old(InStep()) && old(server.state).epoch.Some? ==>
                InStep() && r.Ok? && KeepsRevision(old(server.state), server.state, key, r.value)
    {
      hide EpochSection, RevisionSection, Extends, Run, Agrees, KeepsRevision;
      at, entered, replies := 0, None, RevisionReplies(Raised, Raised, Raised);
      var epoch, epochReplies, epochEntered, seenAt := CurrentEpoch();
      if epoch.Unavailable? {
        r := Unavailable;
        return;
      }
      ghost var between := Seen();
      OtherThreads();
      entered := Some(Seen());
      ExtendsTwice(old(Seen()), between, Seen());
      r, replies, at := ReadRevision(key);
      SectionExtends(entered.value, AskRevision(key, replies));
      ExtendsTwice(old(Seen()), entered.value, Seen());
    }

    /** The epoch's section and then, if it succeeds, the advance.  True only if this caller's own
        command advanced the expected revision. */
    method AdvanceIfCurrent(caller: nat, key: Key, expected: nat, expectedEpoch: Epoch)
      returns (r: Result<bool>, ghost result: Reply<int>, ghost entered: Option<View>, ghost at: nat)
      requires server.Valid()
      modifies this, server
      ensures server.Valid() && old(server.run) <= server.run
      ensures entered.None? ==> r.Unavailable?
      ensures entered.Some? ==>
                Extends(old(Seen()), entered.value) && (Seen(), r) == AdvanceSection(entered.value, key, expected, result)
      ensures Extends(old(Seen()), Seen())
      ensures r == Ok(true) ==>
                && |old(server.run)| <= at
                && Advances(server.run, at, key, expectedEpoch, expected)
                && server.run[at].caller == caller
      ensures server.calm && old(InStep()) && Alive(old(server.state), key, expectedEpoch, expected) ==>
                InStep() && r == Ok(true) && server.state == Execute(old(server.state), Advance(caller, key, expectedEpoch, expected))
    {
      hide EpochSection, AdvanceSection, Extends, Run, Agrees;
      at, entered, result := 0, None, Raised;
      var epoch, epochReplies, epochEntered, seenAt := CurrentEpoch();
      if epoch.Unavailable? {
        r := Unavailable;
        return;
      }
      ghost var between := Seen();
      OtherThreads();
      entered := Some(Seen());
      ExtendsTwice(old(Seen()), between, Seen());
      r, result, at := TryAdvance(caller, key, expected, expectedEpoch);
      SectionExtends(entered.value, AskAdvance(key, expected, result));
      ExtendsTwice(old(Seen()), entered.value, Seen());
    }
  }

  lemma {:induction false} ExtendsItself(v: View)
    ensures Extends(v, v)
  {
  }

  /** What a section leaves, as a pair of view and result. */
  lemma {:induction false} SectionExtends(v: View, section: Section)
    ensures section.AskEpoch? ==> Extends(v, EpochSection(v, section.er).0)
    ensures section.AskRevision? ==> Extends(v, RevisionSection(v, section.key, section.rr).0)
    ensures section.AskAdvance? ==> Extends(v, AdvanceSection(v, section.key, section.expected, section.result).0)
  {
    PerformExtends(v, section);
  }
}
