/** The Redis lease lock behind a reviewed edit, over timed runs.

    The lock key is a token with an expiry.  A run is the sequence of commands and clock
    ticks in the order in which Redis sees them; any number of clients take part.
 */
module LeaseLock {
  import opened Wrappers

  /** Lock tokens are random; every lock object has its own. */
  type Token = nat

  type Duration = r: real | r > 0.0 witness 1.0

  type Wait = r: real | r >= 0.0

  datatype Lease = Lease(token: Token, expiresAt: real)

  datatype State = State(now: real, key: Option<Lease>)

  datatype Event =
    | SetIfAbsent(token: Token, lease: Duration)   // SET key token NX PX lease
    | Extend(token: Token, lease: Duration)        // the renew and retain scripts
    | Delete(token: Token)                         // the release script
    | Tick(elapsed: Wait)

  /** The token stored under an unexpired key. */
  function Owner(s: State): Option<Token> {
    if s.key.Some? && s.now < s.key.value.expiresAt then Some(s.key.value.token) else None
  }

  function Execute(s: State, e: Event): State {
    match e
    case SetIfAbsent(token, lease) => if Owner(s).None? then s.(key := Some(Lease(token, s.now + lease))) else s
    case Extend(token, lease) => if Owner(s) == Some(token) then s.(key := Some(Lease(token, s.now + lease))) else s
    case Delete(token) => if Owner(s) == Some(token) then s.(key := None) else s
    case Tick(elapsed) => s.(now := s.now + elapsed)
  }

  function Run(s: State, run: seq<Event>): State
    decreases |run|
  {
    if run == [] then s else Run(Execute(s, run[0]), run[1..])
  }

  lemma {:induction false} RunConcat(s: State, a: seq<Event>, b: seq<Event>)
    ensures Run(s, a + b) == Run(Run(s, a), b)
    decreases |a|
  {
    if a == [] {
      assert a + b == b;
    } else {
      assert (a + b)[1..] == a[1..] + b;
      RunConcat(Execute(s, a[0]), a[1..], b);
    }
  }

  // ----- Ownership changes -----------------------------------------------------------------

  /** An event by which a token loses the key: its own release, or time reaching the expiry. */
  ghost predicate Ends(s: State, e: Event, token: Token) {
    && Owner(s) == Some(token)
    && (e == Delete(token) || (e.Tick? && Execute(s, e).now >= s.key.value.expiresAt))
  }

  /** The key never passes from one owner to another, and is only taken when absent. */
  lemma {:induction false} OwnerChanges(s: State, e: Event)
    ensures var before, after := Owner(s), Owner(Execute(s, e));
            && (before.Some? && after != before ==> after.None? && Ends(s, e, before.value))
            && (before.None? && after.Some? ==> e.SetIfAbsent? && e.token == after.value)
  {
  }

  /** Mutual exclusion over runs: if the owner changes between two points of a run, some event
      between them ended the first ownership: only the owner's release or its expiry can. */
  lemma {:induction false} OwnershipMustEnd(s: State, run: seq<Event>, token: Token)
    requires Owner(s) == Some(token) && Owner(Run(s, run)) != Some(token)
    ensures exists i | 0 <= i < |run| :: Ends(Run(s, run[..i]), run[i], token)
    decreases |run|
  {
    var t := Execute(s, run[0]);
    OwnerChanges(s, run[0]);
    if Owner(t) == Some(token) {
      OwnershipMustEnd(t, run[1..], token);
      var i :| 0 <= i < |run[1..]| && Ends(Run(t, run[1..][..i]), run[1..][i], token);
      assert run[..i + 1] == [run[0]] + run[1..][..i];
      RunConcat(s, [run[0]], run[1..][..i]);
      assert Run(s, [run[0]]) == t;
      assert Ends(Run(s, run[..i + 1]), run[i + 1], token);
    } else {
      assert run[..0] == [];
      assert Ends(Run(s, run[..0]), run[0], token);
    }
  }

  // ----- Heartbeats ----------------------------------------------------------------------------

  /** Time that passes in a run. */
  function Elapsed(run: seq<Event>): real {
    if run == [] then 0.0
    else (if run[0].Tick? then run[0].elapsed else 0.0) + Elapsed(run[1..])
  }

  /** No event of the run carries the token: the run belongs to other clients and to time. */
  ghost predicate Foreign(run: seq<Event>, token: Token) {
    forall e | e in run :: e.Tick? || e.token != token
  }

  /** Other clients and time leave an owned key alone until it expires. */
  lemma {:induction false} ForeignRunKeepsLease(s: State, run: seq<Event>, token: Token)
    requires Owner(s) == Some(token) && Foreign(run, token)
    requires s.now + Elapsed(run) < s.key.value.expiresAt
    ensures Run(s, run).key == s.key && Run(s, run).now == s.now + Elapsed(run)
    ensures Owner(Run(s, run)) == Some(token)
    decreases |run|
  {
    if run != [] {
      ElapsedIsNotNegative(run[1..]);
      ForeignRunKeepsLease(Execute(s, run[0]), run[1..], token);
    }
  }

  lemma {:induction false} ElapsedIsNotNegative(run: seq<Event>)
    ensures Elapsed(run) >= 0.0
  {
    if run != [] {
      ElapsedIsNotNegative(run[1..]);
    }
  }

  /** One heartbeat: other clients' events while the thread waits a third of the lease and the
      command travels, then the renewal. */
  datatype Beat = Beat(others: seq<Event>, late: real)

  ghost predicate OnTime(beat: Beat, token: Token, lease: Duration) {
    && Foreign(beat.others, token)
    && beat.late < 2.0 * lease / 3.0
    && Elapsed(beat.others) == lease / 3.0 + beat.late
  }

  function Beats(beats: seq<Beat>, token: Token, lease: Duration): seq<Event> {
    if beats == [] then [] else beats[0].others + [Extend(token, lease)] + Beats(beats[1..], token, lease)
  }

  lemma {:induction false} OneBeatKeepsKey(s: State, beat: Beat, token: Token, lease: Duration)
    requires Owner(s) == Some(token) && s.key.value.expiresAt == s.now + lease && OnTime(beat, token, lease)
    ensures forall k | 0 <= k <= |beat.others| :: Owner(Run(s, beat.others[..k])) == Some(token)
    ensures var t := Run(s, beat.others + [Extend(token, lease)]);
            Owner(t) == Some(token) && t.key.value.expiresAt == t.now + lease
  {
    forall k | 0 <= k <= |beat.others|
      ensures Owner(Run(s, beat.others[..k])) == Some(token)
    {
      ElapsedOfPrefix(beat.others, k);
      ForeignRunKeepsLease(s, beat.others[..k], token);
    }
    assert beat.others[..|beat.others|] == beat.others;
    ForeignRunKeepsLease(s, beat.others, token);
    ElapsedIsNotNegative(beat.others);
    var t := Run(s, beat.others);
    RunConcat(s, beat.others, [Extend(token, lease)]);
    assert Run(t, [Extend(token, lease)]) == Execute(t, Extend(token, lease));
  }

  lemma {:induction false} ElapsedOfPrefix(run: seq<Event>, k: nat)
    requires k <= |run|
    ensures Elapsed(run[..k]) <= Elapsed(run)
  {
    if k == 0 {
      ElapsedIsNotNegative(run);
    } else {
      assert run[..k][1..] == run[1..][..k - 1];
      ElapsedOfPrefix(run[1..], k - 1);
    }
  }

  /** Heartbeats that wait a third of the lease and arrive less than two thirds late keep the
      key owned at every point of a run, whatever other clients do. */
  lemma {:induction false} HeartbeatsKeepOwnership(s: State, beats: seq<Beat>, token: Token, lease: Duration, k: nat)
    requires Owner(s) == Some(token) && s.key.value.expiresAt == s.now + lease
    requires forall b | b in beats :: OnTime(b, token, lease)
    requires k <= |Beats(beats, token, lease)|
    ensures Owner(Run(s, Beats(beats, token, lease)[..k])) == Some(token)
    decreases |beats|
  {
    if beats == [] {
      assert Beats(beats, token, lease)[..k] == [];
    } else {
      var first := beats[0].others + [Extend(token, lease)];
      var rest := Beats(beats[1..], token, lease);
      var run := Beats(beats, token, lease);
      OneBeatKeepsKey(s, beats[0], token, lease);
      if k <= |beats[0].others| {
        assert run[..k] == beats[0].others[..k];
      } else {
        assert run[..k] == first + rest[..k - |first|];
        RunConcat(s, first, rest[..k - |first|]);
        HeartbeatsKeepOwnership(Run(s, first), beats[1..], token, lease, k - |first|);
      }
    }
  }

  /** Whoever does not own the key only comes to own it by setting it. */
  lemma {:induction false} NeverRegains(s: State, run: seq<Event>, token: Token)
    requires Owner(s) != Some(token) && forall e | e in run :: !(e.SetIfAbsent? && e.token == token)
    ensures Owner(Run(s, run)) != Some(token)
    decreases |run|
  {
    if run != [] {
      assert run[0] in run && forall e | e in run[1..] :: e in run;
      OwnerChanges(s, run[0]);
      NeverRegains(Execute(s, run[0]), run[1..], token);
    }
  }

  /** Once the lease has elapsed, the token does not own the key, whatever other clients did. */
  lemma {:induction false} ForeignRunLosesLease(s: State, run: seq<Event>, token: Token)
    requires Owner(s) == Some(token) && Foreign(run, token)
    requires s.now + Elapsed(run) >= s.key.value.expiresAt
    ensures Owner(Run(s, run)) != Some(token)
    decreases |run|
  {
    if run != [] {
      assert run[0] in run && forall e | e in run[1..] :: e in run;
      var t := Execute(s, run[0]);
      if Owner(t) == Some(token) {
        ForeignRunLosesLease(t, run[1..], token);
      } else {
        NeverRegains(t, run[1..], token);
      }
    }
  }

  /** A beat of some lateness, on time or not. */
  ghost predicate Timed(beat: Beat, token: Token, lease: Duration) {
    Foreign(beat.others, token) && Elapsed(beat.others) == lease / 3.0 + beat.late
  }

  /** The margin is exact for every beat: the renewal finds the key exactly if it is less than two
      thirds of a lease late. */
  lemma {:induction false} LateHeartbeatLosesKey(s: State, beat: Beat, token: Token, lease: Duration)
    requires Owner(s) == Some(token) && s.key.value.expiresAt == s.now + lease && Timed(beat, token, lease)
    ensures Owner(Run(s, beat.others + [Extend(token, lease)])) == Some(token) <==> beat.late < 2.0 * lease / 3.0
  {
    if beat.late < 2.0 * lease / 3.0 {
      OneBeatKeepsKey(s, beat, token, lease);
    } else {
      ForeignRunLosesLease(s, beat.others, token);
      RunConcat(s, beat.others, [Extend(token, lease)]);
      NeverRegains(Run(s, beat.others), [Extend(token, lease)], token);
    }
  }

  /** And for every sequence of beats: the key is still owned at the end exactly if every beat was on
      time; one late beat loses it for good. */
  lemma {:induction false} HeartbeatMarginIsExact(s: State, beats: seq<Beat>, token: Token, lease: Duration)
    requires Owner(s) == Some(token) && s.key.value.expiresAt == s.now + lease
    requires forall b | b in beats :: Timed(b, token, lease)
    ensures Owner(Run(s, Beats(beats, token, lease))) == Some(token)
            <==> forall b | b in beats :: b.late < 2.0 * lease / 3.0
    decreases |beats|
  {
    if beats != [] {
      assert beats[0] in beats && forall b | b in beats[1..] :: b in beats;
      var first, rest := beats[0].others + [Extend(token, lease)], Beats(beats[1..], token, lease);
      LateHeartbeatLosesKey(s, beats[0], token, lease);
      RunConcat(s, first, rest);
      if beats[0].late < 2.0 * lease / 3.0 {
        OneBeatKeepsKey(s, beats[0], token, lease);
        HeartbeatMarginIsExact(Run(s, first), beats[1..], token, lease);
        assert beats == [beats[0]] + beats[1..];
      } else {
        BeatsNeverSet(beats[1..], token, lease);
        NeverRegains(Run(s, first), rest, token);
      }
    }
  }

  lemma {:induction false} BeatsNeverSet(beats: seq<Beat>, token: Token, lease: Duration)
    requires forall b | b in beats :: Timed(b, token, lease)
    ensures forall e | e in Beats(beats, token, lease) :: !(e.SetIfAbsent? && e.token == token)
  {
    if beats != [] {
      assert beats[0] in beats && forall b | b in beats[1..] :: b in beats;
      BeatsNeverSet(beats[1..], token, lease);
    }
  }

  // ----- The lock object -----------------------------------------------------------------------

  function WithoutToken(run: seq<Event>, token: Token): (foreign: seq<Event>)
    ensures Foreign(foreign, token)
  {
    if run == [] then []
    else (if run[0].Tick? || run[0].token != token then [run[0]] else []) + WithoutToken(run[1..], token)
  }

  /** The release commands that carry a token. */
  function Deletes(run: seq<Event>, token: Token): nat {
    if run == [] then 0 else Deletes(run[..|run| - 1], token) + if run[|run| - 1] == Delete(token) then 1 else 0
  }

  lemma {:induction false} DeletesOne(run: seq<Event>, e: Event, token: Token)
    ensures Deletes(run + [e], token) == Deletes(run, token) + if e == Delete(token) then 1 else 0
  {
    assert (run + [e])[..|run + [e]| - 1] == run;
  }

  lemma {:induction false} ForeignDeletes(run: seq<Event>, others: seq<Event>, token: Token)
    requires Foreign(others, token)
    ensures Deletes(run + others, token) == Deletes(run, token)
  {
    if others == [] {
      assert run + others == run;
    } else {
      var front := others[..|others| - 1];
      assert (run + others)[..|run + others| - 1] == run + front;
      ForeignDeletes(run, front, token);
    }
  }

  /** The reply of a script call: it raised, or it returned a number. */
  datatype Reply = Raised | Value(value: int)

  /** What happens around each command: the events of other clients and time before it, whether
      the command is lost on the way, and whether its reply is. */
  datatype World = World(others: nat -> seq<Event>, loses: nat -> bool, fails: nat -> bool)

  class Server {
    const start: State
    const world: World
    var commands: nat
    ghost var run: seq<Event>
    var state: State

    ghost predicate Valid()
      reads this
    {
      state == Run(start, run)
    }

    constructor (start: State, world: World)
      ensures Valid() && this.start == start && this.world == world && state == start && run == [] && commands == 0
    {
      this.start, this.world, commands := start, world, 0;
      state := start;
      run := [];
    }

    /** The state in which this token's next command finds the server. */
    function Arrival(mine: Token): State
      reads this
    {
      Run(state, WithoutToken(world.others(commands), mine))
    }

    /** The next command takes effect and its reply arrives. */
    predicate Answers()
      reads this
    {
      !world.loses(commands) && !world.fails(commands)
    }

    /** Time passes and other clients run; none of them has this lock's token. */
    method Others(mine: Token) returns (lost: bool, fails: bool)
      requires Valid()
      modifies this
      ensures Valid() && old(run) <= run && Deletes(run, mine) == old(Deletes(run, mine))
      ensures old(Owner(state)) != Some(mine) ==> Owner(state) != Some(mine)
      ensures commands == old(commands) + 1 && lost == world.loses(old(commands)) && fails == world.fails(old(commands))
      ensures state == old(Arrival(mine))
    {
      var events := WithoutToken(world.others(commands), mine);
      lost, fails := world.loses(commands), world.fails(commands);
      commands := commands + 1;
      if Owner(state) != Some(mine) {
        NeverRegains(state, events, mine);
      }
      RunConcat(start, run, events);
      ForeignDeletes(run, events, mine);
      state := Run(state, events);
      run := run + events;
    }

    method Perform(e: Event)
      requires Valid()
      modifies this
      ensures Valid() && run == old(run) + [e] && state == Execute(old(state), e) && commands == old(commands)
    {
      RunConcat(start, run, [e]);
      assert Run(state, [e]) == Execute(state, e);
      state := Execute(state, e);
      run := run + [e];
    }

    /** The renew and retain scripts: extend the key if it is still ours. */
    method EvalExtend(token: Token, lease: Duration) returns (r: Reply)
      requires Valid()
      modifies this
      ensures Valid() && old(run) <= run && Deletes(run, token) == old(Deletes(run, token))
      ensures r == Value(1) ==> Owner(state) == Some(token) && state.key.value.expiresAt == state.now + lease
      ensures old(Owner(state)) != Some(token) ==> Owner(state) != Some(token)
      ensures commands == old(commands) + 1
      ensures r == if !old(Answers()) then Raised else Value(if Owner(old(Arrival(token))) == Some(token) then 1 else 0)
      ensures state == if world.loses(old(commands)) then old(Arrival(token)) else Execute(old(Arrival(token)), Extend(token, lease))
    {
      hide Run, Deletes;
      var lost, fails := Others(token);
      if lost {
        return Raised;
      }
      var owned := Owner(state) == Some(token);
      DeletesOne(run, Extend(token, lease), token);
      Perform(Extend(token, lease));
      r := if fails then Raised else Value(if owned then 1 else 0);
    }

    /** The ownership script. */
    method EvalAssert(token: Token) returns (r: Reply)
      requires Valid()
      modifies this
      ensures Valid() && old(run) <= run && Deletes(run, token) == old(Deletes(run, token))
      ensures r == if !old(Answers()) then Raised else Value(if Owner(state) == Some(token) then 1 else 0)
      ensures commands == old(commands) + 1 && state == old(Arrival(token))
    {
      hide Run, Deletes;
      var lost, fails := Others(token);
      r := if lost || fails then Raised else Value(if Owner(state) == Some(token) then 1 else 0);
    }

    /** The release script: delete the key if it is still ours. */
    method EvalRelease(token: Token) returns (r: Reply)
      requires Valid()
      modifies this
      ensures Valid() && old(run) <= run && Deletes(run, token) <= old(Deletes(run, token)) + 1
      ensures r == if !old(Answers()) then Raised else Value(if Owner(old(Arrival(token))) == Some(token) then 1 else 0)
      ensures !world.loses(old(commands)) ==> Owner(state) != Some(token) && Deletes(run, token) == old(Deletes(run, token)) + 1
      ensures commands == old(commands) + 1 && (old(Owner(state)) != Some(token) ==> Owner(state) != Some(token))
    {
      hide Run, Deletes;
      var lost, fails := Others(token);
      if lost {
        return Raised;
      }
      var owned := Owner(state) == Some(token);
      DeletesOne(run, Delete(token), token);
      Perform(Delete(token));
      r := if fails then Raised else Value(if owned then 1 else 0);
    }

    /** SET key token NX PX lease. */
    method TrySet(token: Token, lease: Duration) returns (acquired: bool, raised: bool)
      requires Valid()
      modifies this
      ensures Valid() && old(run) <= run && Deletes(run, token) == old(Deletes(run, token))
      ensures acquired && !raised ==> Owner(state) == Some(token) && state.key.value.expiresAt == state.now + lease
      ensures commands == old(commands) + 1 && (raised <==> !old(Answers()))
      ensures !raised ==> (acquired <==> Owner(old(Arrival(token))).None?)
      ensures state == if world.loses(old(commands)) then old(Arrival(token)) else Execute(old(Arrival(token)), SetIfAbsent(token, lease))
    {
      hide Run, Deletes;
      var lost, fails := Others(token);
      if lost {
        return false, true;
      }
      acquired := Owner(state).None?;
      DeletesOne(run, SetIfAbsent(token, lease), token);
      Perform(SetIfAbsent(token, lease));
      raised := fails;
    }
  }

  class RedisReviewLock {
    const server: Server
    const token: Token
    const lease: Duration
    var lost: bool

    constructor (server: Server, token: Token, lease: Duration)
      ensures this.server == server && this.token == token && this.lease == lease && !lost
    {
      this.server, this.token, this.lease, lost := server, token, lease, false;
    }

    /** Succeeds only while the lock is known to be held; any failure marks it lost for good. */
    method Renew() returns (ok: bool)
      requires server.Valid()
      modifies this, server
      ensures server.Valid() && old(server.run) <= server.run
      ensures ok ==> !old(lost) && Owner(server.state) == Some(token)
                     && server.state.key.value.expiresAt == server.state.now + lease
      ensures lost == !ok
      ensures Deletes(server.run, token) == old(Deletes(server.run, token))
      ensures old(Owner(server.state)) != Some(token) ==> Owner(server.state) != Some(token)
      ensures server.commands == old(server.commands) + (if old(lost) then 0 else 1)
      ensures old(lost) ==> server.state == old(server.state)
      ensures ok <==> !old(lost) && old(server.Answers()) && Owner(old(server.Arrival(token))) == Some(token)
    {
      if lost {
        return false;
      }
      var renewed := server.EvalExtend(token, lease);
      if renewed != Value(1) {
        lost := true;
        return false;
      }
      ok := true;
    }

    method AssertOwned() returns (ok: bool)
      requires server.Valid()
      modifies this, server
      ensures server.Valid() && old(server.run) <= server.run
      ensures ok <==> !old(lost) && old(server.Answers()) && Owner(old(server.Arrival(token))) == Some(token)
      ensures ok ==> Owner(server.state) == Some(token)
      ensures lost == !ok
      ensures Deletes(server.run, token) == old(Deletes(server.run, token))
    {
      if lost {
        return false;
      }
      var owned := server.EvalAssert(token);
      if owned != Value(1) {
        lost := true;
        return false;
      }
      ok := true;
    }

    /** The heartbeat thread runs until it is told to stop or a renewal fails; while it runs it
        can only mark the lock lost. */
    method Heartbeats(rounds: nat)
      requires server.Valid()
      modifies this, server
      ensures server.Valid() && old(server.run) <= server.run
      ensures old(lost) ==> lost
      ensures Deletes(server.run, token) == old(Deletes(server.run, token))
      ensures old(Owner(server.state)) != Some(token) ==> Owner(server.state) != Some(token)
      ensures !lost ==> server.commands == old(server.commands) + rounds && (rounds > 0 ==> Owner(server.state) == Some(token))
      ensures rounds == 0 || old(lost) ==>
                lost == old(lost) && server.commands == old(server.commands) && server.state == old(server.state)
      ensures rounds > 0 && !old(lost) && server.world.loses(old(server.commands)) ==>
                lost && server.commands == old(server.commands) + 1
    {
      var i := 0;
      while i < rounds
        invariant server.Valid() && old(server.run) <= server.run
        invariant old(lost) ==> lost
        invariant Deletes(server.run, token) == old(Deletes(server.run, token))
        invariant old(Owner(server.state)) != Some(token) ==> Owner(server.state) != Some(token)
        invariant i <= rounds && (!lost ==> server.commands == old(server.commands) + i)
        invariant i > 0 ==> !lost && Owner(server.state) == Some(token)
        invariant i == 0 ==> lost == old(lost) && server.commands == old(server.commands) && server.state == old(server.state)
        invariant i > 0 ==> !old(lost)
        invariant i > 0 && !old(lost) ==> !server.world.loses(old(server.commands))
      {
        var ok := Renew();
        if !ok {
          return;
        }
        i := i + 1;
      }
    }

    /** Closing.  The join of the heartbeat thread may time out, and then the thread goes on between
        the test and the command, and after it.  A lock that has seen loss when it is tested is
        retained, never released.  If the thread was joined, a lock that has seen loss at any time
        issues no release; if not, it may. */
    method Close(rounds: nat, joined: bool, between: nat, afterwards: nat)
      returns (ghost seen: bool, ghost reply: Reply)
      requires server.Valid() && (joined ==> between == 0 && afterwards == 0)
      modifies this, server
      ensures server.Valid() && old(server.run) <= server.run
      ensures (old(lost) ==> seen) && (seen ==> lost) && (joined ==> seen == lost)
      ensures seen ==> Deletes(server.run, token) == old(Deletes(server.run, token))
      ensures Deletes(server.run, token) <= old(Deletes(server.run, token)) + 1
      ensures joined && lost ==> Deletes(server.run, token) == old(Deletes(server.run, token))
      ensures seen && reply == Value(1) ==>
                Owner(server.state) == Some(token) && server.state.key.value.expiresAt == server.state.now + lease
      ensures !seen && reply.Value? ==>
                Owner(server.state) != Some(token) && Deletes(server.run, token) == old(Deletes(server.run, token)) + 1
      ensures rounds == 0 && !old(lost) && between > 0 && server.world.loses(old(server.commands))
              && !server.world.loses(old(server.commands) + 1) ==>
                lost && Deletes(server.run, token) == old(Deletes(server.run, token)) + 1
    {
      Heartbeats(rounds);
      seen := lost;
      if lost {
        Heartbeats(between);
        var retained := server.EvalExtend(token, lease);
        reply := retained;
      } else {
        Heartbeats(between);
        var released := server.EvalRelease(token);
        reply := released;
      }
      Heartbeats(afterwards);
    }
  }

  /** The condition that the heartbeat was joined cannot be dropped: a renewal that fails after the
      test marks the lock lost, and the release follows all the same. */
  method LossAfterTestReleases(token: Token, lease: Duration) returns (lock: RedisReviewLock)
    ensures fresh(lock) && lock.token == token
    ensures lock.lost && Deletes(lock.server.run, token) == 1
  {
    var world := World(n => [], n => n == 0, n => false);
    var server := new Server(State(0.0, Some(Lease(token, lease))), world);
    lock := new RedisReviewLock(server, token, lease);
    ghost var seen, reply := lock.Close(0, false, 1, 0);
  }

  /** The time waited for after a number of attempts. */
  function Waited(attempts: int): real {
    0.05 * attempts as real
  }

  /** Waiting for the lock: retry every 0.05 seconds until the deadline. */
  method Acquire(server: Server, token: Token, lease: Duration, patience: Wait) returns (lock: RedisReviewLock?)
    requires server.Valid()
    modifies server
    ensures server.Valid() && old(server.run) <= server.run
    ensures lock != null ==>
              && fresh(lock) && lock.server == server && lock.token == token && lock.lease == lease && !lock.lost
              && Owner(server.state) == Some(token) && server.state.key.value.expiresAt == server.state.now + lease
    ensures Deletes(server.run, token) == old(Deletes(server.run, token))
    ensures server.commands > old(server.commands)
    // It gives up only for a failed command or after the whole wait, and does not try longer.
    ensures lock == null ==>
              || server.world.loses(server.commands - 1) || server.world.fails(server.commands - 1)
              || Waited(server.commands - old(server.commands) - 1) >= patience
    ensures server.commands - old(server.commands) >= 2 ==> Waited(server.commands - old(server.commands) - 2) < patience
    // A free key is taken at once.
    ensures old(server.Answers()) && Owner(old(server.Arrival(token))).None? ==> lock != null && server.commands == old(server.commands) + 1
  {
    hide Run, Deletes;
    var waited := 0.0;
    while true
      invariant server.Valid() && old(server.run) <= server.run
      invariant Deletes(server.run, token) == old(Deletes(server.run, token))
      invariant server.commands >= old(server.commands) && waited == Waited(server.commands - old(server.commands))
      invariant server.commands > old(server.commands) ==> Waited(server.commands - old(server.commands) - 1) < patience
      invariant server.commands == old(server.commands) ==> server.state == old(server.state)
      invariant server.commands > old(server.commands) ==> !(old(server.Answers()) && Owner(old(server.Arrival(token))).None?)
      decreases ((patience - waited) / 0.05).Floor + 1
    {
      var acquired, raised := server.TrySet(token, lease);
      if raised {
        return null;
      }
      if acquired {
        lock := new RedisReviewLock(server, token, lease);
        return;
      }
      if waited >= patience {
        return null;
      }
      waited := waited + 0.05;
    }
  }
}
