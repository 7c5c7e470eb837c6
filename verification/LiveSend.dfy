/** Authorised live sends: senders, role refreshes and revocations of several sessions.

    A sender's body goes out only under the session's role lock, after an authoritative check
    that allows streaming, and the lock is kept until the send has exited, however it ends.
    The steps below are those of the send loop, its executor workers and the revokers; a run is
    any interleaving of them.  Every lock and send event of a run is checked against a small
    monitor of one session, defined without reference to the loop.
 */
module LiveSend {
  import opened Wrappers

  type Session = nat

  const ROLE_CHECK_SLOTS := 4

  /** A sender, the executor worker of that sender's refresh, and a revoker. */
  datatype Actor =
    | Sender(id: nat, session: Session)
    | Worker(id: nat, session: Session)
    | Revoker(id: nat, session: Session)

  datatype Outcome = Sent | Refused | Raised | Stale | Refreshed | Revoked

  /** Leaving still holds the role lock and is about to release it.  In Sending, draining says
      that the wait for the child send was given up by timeout or cancellation. */
  datatype Phase =
    | Idle
    | WantLock
    | Checking
    | Sending(draining: bool)
    | Leaving(next: Outcome)
    | WantSlot
    | Scheduling
    | Refreshing(cancelled: bool)
    | Working
    | Done(result: Outcome)

  /** How the cached principal is resolved under the lock. */
  datatype Verdict = Failed | Interrupted | Denied | Allowed | NotAuthoritative

  datatype Move =
    | Call(a: Actor)
    | GiveUp(a: Actor)
    | Cancel(a: Actor)
    | TakeLock(a: Actor)
    | Resolve(a: Actor, verdict: Verdict)
    | Abandon(a: Actor)
    | SendExits(a: Actor, ok: bool)
    | Unlock(a: Actor)
    | TakeSlot(a: Actor)
    | Schedule(a: Actor, ok: bool)
    | Update(a: Actor, revoke: bool)
    | Finish(a: Actor)
    | Join(a: Actor, mayStream: bool, expired: bool)

  datatype Event =
    | Acquired(session: Session, a: Actor)
    | Checked(session: Session, a: Actor, allowed: bool)
    | Started(session: Session, a: Actor)
    | Exited(session: Session, a: Actor)
    | SessionRevoked(session: Session, a: Actor)
    | Released(session: Session, a: Actor)

  /** The slots are a counter, as in the source. */
  datatype State = State(holder: map<Session, Actor>, slots: int, revoked: set<Session>, phase: map<Actor, Phase>, log: seq<Event>)

  // ----- The monitor of one session ------------------------------------------------------------

  datatype Guard = Guard(holder: set<Actor>, allowed: bool, sending: bool, revoked: bool)

  /** What one event of the session may do in a given state of the session. */
  predicate Permitted(g: Guard, e: Event) {
    match e
    case Acquired(_, _) => g.holder == {}
    case Checked(_, a, allowed) => g.holder == {a} && !g.sending && (allowed ==> !g.revoked)
    case Started(_, a) => g.holder == {a} && g.allowed && !g.sending && !g.revoked
    case Exited(_, a) => g.holder == {a} && g.sending
    case SessionRevoked(_, a) => g.holder == {a} && !g.sending
    case Released(_, a) => g.holder == {a} && !g.sending
  }

  function Watch(g: Guard, e: Event): Guard {
    match e
    case Acquired(_, a) => Guard({a}, false, g.sending, g.revoked)
    case Checked(_, _, allowed) => g.(allowed := allowed)
    case Started(_, _) => g.(allowed := false, sending := true)
    case Exited(_, _) => g.(sending := false)
    case SessionRevoked(_, _) => g.(revoked := true, allowed := false)
    case Released(_, _) => Guard({}, false, g.sending, g.revoked)
  }

  function Replay(log: seq<Event>, session: Session): Guard {
    if log == [] then Guard({}, false, false, false)
    else
      var last := log[|log| - 1];
      var g := Replay(log[..|log| - 1], session);
      if last.session == session then Watch(g, last) else g
  }

  predicate Legal(log: seq<Event>) {
    forall i | 0 <= i < |log| :: Permitted(Replay(log[..i], log[i].session), log[i])
  }

  // ----- The steps -----------------------------------------------------------------------------

  function PhaseOf(s: State, a: Actor): Phase {
    if a in s.phase then s.phase[a] else Idle
  }

  function WorkerOf(a: Actor): Actor {
    Worker(a.id, a.session)
  }

  predicate Enabled(s: State, m: Move) {
    var p := PhaseOf(s, m.a);
    match m
    case Call(a) => !a.Worker? && p == Idle
    case GiveUp(a) => a.Sender? && (p == WantLock || p == WantSlot)
    case Cancel(a) => a.Sender? && (p == WantLock || p == WantSlot || p == Refreshing(false))
    case TakeLock(a) => (p == WantLock || (a.Worker? && p == Working)) && a.session !in s.holder
    case Resolve(a, verdict) => a.Sender? && p == Checking && (verdict == Allowed ==> a.session !in s.revoked)
    case Abandon(a) => p == Sending(false)
    case SendExits(a, ok) => p.Sending?
    case Unlock(a) => p.Leaving?
    case TakeSlot(a) => p == WantSlot && s.slots > 0
    case Schedule(a, ok) => p == Scheduling
    case Update(a, revoke) => !a.Sender? && p == Checking && (a.Revoker? ==> revoke)
    case Finish(a) => a.Worker? && p == Working
    case Join(a, _, _) => p.Refreshing? && PhaseOf(s, WorkerOf(a)) == Idle
  }

  /** What follows the release of the role lock. */
  function AfterUnlock(next: Outcome): Phase {
    match next
    case Stale => WantSlot
    case Refreshed => Working
    case _ => Done(next)
  }

  function Next(s: State, m: Move): Phase {
    match m
    case Call(_) => WantLock
    case GiveUp(_) => Done(Refused)
    case Cancel(a) => if PhaseOf(s, a) == Refreshing(false) then Refreshing(true) else Done(Raised)
    case TakeLock(_) => Checking
    case Resolve(_, verdict) =>
      (match verdict
       case Failed => Leaving(Refused)
       case Interrupted => Leaving(Raised)
       case Denied => Leaving(Refused)
       case Allowed => Sending(false)
       case NotAuthoritative => Leaving(Stale))
    case Abandon(_) => Sending(true)
    case SendExits(a, ok) => Leaving(if ok && PhaseOf(s, a) == Sending(false) then Sent else Raised)
    case Unlock(a) => if PhaseOf(s, a).Leaving? then AfterUnlock(PhaseOf(s, a).next) else Idle
    case TakeSlot(_) => Scheduling
    case Schedule(_, ok) => if ok then Refreshing(false) else Done(Refused)
    case Update(a, _) => Leaving(if a.Worker? then Refreshed else Revoked)
    case Finish(_) => Idle
    case Join(a, mayStream, expired) =>
      if PhaseOf(s, a) == Refreshing(true) then Done(Raised)
      else if !mayStream || expired then Done(Refused)
      else WantLock
  }

  function Events(m: Move): seq<Event> {
    var session := m.a.session;
    match m
    case TakeLock(a) => [Acquired(session, a)]
    case Resolve(a, verdict) =>
      if verdict == Allowed then [Checked(session, a, true), Started(session, a)] else [Checked(session, a, false)]
    case SendExits(a, _) => [Exited(session, a)]
    case Update(a, revoke) => if revoke then [SessionRevoked(session, a)] else []
    case Unlock(a) => [Released(session, a)]
    case _ => []
  }

  function Phases(s: State, m: Move): map<Actor, Phase> {
    var phase := s.phase[m.a := Next(s, m)];
    if m.Schedule? && m.ok then phase[WorkerOf(m.a) := Working] else phase
  }

  function Do(s: State, m: Move): State
    requires Enabled(s, m)
  {
    State(
      if m.TakeLock? then s.holder[m.a.session := m.a] else if m.Unlock? then s.holder - {m.a.session} else s.holder,
      if m.TakeSlot? then s.slots - 1 else if m.Finish? || (m.Schedule? && !m.ok) then s.slots + 1 else s.slots,
      if m.Update? && m.revoke then s.revoked + {m.a.session} else s.revoked,
      Phases(s, m),
      s.log + Events(m))
  }

  const START := State(map[], ROLE_CHECK_SLOTS, {}, map[], [])

  ghost predicate Run(moves: seq<Move>, s: State)
    decreases |moves|
  {
    if moves == [] then s == START
    else
      var last := moves[|moves| - 1];
      exists s0 :: Run(moves[..|moves| - 1], s0) && Enabled(s0, last) && s == Do(s0, last)
  }

  // ----- The invariant -------------------------------------------------------------------------

  predicate HasLock(p: Phase) {
    p.Checking? || p.Sending? || p.Leaving?
  }

  predicate HasSlot(a: Actor, p: Phase) {
    p.Scheduling? || (a.Worker? && p != Idle)
  }

  /** An actor holds its session's lock exactly in the phases between acquire and release. */
  ghost predicate LockMatchesPhase(s: State) {
    && (forall session | session in s.holder :: s.holder[session].session == session)
    && forall a: Actor :: HasLock(PhaseOf(s, a)) <==> a.session in s.holder && s.holder[a.session] == a
  }

  /** The phases each kind of actor can be in. */
  predicate Fits(a: Actor, p: Phase) {
    match p
    case Idle => true
    case WantLock => !a.Worker?
    case Checking => true
    case Leaving(next) => (next == Refreshed) == a.Worker? && (next == Stale ==> a.Sender?)
    case Working => a.Worker?
    case Done(_) => !a.Worker?
    case _ => a.Sender?
  }

  ghost predicate AllFit(s: State) {
    forall a: Actor :: Fits(a, PhaseOf(s, a))
  }

  /** A worker runs only for its refreshing sender. */
  ghost predicate WorkersServe(s: State) {
    forall a: Actor :: a.Worker? && PhaseOf(s, a) != Idle ==> PhaseOf(s, Sender(a.id, a.session)).Refreshing?
  }

  ghost predicate Roles(s: State) {
    AllFit(s) && WorkersServe(s)
  }

  ghost predicate IsSending(s: State, session: Session) {
    session in s.holder && PhaseOf(s, s.holder[session]).Sending?
  }

  /** The monitor of each session agrees with the state. */
  ghost predicate Monitored(s: State) {
    forall session: Session :: MonitorAgrees(s, session)
  }

  ghost predicate MonitorAgrees(s: State, session: Session) {
    var g := Replay(s.log, session);
    && g.holder == (if session in s.holder then {s.holder[session]} else {})
    && (g.sending <==> IsSending(s, session))
    && (g.revoked <==> session in s.revoked)
    && (g.sending ==> !g.revoked)
  }

  function SlotHolders(phase: map<Actor, Phase>): set<Actor> {
    set a | a in phase && HasSlot(a, phase[a])
  }

  ghost predicate Conserved(s: State) {
    s.slots >= 0 && s.slots + |SlotHolders(s.phase)| == ROLE_CHECK_SLOTS
  }

  ghost predicate Invariant(s: State) {
    LockMatchesPhase(s) && Roles(s) && Monitored(s) && Conserved(s) && Legal(s.log)
  }

  lemma {:induction false} NextFits(s: State, m: Move)
    requires AllFit(s) && Enabled(s, m)
    ensures Fits(m.a, Next(s, m))
  {
    assert Fits(m.a, PhaseOf(s, m.a));
  }

  lemma {:induction false} StepKeepsRoles(s: State, m: Move)
    requires Roles(s) && Enabled(s, m)
    ensures Roles(Do(s, m))
  {
    NextFits(s, m);
    assert AllFit(Do(s, m)) by {
      hide Events, WorkersServe, Next;
      forall a: Actor
        ensures Fits(a, PhaseOf(Do(s, m), a))
      {
        assert Fits(a, PhaseOf(s, a));
      }
    }
    StepKeepsWorkers(s, m);
  }

  lemma {:induction false} StepKeepsWorkers(s: State, m: Move)
    requires Roles(s) && Enabled(s, m)
    ensures WorkersServe(Do(s, m))
  {
    hide Events;
    assert Fits(m.a, PhaseOf(s, m.a));
  }

  lemma {:induction false} StepKeepsLock(s: State, m: Move)
    requires LockMatchesPhase(s) && Roles(s) && Enabled(s, m)
    ensures LockMatchesPhase(Do(s, m))
  {
    hide Events;
  }

  // ----- The log -------------------------------------------------------------------------------

  lemma {:induction false} ReplayOne(log: seq<Event>, e: Event, session: Session)
    ensures Replay(log + [e], session) ==
            if e.session == session then Watch(Replay(log, session), e) else Replay(log, session)
  {
    assert (log + [e])[..|log + [e]| - 1] == log;
  }

  lemma {:induction false} LegalOne(log: seq<Event>, e: Event)
    requires Legal(log) && Permitted(Replay(log, e.session), e)
    ensures Legal(log + [e])
  {
    var log' := log + [e];
    forall i | 0 <= i < |log'|
      ensures Permitted(Replay(log'[..i], log'[i].session), log'[i])
    {
      assert log'[..i] == log[..i];
      if i == |log| {
        assert log[..i] == log;
      } else {
        assert log'[i] == log[i];
      }
    }
  }

  /** Both events of a cleared check, or the one event of any other move. */
  function WatchAll(g: Guard, events: seq<Event>): Guard {
    if |events| == 0 then g
    else if |events| == 1 then Watch(g, events[0])
    else Watch(Watch(g, events[0]), events[1])
  }

  predicate PermittedAll(g: Guard, events: seq<Event>) {
    && (|events| >= 1 ==> Permitted(g, events[0]))
    && (|events| >= 2 ==> Permitted(Watch(g, events[0]), events[1]))
  }

  lemma {:induction false} ReplayAll(log: seq<Event>, m: Move, session: Session)
    ensures Replay(log + Events(m), session) ==
            if m.a.session == session then WatchAll(Replay(log, session), Events(m)) else Replay(log, session)
  {
    hide Replay, Watch;
    var events := Events(m);
    if |events| == 0 {
      assert log + events == log;
    } else if |events| == 1 {
      assert log + events == log + [events[0]];
      ReplayOne(log, events[0], session);
    } else {
      assert log + events == log + [events[0]] + [events[1]];
      ReplayOne(log, events[0], session);
      ReplayOne(log + [events[0]], events[1], session);
    }
  }

  lemma {:induction false} LegalAll(log: seq<Event>, m: Move)
    requires Legal(log) && PermittedAll(Replay(log, m.a.session), Events(m))
    ensures Legal(log + Events(m))
  {
    hide Replay, Watch, Legal, Permitted;
    var events := Events(m);
    if |events| == 0 {
      assert log + events == log;
    } else if |events| == 1 {
      assert log + events == log + [events[0]];
      LegalOne(log, events[0]);
    } else {
      assert log + events == log + [events[0]] + [events[1]];
      LegalOne(log, events[0]);
      ReplayOne(log, events[0], m.a.session);
      LegalOne(log + [events[0]], events[1]);
    }
  }

  /** The monitor permits every event of an enabled move and then agrees with the new state. */
  lemma {:induction false} MoveIsPermitted(s: State, m: Move)
    requires LockMatchesPhase(s) && Roles(s) && MonitorAgrees(s, m.a.session) && Enabled(s, m)
    ensures PermittedAll(Replay(s.log, m.a.session), Events(m))
    ensures MonitorAgrees(Do(s, m), m.a.session)
  {
    hide Replay, Legal, Conserved;
    ReplayAll(s.log, m, m.a.session);
    var p := PhaseOf(s, m.a);
    assert HasLock(p) <==> m.a.session in s.holder && s.holder[m.a.session] == m.a;
  }

  lemma {:induction false} OtherSessionsAgree(s: State, m: Move, session: Session)
    requires LockMatchesPhase(s) && MonitorAgrees(s, session) && Enabled(s, m) && session != m.a.session
    ensures MonitorAgrees(Do(s, m), session)
  {
    hide Replay, Legal;
    ReplayAll(s.log, m, session);
    if session in s.holder {
      var h := s.holder[session];
      assert PhaseOf(Do(s, m), h) == PhaseOf(s, h);
    }
  }

  // ----- The slots -----------------------------------------------------------------------------

  function Delta(s: State, m: Move): int {
    match m
    case TakeSlot(_) => 1
    case Schedule(_, ok) => if ok then 0 else -1
    case Finish(_) => -1
    case _ => 0
  }

  lemma {:induction false} PhaseChangesHolders(phase: map<Actor, Phase>, a: Actor, p: Phase)
    ensures |SlotHolders(phase[a := p])| == |SlotHolders(phase)| + One(HasSlot(a, p)) - One(a in SlotHolders(phase))
  {
    hide HasSlot;
    var before, after := SlotHolders(phase), SlotHolders(phase[a := p]);
    if HasSlot(a, p) {
      assert after == before + {a};
    } else {
      assert after == before - {a};
    }
  }

  lemma {:induction false} StepKeepsSlotHolders(s: State, m: Move)
    requires Roles(s) && Enabled(s, m)
    ensures |SlotHolders(Phases(s, m))| == |SlotHolders(s.phase)| + Delta(s, m)
  {
    var phase := s.phase[m.a := Next(s, m)];
    PhaseChangesHolders(s.phase, m.a, Next(s, m));
    var worker := WorkerOf(m.a);
    if m.Schedule? && m.ok {
      PhaseChangesHolders(phase, worker, Working);
      assert PhaseOf(s, worker) == Idle by {
        assert PhaseOf(s, Sender(worker.id, worker.session)) == PhaseOf(s, m.a);
      }
    }
  }

  lemma {:induction false} StepKeepsInvariant(s: State, m: Move)
    requires Invariant(s) && Enabled(s, m)
    ensures Invariant(Do(s, m))
  {
    hide Legal, Replay, Permitted, LockMatchesPhase, Roles, MonitorAgrees, Events, PermittedAll;
    StepKeepsRoles(s, m);
    StepKeepsLock(s, m);
    StepKeepsSlotHolders(s, m);
    assert MonitorAgrees(s, m.a.session);
    MoveIsPermitted(s, m);
    LegalAll(s.log, m);
    forall session: Session
      ensures MonitorAgrees(Do(s, m), session)
    {
      assert MonitorAgrees(s, session);
      if session != m.a.session {
        OtherSessionsAgree(s, m, session);
      }
    }
    assert m.TakeSlot? ==> s.slots > 0;
  }

  // ----- Runs ----------------------------------------------------------------------------------

  lemma {:induction false} RunKeepsInvariant(moves: seq<Move>, s: State)
    requires Run(moves, s)
    ensures Invariant(s)
    decreases |moves|
  {
    if moves == [] {
      assert SlotHolders(map[]) == {};
      assert forall session: Session :: Replay([], session) == Guard({}, false, false, false);
    } else {
      var last := moves[|moves| - 1];
      var s0 :| Run(moves[..|moves| - 1], s0) && Enabled(s0, last) && s == Do(s0, last);
      RunKeepsInvariant(moves[..|moves| - 1], s0);
      StepKeepsInvariant(s0, last);
    }
  }

  lemma {:induction false} LegalPrefix(log: seq<Event>, n: nat)
    requires Legal(log) && n <= |log|
    ensures Legal(log[..n])
  {
    hide Replay, Permitted;
    forall i | 0 <= i < n
      ensures Permitted(Replay(log[..n][..i], log[..n][i].session), log[..n][i])
    {
      assert log[..n][..i] == log[..i];
    }
  }

  /** A legal log never revokes a session in the middle of a send, and a check stays cleared only
      until the next event of its session. */
  lemma {:induction false} LegalGuard(log: seq<Event>, session: Session)
    requires Legal(log)
    ensures var g := Replay(log, session); !(g.sending && g.revoked) && (g.allowed ==> !g.sending && !g.revoked)
    decreases |log|
  {
    if log != [] {
      var n := |log| - 1;
      LegalPrefix(log, n);
      LegalGuard(log[..n], session);
      assert Permitted(Replay(log[..n], log[n].session), log[n]);
    }
  }

  lemma {:induction false} RevokedForGood(log: seq<Event>, i: nat, j: nat)
    requires i < j <= |log| && log[i].SessionRevoked?
    ensures Replay(log[..j], log[i].session).revoked
    decreases j
  {
    assert log[..j][..j - 1] == log[..j - 1];
    assert log[..j][j - 1] == log[j - 1];
    if i < j - 1 {
      RevokedForGood(log, i, j - 1);
    }
  }

  /** No body of a session is sent, or still being sent, after its revocation. */
  lemma {:induction false} NoSendAfterRevocation(moves: seq<Move>, s: State, i: nat, j: nat)
    requires Run(moves, s)
    requires i < j < |s.log| && s.log[i].SessionRevoked? && s.log[j].session == s.log[i].session
    ensures !s.log[j].Started? && !s.log[j].Exited?
  {
    RunKeepsInvariant(moves, s);
    RevokedForGood(s.log, i, j);
    LegalPrefix(s.log, j);
    LegalGuard(s.log[..j], s.log[j].session);
    assert Permitted(Replay(s.log[..j], s.log[j].session), s.log[j]);
  }

  predicate Quiet(log: seq<Event>, session: Session, lo: nat, hi: nat) {
    forall k | lo <= k < hi && k < |log| :: log[k].session != session
  }

  lemma {:induction false} QuietKeepsGuard(log: seq<Event>, session: Session, lo: nat, hi: nat)
    requires lo <= hi <= |log| && Quiet(log, session, lo, hi)
    ensures Replay(log[..hi], session) == Replay(log[..lo], session)
    decreases hi
  {
    if lo < hi {
      assert log[..hi][..hi - 1] == log[..hi - 1];
      assert log[..hi][hi - 1] == log[hi - 1];
      QuietKeepsGuard(log, session, lo, hi - 1);
    }
  }

  lemma {:induction false} ExitFollowsStart(log: seq<Event>, j: nat, k: nat)
    requires Legal(log) && j < k < |log| && log[j].Started? && log[k].session == log[j].session
    requires Quiet(log, log[j].session, j + 1, k)
    ensures log[k] == Exited(log[j].session, log[j].a)
  {
    hide Replay;
    var session := log[j].session;
    assert log[..j + 1] == log[..j] + [log[j]];
    ReplayOne(log[..j], log[j], session);
    QuietKeepsGuard(log, session, j + 1, k);
    assert Permitted(Replay(log[..j], session), log[j]);
    assert Permitted(Replay(log[..k], session), log[k]);
  }

  /** The lock is kept until the send exits: the session's next event after the start of a send
      is the exit of that same send. */
  lemma {:induction false} LockIsHeldUntilSendExits(moves: seq<Move>, s: State, j: nat, k: nat)
    requires Run(moves, s)
    requires j < k < |s.log| && s.log[j].Started? && s.log[k].session == s.log[j].session
    requires Quiet(s.log, s.log[j].session, j + 1, k)
    ensures s.log[k] == Exited(s.log[j].session, s.log[j].a)
  {
    hide Run, Quiet, LockMatchesPhase, Roles, Monitored, Conserved, Legal;
    RunKeepsInvariant(moves, s);
    ExitFollowsStart(s.log, j, k);
  }

  lemma {:induction false} AllowedByLastCheck(log: seq<Event>, session: Session, a: Actor) returns (i: nat)
    requires Legal(log) && Replay(log, session).allowed && Replay(log, session).holder == {a}
    ensures i < |log| && log[i] == Checked(session, a, true) && Quiet(log, session, i + 1, |log|)
    decreases |log|
  {
    var n := |log| - 1;
    assert Permitted(Replay(log[..n], log[n].session), log[n]);
    LegalPrefix(log, n);
    if log[n].session == session {
      LegalGuard(log[..n], session);
      i := n;
    } else {
      i := AllowedByLastCheck(log[..n], session, a);
    }
  }

  /** Every body is sent under the lock right after an authoritative check that allows it. */
  lemma {:induction false} SendFollowsCheck(moves: seq<Move>, s: State, j: nat) returns (i: nat)
    requires Run(moves, s) && j < |s.log| && s.log[j].Started?
    ensures i < j && s.log[i] == Checked(s.log[j].session, s.log[j].a, true)
    ensures Quiet(s.log, s.log[j].session, i + 1, j)
  {
    RunKeepsInvariant(moves, s);
    LegalPrefix(s.log, j);
    assert Permitted(Replay(s.log[..j], s.log[j].session), s.log[j]);
    i := AllowedByLastCheck(s.log[..j], s.log[j].session, s.log[j].a);
    forall k | i + 1 <= k < j
      ensures s.log[k].session != s.log[j].session
    {
      assert s.log[..j][k].session != s.log[j].session;
    }
  }

  /** The free slots and the actors that hold one always make up the four. */
  lemma {:induction false} SlotsAreConserved(moves: seq<Move>, s: State)
    requires Run(moves, s)
    ensures 0 <= s.slots <= 4 && s.slots + |SlotHolders(s.phase)| == 4
  {
    RunKeepsInvariant(moves, s);
  }

  lemma {:induction false} HolderHasLock(s: State, session: Session)
    requires LockMatchesPhase(s) && session in s.holder
    ensures HasLock(PhaseOf(s, s.holder[session]))
  {
  }

  /** When every actor is finished, whatever the outcomes, no lock and no slot is left taken. */
  lemma {:induction false} NothingIsLeaked(moves: seq<Move>, s: State)
    requires Run(moves, s)
    requires forall a | a in s.phase :: s.phase[a].Idle? || s.phase[a].Done?
    ensures s.holder == map[] && s.slots == 4
  {
    RunKeepsInvariant(moves, s);
    hide Legal, Monitored, Roles;
    assert SlotHolders(s.phase) == {};
    forall session | session in s.holder
      ensures false
    {
      HolderHasLock(s, session);
    }
    assert s.holder.Keys == {};
  }

  /** A move of the protocol itself: no new call, no timeout and no cancellation. */
  predicate IsWork(m: Move) { !m.Call? && !m.GiveUp? && !m.Cancel? && !m.Abandon? }

  /** A lock holder can always go on, so no lock is held forever by a stuck actor. */
  lemma {:induction false} HolderCanMove(moves: seq<Move>, s: State, session: Session) returns (m: Move)
    requires Run(moves, s) && session in s.holder
    ensures m.a == s.holder[session] && Enabled(s, m) && IsWork(m)
  {
    RunKeepsInvariant(moves, s);
    hide Legal, Monitored, Conserved;
    var a := s.holder[session];
    assert HasLock(PhaseOf(s, a));
    match PhaseOf(s, a)
    case Checking => m := if a.Sender? then Resolve(a, Denied) else Update(a, true);
    case Sending(_) => m := SendExits(a, true);
    case Leaving(_) => m := Unlock(a);
  }

  lemma {:induction false} WorkerCanMove(moves: seq<Move>, s: State, w: Actor) returns (m: Move)
    requires Run(moves, s) && w.Worker? && PhaseOf(s, w) != Idle
    ensures m.a == w && Enabled(s, m) && IsWork(m)
  {
    RunKeepsInvariant(moves, s);
    hide Legal, Monitored, Conserved;
    assert Fits(w, PhaseOf(s, w));
    if PhaseOf(s, w).Working? {
      m := Finish(w);
    } else {
      assert HasLock(PhaseOf(s, w));
      m := HolderCanMove(moves, s, w.session);
    }
  }

  lemma {:induction false} SlotHolderExists(s: State) returns (a: Actor)
    requires Conserved(s) && s.slots == 0
    ensures HasSlot(a, PhaseOf(s, a))
  {
    assert SlotHolders(s.phase) != {};
    a :| a in SlotHolders(s.phase);
  }

  /** No wait lasts for want of someone who can move.  An actor inside its call can go on itself,
      unless it waits for a lock that is taken, for a slot when none is free, or for its worker; and
      then the holder of that lock, a holder of a slot, or the worker can go on. */
  lemma {:induction false} EveryWaitCanEnd(moves: seq<Move>, s: State, a: Actor) returns (m: Move)
    requires Run(moves, s) && PhaseOf(s, a) != Idle && !PhaseOf(s, a).Done?
    ensures Enabled(s, m) && IsWork(m)
    ensures var p := PhaseOf(s, a);
            || m.a == a
            || (p == WantLock && a.session in s.holder && m.a == s.holder[a.session])
            || (p == WantSlot && s.slots == 0 && HasSlot(m.a, PhaseOf(s, m.a)))
            || (p.Refreshing? && m.a == WorkerOf(a))
    ensures a.Sender? && (PhaseOf(s, a) == WantLock || PhaseOf(s, a) == WantSlot) ==> Enabled(s, GiveUp(a)) && Enabled(s, Cancel(a))
  {
    RunKeepsInvariant(moves, s);
    hide Legal, Monitored, Conserved;
    var p := PhaseOf(s, a);
    assert Fits(a, p);
    if HasLock(p) {
      m := HolderCanMove(moves, s, a.session);
    } else if p.Working? {
      m := Finish(a);
    } else if p == WantLock {
      m := TakeLock(a);
      if a.session in s.holder {
        m := HolderCanMove(moves, s, a.session);
      }
    } else if p == WantSlot {
      m := TakeSlot(a);
      if s.slots <= 0 {
        SlotsAreConserved(moves, s);
        var b := SlotHolderExists(s);
        if b.Worker? {
          m := WorkerCanMove(moves, s, b);
        } else {
          m := Schedule(b, false);
        }
      }
    } else if p == Scheduling {
      m := Schedule(a, true);
    } else {
      m := Join(a, true, false);
      if PhaseOf(s, WorkerOf(a)) != Idle {
        m := WorkerCanMove(moves, s, WorkerOf(a));
      }
    }
  }

  // ----- Outcomes ----------------------------------------------------------------------------------

  /** The moves of one actor, in order. */
  function Own(moves: seq<Move>, a: Actor): seq<Move> {
    if moves == [] then []
    else
      var last := moves[|moves| - 1];
      Own(moves[..|moves| - 1], a) + if last.a == a then [last] else []
  }

  /** Why an actor is leaving the lock with an outcome: the moves that decided it come last. */
  predicate Decided(own: seq<Move>, a: Actor, outcome: Outcome) {
    var n := |own|;
    match outcome
    case Sent => n >= 2 && own[n - 2] == Resolve(a, Allowed) && own[n - 1] == SendExits(a, true)
    case Refused => n >= 1 && (own[n - 1] == Resolve(a, Denied) || own[n - 1] == Resolve(a, Failed))
    case Stale => n >= 1 && own[n - 1] == Resolve(a, NotAuthoritative)
    case Raised =>
      || (n >= 1 && own[n - 1] == Resolve(a, Interrupted))
      || (n >= 2 && own[n - 1] == SendExits(a, false))
      || (n >= 2 && own[n - 1].SendExits? && own[n - 2] == Abandon(a))
    case Revoked => n >= 1 && own[n - 1] == Update(a, true)
    case Refreshed => false
  }

  /** Where an actor is, told from its own last moves. */
  predicate Explains(own: seq<Move>, a: Actor, p: Phase) {
    var n := |own|;
    match p
    case Idle => n == 0
    case WantLock => n >= 1 && (own[n - 1] == Call(a) || (n >= 2 && own[n - 2] == Schedule(a, true) && own[n - 1] == Join(a, true, false)))
    case Checking => n >= 1 && own[n - 1] == TakeLock(a)
    case Sending(draining) =>
      if draining then n >= 2 && own[n - 2] == Resolve(a, Allowed) && own[n - 1] == Abandon(a)
      else n >= 1 && own[n - 1] == Resolve(a, Allowed)
    case Leaving(outcome) => Decided(own, a, outcome)
    case WantSlot => n >= 1 && own[n - 1] == Unlock(a) && Decided(own[..n - 1], a, Stale)
    case Scheduling => n >= 1 && own[n - 1] == TakeSlot(a)
    case Refreshing(cancelled) =>
      if cancelled then n >= 2 && own[n - 2] == Schedule(a, true) && own[n - 1] == Cancel(a)
      else n >= 1 && own[n - 1] == Schedule(a, true)
    case Working => false
    case Done(result) =>
      || (n >= 1 && own[n - 1] == Unlock(a) && result in {Sent, Refused, Raised, Revoked} && Decided(own[..n - 1], a, result))
      || (result == Refused && n >= 1 && (own[n - 1] == GiveUp(a) || own[n - 1] == Schedule(a, false)))
      || (result == Refused && n >= 2 && own[n - 2] == Schedule(a, true) && own[n - 1].Join? && own[n - 1] != Join(a, true, false))
      || (result == Raised && n >= 1 && own[n - 1] == Cancel(a) && !(n >= 2 && own[n - 2] == Schedule(a, true)))
      || (result == Raised && n >= 3 && own[n - 3] == Schedule(a, true) && own[n - 2] == Cancel(a) && own[n - 1].Join?)
  }

  lemma {:induction false} MoveExplains(s: State, m: Move, own: seq<Move>)
    requires Fits(m.a, PhaseOf(s, m.a)) && Enabled(s, m) && !m.a.Worker? && Explains(own, m.a, PhaseOf(s, m.a))
    ensures Explains(own + [m], m.a, Next(s, m))
  {
    assert (own + [m])[..|own|] == own;
    if m.Unlock? {
      hide Decided;
      UnlockExplains(s, m, own);
    } else if m.Resolve? || m.SendExits? || m.Update? {
      DecisionExplains(s, m, own);
    } else {
      hide Decided;
    }
  }

  lemma {:induction false} UnlockExplains(s: State, m: Move, own: seq<Move>)
    requires Fits(m.a, PhaseOf(s, m.a)) && Enabled(s, m) && m.Unlock? && !m.a.Worker? && Explains(own, m.a, PhaseOf(s, m.a))
    ensures Explains(own + [m], m.a, Next(s, m))
  {
    hide Decided;
    assert (own + [m])[..|own|] == own;
  }

  lemma {:induction false} DecisionExplains(s: State, m: Move, own: seq<Move>)
    requires Fits(m.a, PhaseOf(s, m.a)) && Enabled(s, m) && !m.a.Worker? && Explains(own, m.a, PhaseOf(s, m.a))
    requires m.Resolve? || m.SendExits? || m.Update?
    ensures Explains(own + [m], m.a, Next(s, m))
  {
  }

  /** In every run, what a sender or a revoker came to is what its own last moves say: a message was
      sent only if an allowing check was followed by a clean exit of its send; it was refused only
      for a failed or denied check, a missed deadline, a failed scheduling or a refresh that does not
      allow it; and only an allowing refresh in time leads to another attempt. */
  lemma {:induction false} OutcomeIsExplained(moves: seq<Move>, s: State, a: Actor)
    requires Run(moves, s) && !a.Worker?
    ensures Explains(Own(moves, a), a, PhaseOf(s, a))
    decreases |moves|
  {
    hide Explains, Invariant, Next, Enabled, Events;
    if moves == [] {
      NothingDone(a);
    } else {
      var last := moves[|moves| - 1];
      var s0 :| Run(moves[..|moves| - 1], s0) && Enabled(s0, last) && s == Do(s0, last);
      OutcomeIsExplained(moves[..|moves| - 1], s0, a);
      RunKeepsInvariant(moves[..|moves| - 1], s0);
      AllFitIn(s0);
      if last.a == a {
        assert Fits(a, PhaseOf(s0, a));
        MoveExplains(s0, last, Own(moves[..|moves| - 1], a));
      } else {
        assert Own(moves, a) == Own(moves[..|moves| - 1], a);
      }
    }
  }

  lemma {:induction false} NothingDone(a: Actor)
    ensures Explains(Own([], a), a, PhaseOf(START, a))
  {
  }

  lemma {:induction false} AllFitIn(s: State)
    requires Invariant(s)
    ensures AllFit(s)
  {
  }

  /** How often an actor has started to send. */
  function Starts(log: seq<Event>, a: Actor): nat {
    if log == [] then 0
    else
      var last := log[|log| - 1];
      Starts(log[..|log| - 1], a) + if last.Started? && last.a == a then 1 else 0
  }

  lemma {:induction false} StartsOne(log: seq<Event>, e: Event, a: Actor)
    ensures Starts(log + [e], a) == Starts(log, a) + if e.Started? && e.a == a then 1 else 0
  {
    assert (log + [e])[..|log + [e]| - 1] == log;
  }

  lemma {:induction false} StartsAll(log: seq<Event>, m: Move, a: Actor)
    ensures Starts(log + Events(m), a) == Starts(log, a) + if m.Resolve? && m.verdict == Allowed && m.a == a then 1 else 0
  {
    hide Starts;
    var events := Events(m);
    if |events| == 0 {
      assert log + events == log;
    } else if |events| == 1 {
      assert log + events == log + [events[0]];
      StartsOne(log, events[0], a);
    } else {
      assert log + events == log + [events[0]] + [events[1]];
      StartsOne(log, events[0], a);
      StartsOne(log + [events[0]], events[1], a);
    }
  }

  predicate HasStarted(p: Phase) {
    p.Sending? || p == Leaving(Sent) || p == Done(Sent)
  }

  predicate MayHaveStarted(p: Phase) {
    HasStarted(p) || p == Leaving(Raised) || p == Done(Raised)
  }

  /** A phase and the number of starts behind it. */
  predicate Counts(p: Phase, n: nat) {
    n <= 1 && (HasStarted(p) ==> n == 1) && (!MayHaveStarted(p) ==> n == 0)
  }

  lemma {:induction false} MoveCounts(s: State, m: Move, n: nat)
    requires Fits(m.a, PhaseOf(s, m.a)) && Enabled(s, m) && m.a.Sender? && Counts(PhaseOf(s, m.a), n)
    ensures Counts(Next(s, m), n + if m.Resolve? && m.verdict == Allowed then 1 else 0)
  {
  }

  /** One call hands its message over at most once: exactly once if it reports it as sent, and never
      if it reports a refusal or is still trying. */
  lemma {:induction false} SentAtMostOnce(moves: seq<Move>, s: State, a: Actor)
    requires Run(moves, s) && a.Sender?
    ensures Counts(PhaseOf(s, a), Starts(s.log, a))
    decreases |moves|
  {
    hide Starts, Invariant, Events, Counts, Next, Enabled;
    if moves == [] {
      NoStarts(a);
    } else {
      var last := moves[|moves| - 1];
      var s0 :| Run(moves[..|moves| - 1], s0) && Enabled(s0, last) && s == Do(s0, last);
      SentAtMostOnce(moves[..|moves| - 1], s0, a);
      RunKeepsInvariant(moves[..|moves| - 1], s0);
      AllFitIn(s0);
      assert Fits(last.a, PhaseOf(s0, last.a));
      StartsAll(s0.log, last, a);
      if last.a == a {
        MoveCounts(s0, last, Starts(s0.log, a));
      }
    }
  }

  lemma {:induction false} NoStarts(a: Actor)
    ensures Starts([], a) == 0 && Counts(PhaseOf(START, a), 0)
  {
  }
}
