/** The Engine.IO admission controller: bindings, handshakes, upgrades and teardowns.

    Every method that the source runs under the session-bindings lock is one method here, so a
    schedule of several threads is a sequence of calls.  Valid is the inductive invariant: the
    quotas hold, a recorded teardown always has an upgrade in progress and a live binding, and
    a finished teardown is never forgotten.
 */
module EngineAdmission {
  import opened EngineQuota
  import opened Wrappers

  type Task = nat

  const BINDING_TTL := 120

  datatype TaskOutcome = Succeeded | Failed | Cancelled

  predicate Named(sid: Sid, session: Session) {
    sid.text != "" && session.text != ""
  }

  predicate Usable(sid: Sid, session: Session) {
    Named(sid, session) && |sid.text| <= 256
  }

  lemma {:induction false} UsableIsNamed(sid: Sid, session: Session)
    ensures Usable(sid, session) ==> Named(sid, session)
    ensures Usable(sid, session) <==> sid.text != "" && session.text != "" && |sid.text| <= 256
  {
  }

  predicate BoundTo(bindings: map<Sid, Binding>, sid: Sid, session: Session) {
    sid in bindings && bindings[sid].session == session
  }

  /** A release that an ending upgrade has taken over. */
  datatype Claim = Claim(sid: Sid, session: Session)

  predicate Upgrading(b: map<Sid, Binding>, u: map<Sid, nat>) {
    forall sid | sid in u :: u[sid] >= 1 && sid in b
  }

  predicate Recorded(b: map<Sid, Binding>, u: map<Sid, nat>, c: map<Sid, Session>) {
    forall sid | sid in c :: sid in u && BoundTo(b, sid, c[sid])
  }

  predicate Remembered(b: map<Sid, Binding>, c: map<Sid, Session>, t: set<Sid>, o: multiset<Claim>) {
    forall sid | sid in t :: sid in b && (sid in c || Claim(sid, b[sid].session) in o)
  }

  predicate AllNamed(b: map<Sid, Binding>) {
    forall sid | sid in b :: Named(sid, b[sid].session)
  }

  /** A recorded teardown has an upgrade in progress and a live binding of its session; a torn-down
      SID is on record or about to be released. */
  predicate Lifecycle(b: map<Sid, Binding>, u: map<Sid, nat>, c: map<Sid, Session>, t: set<Sid>, o: multiset<Claim>) {
    AllNamed(b) && Upgrading(b, u) && Recorded(b, u, c) && Remembered(b, c, t, o)
  }

  /** The next reservation and the next task have not been handed out. */
  predicate Fresh(h: map<Reservation, Session>, nextReservation: Reservation, d: map<Sid, Task>, f: set<Task>, nextTask: Task) {
    && (forall r | r in h :: r < nextReservation)
    && (forall sid | sid in d :: d[sid] < nextTask)
    && (forall t | t in f :: t < nextTask)
  }

  lemma {:induction false} DroppedReservationIsFresh(h: map<Reservation, Session>, nextReservation: Reservation,
                                                     d: map<Sid, Task>, f: set<Task>, nextTask: Task, r: Reservation)
    requires Fresh(h, nextReservation, d, f, nextTask)
    ensures Fresh(h - {r}, nextReservation, d, f, nextTask)
  {
  }

  predicate SameSessions(b: map<Sid, Binding>, b': map<Sid, Binding>) {
    forall sid | sid in b && sid in b' :: b'[sid].session == b[sid].session
  }

  predicate KeepsKeys(keys: set<Sid>, b: map<Sid, Binding>, b': map<Sid, Binding>) {
    forall sid | sid in keys && sid in b :: sid in b'
  }

  /** What keeps the session of every binding keeps that of the live ones. */
  lemma {:induction false} KeptIsKeptLive(b: map<Sid, Binding>, live: map<Sid, Binding>, keys: set<Sid>)
    requires forall sid | sid in live :: sid in b && live[sid] == b[sid]
    ensures SameSessions(live, b) && KeepsKeys(keys, b, b)
    ensures forall b' :: SameSessions(b, b') ==> SameSessions(live, b')
  {
  }

  /** Bindings may come and go as long as those of running upgrades stay. */
  lemma {:induction false} BindingsKeepLifecycle(b: map<Sid, Binding>, u: map<Sid, nat>, c: map<Sid, Session>, t: set<Sid>,
                                                 o: multiset<Claim>, b': map<Sid, Binding>)
    requires Lifecycle(b, u, c, t, o)
    requires AllNamed(b') && SameSessions(b, b') && KeepsKeys(u.Keys, b, b')
    ensures Lifecycle(b', u, c, t * b'.Keys, o)
  {
  }

  lemma {:induction false} RecordKeepsLifecycle(b: map<Sid, Binding>, u: map<Sid, nat>, c: map<Sid, Session>, t: set<Sid>,
                                                o: multiset<Claim>, sid: Sid, session: Session)
    requires Lifecycle(b, u, c, t, o) && BoundTo(b, sid, session) && sid in u
    ensures Lifecycle(b, u, c[sid := session], t + {sid}, o - multiset{Claim(sid, session)})
    ensures Lifecycle(b, u, c[sid := session], t + {sid}, o)
  {
  }

  lemma {:induction false} FreeKeepsLifecycle(b: map<Sid, Binding>, u: map<Sid, nat>, c: map<Sid, Session>, t: set<Sid>,
                                              o: multiset<Claim>, sid: Sid, session: Session)
    requires Lifecycle(b, u, c, t, o) && BoundTo(b, sid, session) && sid !in u
    ensures Lifecycle(b - {sid}, u, c, t - {sid}, o - multiset{Claim(sid, session)})
    ensures Lifecycle(b - {sid}, u, c, t - {sid}, o)
  {
  }

  lemma {:induction false} ForeignClaimKeepsLifecycle(b: map<Sid, Binding>, u: map<Sid, nat>, c: map<Sid, Session>, t: set<Sid>,
                                                      o: multiset<Claim>, sid: Sid, session: Session)
    requires Lifecycle(b, u, c, t, o) && !BoundTo(b, sid, session)
    ensures Lifecycle(b, u, c, t, o - multiset{Claim(sid, session)})
  {
  }

  lemma {:induction false} BeginKeepsLifecycle(b: map<Sid, Binding>, u: map<Sid, nat>, c: map<Sid, Session>, t: set<Sid>,
                                               o: multiset<Claim>, sid: Sid, n: nat)
    requires Lifecycle(b, u, c, t, o) && sid in b && n >= 1
    ensures Lifecycle(b, u[sid := n], c, t, o)
  {
  }

  lemma {:induction false} EndUpgradeKeepsLifecycle(b: map<Sid, Binding>, u: map<Sid, nat>, c: map<Sid, Session>, t: set<Sid>,
                                                    o: multiset<Claim>, sid: Sid)
    requires Lifecycle(b, u, c, t, o)
    ensures Lifecycle(b, u - {sid}, c - {sid}, t, if sid in c then o + multiset{Claim(sid, c[sid])} else o)
    ensures sid in u && u[sid] > 1 ==> Lifecycle(b, u[sid := u[sid] - 1], c, t, o)
    ensures sid !in u ==> u - {sid} == u
    ensures sid !in c ==> c - {sid} == c
    ensures sid.text == "" ==> sid !in u && sid !in c
  {
  }

  lemma {:induction false} BindKeepsLifecycle(b: map<Sid, Binding>, u: map<Sid, nat>, c: map<Sid, Session>, t: set<Sid>,
                                              o: multiset<Claim>, sid: Sid, session: Session, now: int)
    requires Lifecycle(b, u, c, t, o) && Named(sid, session)
    requires sid in b ==> b[sid].session == session
    ensures Lifecycle(b[sid := Binding(session, now)], u, c, t, o)
    ensures t * b[sid := Binding(session, now)].Keys == t
  {
    assert t * b[sid := Binding(session, now)].Keys == t;
    BindingsKeepLifecycle(b, u, c, t, o, b[sid := Binding(session, now)]);
  }

  lemma {:induction false} TornDownAreBound(b: map<Sid, Binding>, u: map<Sid, nat>, c: map<Sid, Session>, t: set<Sid>,
                                            o: multiset<Claim>)
    requires Lifecycle(b, u, c, t, o)
    ensures t * b.Keys == t
  {
  }

  /** The whole invariant survives when bindings only go or are refreshed. */
  lemma {:induction false} FewerBindingsKeepValidity(b: map<Sid, Binding>, h: map<Reservation, Session>, u: map<Sid, nat>,
                                                     c: map<Sid, Session>, t: set<Sid>, o: multiset<Claim>,
                                                     b': map<Sid, Binding>)
    requires WithinQuota(b, h) && Lifecycle(b, u, c, t, o)
    requires b'.Keys <= b.Keys && SameSessions(b, b') && KeepsKeys(u.Keys, b, b')
    ensures WithinQuota(b', h) && Lifecycle(b', u, c, t * b'.Keys, o)
  {
    FewerBindingsKeepQuota(b, h, b');
    hide WithinQuota;
    assert AllNamed(b');
    BindingsKeepLifecycle(b, u, c, t, o, b');
  }

  lemma {:induction false} RefreshKeepsQuota(b: map<Sid, Binding>, h: map<Reservation, Session>, sid: Sid, now: int)
    requires WithinQuota(b, h) && sid in b
    ensures WithinQuota(b[sid := Binding(b[sid].session, now)], h)
  {
    FewerBindingsKeepQuota(b, h, b[sid := Binding(b[sid].session, now)]);
  }

  lemma {:induction false} LifecycleFacts(b: map<Sid, Binding>, u: map<Sid, nat>, c: map<Sid, Session>, t: set<Sid>,
                                          o: multiset<Claim>, sid: Sid, session: Session)
    requires Lifecycle(b, u, c, t, o)
    ensures sid !in u ==> c - {sid} == c
    ensures sid !in b ==> sid !in u
    ensures BoundTo(b, sid, session) ==> Named(sid, session)
  {
  }

  /** Performing a release, claimed or not, keeps the invariant in each of its three outcomes. */
  lemma {:induction false} ReleaseKeepsValidity(b: map<Sid, Binding>, h: map<Reservation, Session>, u: map<Sid, nat>,
                                                c: map<Sid, Session>, t: set<Sid>, o: multiset<Claim>, sid: Sid,
                                                session: Session, o': multiset<Claim>)
    requires WithinQuota(b, h) && Lifecycle(b, u, c, t, o)
    requires o' == o || o' == o - multiset{Claim(sid, session)}
    ensures sid !in b ==> c - {sid} == c
    ensures BoundTo(b, sid, session) ==> Named(sid, session)
    ensures SameSessions(b, b) && KeepsKeys(u.Keys, b, b)
    ensures SameSessions(b, b - {sid}) && (sid !in u ==> KeepsKeys(u.Keys, b, b - {sid}))
    ensures !BoundTo(b, sid, session) ==> Lifecycle(b, u, c, t, o')
    ensures BoundTo(b, sid, session) && sid in u ==> Lifecycle(b, u, c[sid := session], t + {sid}, o')
    ensures BoundTo(b, sid, session) && sid !in u ==>
              WithinQuota(b - {sid}, h) && c - {sid} == c && Lifecycle(b - {sid}, u, c, t - {sid}, o')
  {
    hide WithinQuota, Lifecycle;
    LifecycleFacts(b, u, c, t, o, sid, session);
    if !BoundTo(b, sid, session) {
      ForeignClaimKeepsLifecycle(b, u, c, t, o, sid, session);
    } else if sid in u {
      RecordKeepsLifecycle(b, u, c, t, o, sid, session);
    } else {
      FewerBindingsKeepQuota(b, h, b - {sid});
      FreeKeepsLifecycle(b, u, c, t, o, sid, session);
    }
  }

  class SocketIOAdmission {
    var bindings: map<Sid, Binding>
    var active: set<Sid>
    var upgrades: map<Sid, nat>
    var handshakes: map<Reservation, Session>
    var disconnects: map<Sid, Task>
    var finished: set<Task>
    var completed: map<Sid, Session>
    var nextReservation: Reservation
    var nextTask: Task

    /** Bindings whose Engine.IO teardown finished while an upgrade was still running. */
    ghost var tornDown: set<Sid>
    /** Releases that an ending upgrade has claimed and not yet performed. */
    ghost var owed: multiset<Claim>

    ghost predicate Valid()
      reads this
    {
      WithinQuota(bindings, handshakes) && Lifecycle(bindings, upgrades, completed, tornDown, owed)
      && Fresh(handshakes, nextReservation, disconnects, finished, nextTask)
    }

    /** A binding that is live at the time keeps its dashboard session, and a SID with an upgrade
        in progress keeps its binding. */
    twostate predicate KeepsLive(now: int)
      reads this`bindings
    {
      SameSessions(old(Unexpired(now)), bindings) && KeepsKeys(old(upgrades).Keys, old(bindings), bindings)
    }

    /** The same of every binding, for the operations that do not prune. */
    twostate predicate KeepsSessions()
      reads this`bindings
    {
      SameSessions(old(bindings), bindings) && KeepsKeys(old(upgrades).Keys, old(bindings), bindings)
    }

    constructor ()
      ensures Valid() && bindings == map[] && handshakes == map[] && tornDown == {} && owed == multiset{}
    {
      bindings, active, upgrades, handshakes := map[], {}, map[], map[];
      disconnects, finished, completed := map[], {}, map[];
      nextReservation, nextTask := 0, 0;
      tornDown, owed := {}, multiset{};
      new;
      assert forall session :: SidsOf(bindings, session) == {} && ReservationsOf(handshakes, session) == {};
    }

    /** A binding that pruning must not remove, however old it is. */
    predicate InUse(sid: Sid)
      reads this`active, this`upgrades, this`disconnects
    {
      sid in active || sid in upgrades || sid in disconnects
    }

    function Unexpired(now: int): map<Sid, Binding>
      reads this`bindings, this`active, this`upgrades, this`disconnects
    {
      map sid | sid in bindings && (bindings[sid].lastSeen > now - BINDING_TTL || InUse(sid)) :: bindings[sid]
    }

    lemma {:induction false} UnexpiredAreBound(now: int)
      ensures forall sid | sid in Unexpired(now) :: sid in bindings && Unexpired(now)[sid] == bindings[sid]
    {
    }

    method Prune(now: int)
      requires Valid()
      modifies this`bindings, this`tornDown
      ensures Valid() && bindings == old(Unexpired(now))
      ensures forall sid | sid in old(bindings) ::
                sid !in bindings <==> now - old(bindings)[sid].lastSeen >= 120 && sid !in active && sid !in upgrades && sid !in disconnects
      ensures forall sid | sid in bindings :: sid in old(bindings) && bindings[sid] == old(bindings)[sid]
      ensures KeepsLive(now)
      ensures tornDown == old(tornDown) * bindings.Keys
    {
      hide WithinQuota, Lifecycle;
      FewerBindingsKeepValidity(bindings, handshakes, upgrades, completed, tornDown, owed, Unexpired(now));
      bindings := Unexpired(now);
      tornDown := tornDown * bindings.Keys;
    }

    predicate Full(session: Session)
      reads this`bindings, this`handshakes
    {
      Load(bindings, handshakes) >= MAX_CONNECTIONS || SessionLoad(bindings, handshakes, session) >= MAX_PER_SESSION
    }

    /** A reservation, unless either limit is reached. */
    method ReserveHandshake(session: Session, now: int) returns (r: Option<Reservation>)
      requires Valid()
      modifies this`bindings, this`tornDown, this`handshakes, this`nextReservation
      ensures Valid() && bindings == old(Unexpired(now)) && tornDown == old(tornDown) * bindings.Keys
      ensures KeepsLive(now)
      ensures r.None? <==> Load(bindings, old(handshakes)) >= 128 || SessionLoad(bindings, old(handshakes), session) >= 8
      ensures r.Some? ==> r.value !in old(handshakes) && handshakes == old(handshakes)[r.value := session]
      ensures r.None? ==> handshakes == old(handshakes)
    {
      hide WithinQuota, Load, SessionLoad, Unexpired, Lifecycle;
      Prune(now);
      if Full(session) {
        return None;
      }
      AddReservationKeepsQuota(bindings, handshakes, nextReservation, session);
      r := Some(nextReservation);
      handshakes := handshakes[nextReservation := session];
      nextReservation := nextReservation + 1;
    }

    method ReleaseHandshake(r: Reservation)
      requires Valid()
      modifies this`handshakes
      ensures Valid() && handshakes == old(handshakes) - {r}
    {
      hide WithinQuota, Lifecycle, Fresh;
      DroppedReservationKeepsQuota(bindings, handshakes, r);
      DroppedReservationIsFresh(handshakes, nextReservation, disconnects, finished, nextTask, r);
      handshakes := handshakes - {r};
    }

    /** Turns a reservation into a binding, once the bindings have been pruned. */
    method PromotePruned(r: Reservation, sid: Sid, session: Session, now: int) returns (ok: bool)
      requires Valid() && Named(sid, session)
      modifies this`bindings, this`handshakes
      ensures Valid() && KeepsSessions() && tornDown == tornDown * bindings.Keys
      ensures handshakes == old(handshakes) - {r}
      ensures NoLarger(old(bindings), old(handshakes), bindings, handshakes)
      ensures ok <==> r in old(handshakes) && old(handshakes)[r] == session
                      && (sid in old(bindings) ==> old(bindings)[sid].session == session)
      ensures bindings == if ok then old(bindings)[sid := Binding(session, now)] else old(bindings)
    {
      hide WithinQuota, NoLarger, Lifecycle, Fresh;
      TornDownAreBound(bindings, upgrades, completed, tornDown, owed);
      DropReservation(bindings, handshakes, r);
      var reserved := if r in handshakes then Some(handshakes[r]) else None;
      if reserved != Some(session) || (sid in bindings && bindings[sid].session != session) {
        ReleaseHandshake(r);
        return false;
      }
      PromotionKeepsQuota(bindings, handshakes, r, sid, Binding(session, now));
      PromotionKeepsCounts(bindings, handshakes, r, sid, Binding(session, now));
      BindKeepsLifecycle(bindings, upgrades, completed, tornDown, owed, sid, session, now);
      DroppedReservationIsFresh(handshakes, nextReservation, disconnects, finished, nextTask, r);
      handshakes := handshakes - {r};
      bindings := bindings[sid := Binding(session, now)];
      ok := true;
    }

    /** Turns a reservation into a binding of the same session.  The reservation is spent either
        way, and neither limit's count rises. */
    method PromoteHandshake(r: Reservation, sid: Sid, session: Session, now: int) returns (ok: bool)
      requires Valid()
      modifies this`bindings, this`tornDown, this`handshakes
      ensures Valid() && KeepsLive(now)
      ensures tornDown == if Usable(sid, session) then old(tornDown) * old(Unexpired(now)).Keys else old(tornDown)
      ensures handshakes == old(handshakes) - {r}
      ensures NoLarger(old(bindings), old(handshakes), bindings, handshakes)
      ensures ok <==> sid.text != "" && session.text != "" && |sid.text| <= 256 && r in old(handshakes) && old(handshakes)[r] == session
                      && (sid in old(Unexpired(now)) ==> old(bindings)[sid].session == session)
      ensures ok ==> bindings == old(Unexpired(now))[sid := Binding(session, now)]
      ensures !ok ==> bindings == if Usable(sid, session) then old(Unexpired(now)) else old(bindings)
    {
      hide WithinQuota, NoLarger, Unexpired, Lifecycle, Usable, Fresh;
      ghost var b, h := bindings, handshakes;
      UsableIsNamed(sid, session);
      UnexpiredAreBound(now);
      TornDownAreBound(b, upgrades, completed, tornDown, owed);
      DropReservation(b, h, r);
      if !Usable(sid, session) {
        ReleaseHandshake(r);
        return false;
      }
      Prune(now);
      ghost var pruned := bindings;
      FewerBindings(b, h, pruned);
      ok := PromotePruned(r, sid, session, now);
      NoLargerIsTransitive(b, h, pruned, h, bindings, handshakes);
    }

    /** The eviction loop: it removes nothing unless there are too many bindings. */
    method EvictExcess()
      modifies this`bindings
      ensures |bindings| <= 128
      ensures |old(bindings)| <= 128 ==> bindings == old(bindings)
    {
      while |bindings| > MAX_BINDINGS
        invariant |old(bindings)| <= MAX_BINDINGS ==> bindings == old(bindings)
        decreases |bindings|
      {
        var oldest :| oldest in bindings;
        assert (bindings - {oldest}).Keys == bindings.Keys - {oldest};
        bindings := bindings - {oldest};
      }
    }

    /** Binds a SID outside a handshake.  The quota was checked, so the eviction never evicts. */
    method BindSid(sid: Sid, session: Session, now: int) returns (ok: bool)
      requires Valid()
      modifies this`bindings, this`tornDown
      ensures Valid() && KeepsLive(now)
      ensures tornDown == if Usable(sid, session) then old(tornDown) * old(Unexpired(now)).Keys else old(tornDown)
      ensures ok <==> sid.text != "" && session.text != "" && |sid.text| <= 256
                      && (if sid in old(Unexpired(now)) then old(bindings)[sid].session == session
                          else Load(old(Unexpired(now)), handshakes) < 128
                               && SessionLoad(old(Unexpired(now)), handshakes, session) < 8)
      ensures ok ==> bindings == old(Unexpired(now))[sid := Binding(session, now)]
      ensures !ok ==> bindings == if Usable(sid, session) then old(Unexpired(now)) else old(bindings)
    {
      hide WithinQuota, Load, SessionLoad, Unexpired, Lifecycle, Usable, Fresh;
      UsableIsNamed(sid, session);
      UnexpiredAreBound(now);
      TornDownAreBound(bindings, upgrades, completed, tornDown, owed);
      if !Usable(sid, session) {
        return false;
      }
      Prune(now);
      if sid in bindings && bindings[sid].session != session {
        return false;
      }
      if sid !in bindings && Full(session) {
        return false;
      }
      AddBindingKeepsQuota(bindings, handshakes, sid, Binding(session, now));
      BindKeepsLifecycle(bindings, upgrades, completed, tornDown, owed, sid, session, now);
      bindings := bindings[sid := Binding(session, now)];
      EvictExcess();
      ok := true;
    }

    /** The locked block of a release. */
    method ApplyRelease(sid: Sid, session: Session)
      modifies this`bindings, this`active, this`completed, this`tornDown
      ensures !(Named(sid, session) && BoundTo(old(bindings), sid, session)) ==>
                bindings == old(bindings) && tornDown == old(tornDown)
                && completed == (if Named(sid, session) && sid !in bindings then old(completed) - {sid} else old(completed))
                && active == (if Named(sid, session) && sid !in bindings then old(active) - {sid} else old(active))
      ensures Named(sid, session) && BoundTo(old(bindings), sid, session) && sid in upgrades ==>
                bindings == old(bindings) && completed == old(completed)[sid := session]
                && active == old(active) && tornDown == old(tornDown) + {sid}
      ensures Named(sid, session) && BoundTo(old(bindings), sid, session) && sid !in upgrades ==>
                bindings == old(bindings) - {sid} && completed == old(completed) - {sid}
                && active == old(active) - {sid} && tornDown == old(tornDown) - {sid}
    {
      if !Named(sid, session) {
        return;
      }
      if sid !in bindings {
        active := active - {sid};
        completed := completed - {sid};
        return;
      }
      if bindings[sid].session != session {
        return;
      }
      if sid in upgrades {
        completed := completed[sid := session];
        tornDown := tornDown + {sid};
        return;
      }
      completed := completed - {sid};
      active := active - {sid};
      bindings := bindings - {sid};
      tornDown := tornDown - {sid};
    }

    /** Frees a SID whose teardown finished, unless an upgrade is in progress; then the teardown
        is recorded and the binding kept.  A release under another session does nothing. */
    method ReleaseSid(sid: Sid, session: Session, ghost claimed: bool)
      requires Valid()
      modifies this`bindings, this`active, this`completed, this`tornDown, this`owed
      ensures Valid() && KeepsSessions()
      ensures owed == if claimed then old(owed) - multiset{Claim(sid, session)} else old(owed)
      ensures BoundTo(old(bindings), sid, session) && sid in upgrades ==>
                bindings == old(bindings) && completed == old(completed)[sid := session]
                && active == old(active) && tornDown == old(tornDown) + {sid}
      ensures BoundTo(old(bindings), sid, session) && sid !in upgrades ==>
                bindings == old(bindings) - {sid} && completed == old(completed)
                && active == old(active) - {sid} && tornDown == old(tornDown) - {sid}
      ensures !BoundTo(old(bindings), sid, session) ==>
                bindings == old(bindings) && completed == old(completed) && tornDown == old(tornDown)
      ensures !BoundTo(old(bindings), sid, session) && sid in bindings ==> active == old(active)
    {
      hide WithinQuota, Lifecycle, Named, SameSessions, KeepsKeys, Fresh, BoundTo;
      ghost var remaining := if claimed then owed - multiset{Claim(sid, session)} else owed;
      ReleaseKeepsValidity(bindings, handshakes, upgrades, completed, tornDown, owed, sid, session, remaining);
      ApplyRelease(sid, session);
      owed := remaining;
    }

    method MarkActive(sid: Sid, activate: bool) returns (ok: bool)
      requires Valid()
      modifies this`active
      ensures Valid()
      ensures ok <==> sid.text != "" && (activate ==> sid !in old(active))
      ensures sid.text != "" ==> active == if activate then old(active) + {sid} else old(active) - {sid}
    {
      if sid.text == "" {
        return false;
      }
      if activate {
        if sid in active {
          return false;
        }
        active := active + {sid};
      } else {
        active := active - {sid};
      }
      ok := true;
    }

    /** No upgrade starts on a SID that is being torn down or whose teardown is recorded. */
    method BeginUpgrade(sid: Sid, session: Session, now: int) returns (ok: bool)
      requires Valid()
      modifies this`bindings, this`tornDown, this`upgrades
      ensures Valid() && KeepsLive(now) && tornDown == old(tornDown) * bindings.Keys
      ensures ok <==> Named(sid, session) && sid !in disconnects && sid !in completed
                      && BoundTo(old(Unexpired(now)), sid, session)
      ensures ok ==> bindings == old(Unexpired(now))[sid := Binding(session, now)]
                     && upgrades == old(upgrades)[sid := (if sid in old(upgrades) then old(upgrades)[sid] else 0) + 1]
      ensures !ok ==> upgrades == old(upgrades)
    {
      hide WithinQuota, Unexpired, Lifecycle;
      UnexpiredAreBound(now);
      TornDownAreBound(bindings, upgrades, completed, tornDown, owed);
      if !Named(sid, session) {
        return false;
      }
      Prune(now);
      if sid in disconnects || sid in completed {
        return false;
      }
      if sid !in bindings || bindings[sid].session != session {
        return false;
      }
      RefreshKeepsQuota(bindings, handshakes, sid, now);
      BindKeepsLifecycle(bindings, upgrades, completed, tornDown, owed, sid, session, now);
      var pending := if sid in upgrades then upgrades[sid] else 0;
      BeginKeepsLifecycle(bindings[sid := Binding(session, now)], upgrades, completed, tornDown, owed, sid, pending + 1);
      upgrades := upgrades[sid := pending + 1];
      bindings := bindings[sid := Binding(session, now)];
      ok := true;
    }

    /** The locked half of ending an upgrade: the last one takes over a recorded teardown. */
    method EndUpgrade(sid: Sid) returns (teardown: Option<Session>)
      requires Valid()
      modifies this`upgrades, this`completed, this`owed
      ensures Valid()
      ensures sid in old(upgrades) && old(upgrades)[sid] > 1 ==>
                teardown == None && upgrades == old(upgrades)[sid := old(upgrades)[sid] - 1] && completed == old(completed)
      ensures !(sid in old(upgrades) && old(upgrades)[sid] > 1) ==>
                upgrades == old(upgrades) - {sid} && completed == old(completed) - {sid}
                && teardown == if sid in old(completed) then Some(old(completed)[sid]) else None
      ensures owed == if teardown.Some? then old(owed) + multiset{Claim(sid, teardown.value)} else old(owed)
    {
      hide WithinQuota, Lifecycle;
      EndUpgradeKeepsLifecycle(bindings, upgrades, completed, tornDown, owed, sid);
      teardown := None;
      if sid.text == "" {
        return;
      }
      var pending := if sid in upgrades then upgrades[sid] else 0;
      if pending <= 1 {
        upgrades := upgrades - {sid};
        if sid in completed {
          teardown := Some(completed[sid]);
          owed := owed + multiset{Claim(sid, completed[sid])};
        }
        completed := completed - {sid};
      } else {
        upgrades := upgrades[sid := pending - 1];
      }
    }

    method BelongsToSession(sid: Sid, session: Session, now: int) returns (ok: bool)
      requires Valid()
      modifies this`bindings, this`tornDown
      ensures Valid() && KeepsLive(now) && tornDown == old(tornDown) * bindings.Keys
      ensures ok <==> Named(sid, session) && BoundTo(old(Unexpired(now)), sid, session)
      ensures bindings == if Named(sid, session) then old(Unexpired(now)) else old(bindings)
    {
      hide WithinQuota, Unexpired, Lifecycle;
      UnexpiredAreBound(now);
      TornDownAreBound(bindings, upgrades, completed, tornDown, owed);
      if !Named(sid, session) {
        return false;
      }
      Prune(now);
      ok := BoundTo(bindings, sid, session);
    }

    method MatchesSid(sid: Sid, session: Session, now: int) returns (ok: bool)
      requires Valid()
      modifies this`bindings, this`tornDown
      ensures Valid() && KeepsLive(now) && tornDown == old(tornDown) * bindings.Keys
      ensures ok <==> Named(sid, session) && BoundTo(old(Unexpired(now)), sid, session)
      ensures ok ==> bindings == old(Unexpired(now))[sid := Binding(session, now)]
      ensures !ok ==> bindings == if Named(sid, session) then old(Unexpired(now)) else old(bindings)
    {
      hide WithinQuota, Unexpired, Lifecycle;
      UnexpiredAreBound(now);
      TornDownAreBound(bindings, upgrades, completed, tornDown, owed);
      if !Named(sid, session) {
        return false;
      }
      Prune(now);
      if !BoundTo(bindings, sid, session) {
        return false;
      }
      RefreshKeepsQuota(bindings, handshakes, sid, now);
      BindKeepsLifecycle(bindings, upgrades, completed, tornDown, owed, sid, session, now);
      bindings := bindings[sid := Binding(session, now)];
      ok := true;
    }

    /** Drops the binding of a session that is no longer active, but never one that a WebSocket
        or an upgrade still uses. */
    method RefreshForActiveSession(sid: Sid, session: Session, sessionActive: bool, now: int) returns (ok: bool)
      requires Valid()
      modifies this`bindings, this`tornDown
      ensures Valid() && KeepsLive(now) && tornDown == old(tornDown) * bindings.Keys
      ensures ok <==> sessionActive && Named(sid, session) && BoundTo(old(Unexpired(now)), sid, session)
      ensures ok ==> bindings == old(Unexpired(now))[sid := Binding(session, now)]
      ensures !sessionActive ==>
                bindings == if sid !in active && sid !in upgrades && BoundTo(old(bindings), sid, session)
                            then old(bindings) - {sid} else old(bindings)
    {
      hide WithinQuota, Lifecycle;
      UnexpiredAreBound(now);
      TornDownAreBound(bindings, upgrades, completed, tornDown, owed);
      if sid !in upgrades {
        FewerBindingsKeepValidity(bindings, handshakes, upgrades, completed, tornDown, owed, bindings - {sid});
      }
      if !sessionActive {
        if sid !in active && sid !in upgrades && BoundTo(bindings, sid, session) {
          bindings := bindings - {sid};
          tornDown := tornDown * bindings.Keys;
        }
        return false;
      }
      ok := MatchesSid(sid, session, now);
    }

    /** At most one unfinished disconnect task per SID. */
    method StartDisconnect(sid: Sid, available: bool) returns (task: Option<Task>)
      requires Valid()
      modifies this`disconnects, this`nextTask
      ensures Valid()
      ensures sid in old(disconnects) && old(disconnects)[sid] !in finished ==>
                task == Some(old(disconnects)[sid]) && disconnects == old(disconnects)
      ensures !(sid in old(disconnects) && old(disconnects)[sid] !in finished) ==>
                if available
                then task.Some? && task.value !in finished && task.value !in old(disconnects).Values
                     && disconnects == old(disconnects)[sid := task.value]
                else task.None? && disconnects == old(disconnects)
    {
      hide WithinQuota, Lifecycle;
      if sid in disconnects && disconnects[sid] !in finished {
        return Some(disconnects[sid]);
      }
      if !available {
        return None;
      }
      assert forall s | s in disconnects :: disconnects[s] != nextTask;
      task := Some(nextTask);
      disconnects := disconnects[sid := nextTask];
      nextTask := nextTask + 1;
    }

    /** A disconnect task comes to its end; its callback runs later. */
    method FinishTask(task: Task)
      requires Valid() && task < nextTask
      modifies this`finished
      ensures Valid() && finished == old(finished) + {task}
    {
      hide WithinQuota, Lifecycle;
      finished := finished + {task};
    }

    /** What the callback of a finished task does before it takes the lock: a failed task is retried,
        a cancelled one leaves everything as it is, and only a successful one goes on to release. */
    method DoneCallback(sid: Sid, task: Task, outcome: TaskOutcome, available: bool)
      returns (releases: bool, retry: Option<Task>)
      requires Valid() && task in finished
      modifies this`disconnects, this`nextTask
      ensures Valid() && (releases <==> outcome == Succeeded)
      ensures outcome != Failed ==>
                retry.None? && disconnects == if sid in old(disconnects) && old(disconnects)[sid] == task
                                              then old(disconnects) - {sid} else old(disconnects)
      ensures retry.Some? ==> sid in disconnects && disconnects[sid] == retry.value && retry.value !in finished
      ensures outcome == Failed && available ==> retry.Some?
    {
      hide WithinQuota, Lifecycle;
      retry, releases := None, false;
      if sid in disconnects && disconnects[sid] == task {
        disconnects := disconnects - {sid};
      }
      if outcome == Cancelled {
        return;
      }
      if outcome == Failed {
        retry := StartDisconnect(sid, available);
        return;
      }
      releases := true;
    }

    /** Once no claimed release is outstanding, a torn-down SID is kept only by a running
        upgrade, and its teardown is on record. */
    lemma {:induction false} TeardownIsNotForgotten()
      requires Valid() && |owed| == 0
      ensures forall sid | sid in tornDown :: sid in upgrades && sid in completed
    {
      forall sid | sid in tornDown
        ensures sid in completed
      {
        assert Claim(sid, bindings[sid].session) !in owed;
      }
    }

    /** Ending the last upgrade of a torn-down SID and performing the claimed release frees the
        binding, when nothing else happens in between. */
    method EndLastUpgrade(sid: Sid)
      requires Valid() && sid in completed && upgrades[sid] == 1
      modifies this
      ensures Valid() && sid !in bindings && sid !in upgrades && sid !in completed && sid !in active
      ensures bindings == old(bindings) - {sid} && owed == old(owed)
    {
      hide WithinQuota;
      var teardown := EndUpgrade(sid);
      ReleaseSid(sid, teardown.value, true);
    }

    /** One step of any thread, at one reading of the clock. */
    method Perform(op: Op, now: int)
      requires Valid()
      modifies this
      ensures Valid() && KeepsLive(now) && old(finished) <= finished
      ensures tornDown >= old(tornDown) * old(Unexpired(now)).Keys * bindings.Keys
    {
      hide Valid, Unexpired, SameSessions, KeepsKeys, BoundTo, Named, Usable, Load, SessionLoad, NoLarger;
      UnexpiredAreBound(now);
      KeptIsKeptLive(bindings, Unexpired(now), upgrades.Keys);
      match op {
        case Reserve(session) => var _ := ReserveHandshake(session, now);
        case Unreserve(r) => ReleaseHandshake(r);
        case Promote(r, sid, session) => var _ := PromoteHandshake(r, sid, session, now);
        case Bind(sid, session) => var _ := BindSid(sid, session, now);
        case Release(sid, session, claimed) => ReleaseSid(sid, session, claimed);
        case Mark(sid, activate) => var _ := MarkActive(sid, activate);
        case Begin(sid, session) => var _ := BeginUpgrade(sid, session, now);
        case End(sid) => var _ := EndUpgrade(sid);
        case Belongs(sid, session) => var _ := BelongsToSession(sid, session, now);
        case Refresh(sid, session, sessionActive) => var _ := RefreshForActiveSession(sid, session, sessionActive, now);
        case Disconnect(sid, available) => var _ := StartDisconnect(sid, available);
        case Finish(task) =>
          if task < nextTask {
            FinishTask(task);
          }
        case Callback(sid, task, outcome, available) =>
          if task in finished {
            var _, _ := DoneCallback(sid, task, outcome, available);
          }
      }
    }

    /** Every schedule of every thread's steps keeps the invariant. */
    method Run(schedule: seq<(Op, int)>)
      requires Valid()
      modifies this
      ensures Valid() && old(finished) <= finished
      ensures |owed| == 0 ==> forall sid | sid in tornDown :: sid in upgrades && sid in completed
    {
      for i := 0 to |schedule|
        invariant Valid() && old(finished) <= finished
      {
        Perform(schedule[i].0, schedule[i].1);
      }
      if |owed| == 0 {
        TeardownIsNotForgotten();
      }
    }

    /** Other threads take any number of steps. */
    method OtherThreads()
      requires Valid()
      modifies this
      ensures Valid() && old(finished) <= finished
    {
      hide WithinQuota, Lifecycle;
      var schedule: seq<(Op, int)> := *;
      Run(schedule);
    }

    /** A finished disconnect task from its end to the last release, with other threads between any
        two sections.  The SID and the handshake slot stay counted until a teardown succeeds.
        called: what is counted when the callback runs; released: the SID's part of the state right
        after its release. */
    method DisconnectDone(sid: Sid, session: Session, task: Task, outcome: TaskOutcome,
                          reservation: Option<Reservation>, available: bool)
      returns (retry: Option<Task>, ghost called: (map<Sid, Binding>, map<Reservation, Session>),
               ghost released: (map<Sid, Binding>, map<Sid, nat>, map<Sid, Session>))
      requires Valid() && task < nextTask
      modifies this
      ensures Valid()
      ensures outcome != Succeeded ==> (bindings, handshakes) == called
      ensures outcome == Failed && available ==> retry.Some?
      ensures outcome != Failed ==> retry.None?
      ensures outcome == Succeeded && BoundTo(released.0, sid, session) ==> sid in released.1 && sid in released.2
      ensures outcome == Succeeded && reservation.Some? ==> reservation.value !in handshakes
    {
      hide WithinQuota, Lifecycle, Fresh;
      FinishTask(task);
      OtherThreads();
      called, released := (bindings, handshakes), (bindings, upgrades, completed);
      var releases;
      releases, retry := DoneCallback(sid, task, outcome, available);
      if !releases {
        return;
      }
      OtherThreads();
      ReleaseSid(sid, session, false);
      released := (bindings, upgrades, completed);
      if reservation.Some? {
        OtherThreads();
        ReleaseHandshake(reservation.value);
      }
    }
  }

  /** What a thread does under the lock; a claimed release performs one an ending upgrade owes. */
  datatype Op =
    | Reserve(session: Session)
    | Unreserve(r: Reservation)
    | Promote(r: Reservation, sid: Sid, session: Session)
    | Bind(sid: Sid, session: Session)
    | Release(sid: Sid, session: Session, ghost claimed: bool)
    | Mark(sid: Sid, activate: bool)
    | Begin(sid: Sid, session: Session)
    | End(sid: Sid)
    | Belongs(sid: Sid, session: Session)
    | Refresh(sid: Sid, session: Session, sessionActive: bool)
    | Disconnect(sid: Sid, available: bool)
    | Finish(task: Task)
    | Callback(sid: Sid, task: Task, outcome: TaskOutcome, available: bool)
}
