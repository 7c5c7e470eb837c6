/** Admission counts: bindings and pending handshakes, in total and per dashboard session. */
module EngineQuota {
  import opened Wrappers

  datatype Sid = Sid(text: string)
  datatype Session = Session(text: string)
  type Reservation = nat

  const MAX_CONNECTIONS := 128
  const MAX_PER_SESSION := 8
  const MAX_BINDINGS := 128

  datatype Binding = Binding(session: Session, lastSeen: int)

  function SidsOf(bindings: map<Sid, Binding>, session: Session): set<Sid> {
    set sid | sid in bindings && bindings[sid].session == session
  }

  function ReservationsOf(handshakes: map<Reservation, Session>, session: Session): set<Reservation> {
    set r | r in handshakes && handshakes[r] == session
  }

  function Load(bindings: map<Sid, Binding>, handshakes: map<Reservation, Session>): nat {
    |bindings| + |handshakes|
  }

  function SessionLoad(bindings: map<Sid, Binding>, handshakes: map<Reservation, Session>, session: Session): nat {
    |SidsOf(bindings, session)| + |ReservationsOf(handshakes, session)|
  }

  ghost predicate WithinQuota(bindings: map<Sid, Binding>, handshakes: map<Reservation, Session>) {
    && Load(bindings, handshakes) <= 128
    && forall session :: SessionLoad(bindings, handshakes, session) <= 8
  }

  /** No count is larger than before. */
  ghost predicate NoLarger(b: map<Sid, Binding>, h: map<Reservation, Session>,
                           b': map<Sid, Binding>, h': map<Reservation, Session>) {
    && Load(b', h') <= Load(b, h)
    && forall session :: SessionLoad(b', h', session) <= SessionLoad(b, h, session)
  }

  /** Dropping entries and refreshing times lowers every count or leaves it. */
  lemma {:induction false} FewerBindings(b: map<Sid, Binding>, h: map<Reservation, Session>, b': map<Sid, Binding>)
    requires forall sid | sid in b' :: sid in b && b'[sid].session == b[sid].session
    ensures NoLarger(b, h, b', h)
  {
    SubsetSize(b'.Keys, b.Keys);
    forall session
      ensures SessionLoad(b', h, session) <= SessionLoad(b, h, session)
    {
      SubsetSize(SidsOf(b', session), SidsOf(b, session));
    }
  }

  lemma {:induction false} DropReservation(b: map<Sid, Binding>, h: map<Reservation, Session>, r: Reservation)
    ensures NoLarger(b, h, b, h - {r})
  {
    SubsetSize((h - {r}).Keys, h.Keys);
    forall session
      ensures SessionLoad(b, h - {r}, session) <= SessionLoad(b, h, session)
    {
      SubsetSize(ReservationsOf(h - {r}, session), ReservationsOf(h, session));
    }
  }

  lemma {:induction false} ReservationsAfterAdd(h: map<Reservation, Session>, r: Reservation, session: Session, other: Session)
    requires r !in h
    ensures |ReservationsOf(h[r := session], other)| == |ReservationsOf(h, other)| + One(other == session)
  {
    var before, after := ReservationsOf(h, other), ReservationsOf(h[r := session], other);
    if other == session {
      assert after == before + {r};
    } else {
      assert after == before;
    }
  }

  lemma {:induction false} AddReservation(b: map<Sid, Binding>, h: map<Reservation, Session>, r: Reservation, session: Session)
    requires r !in h
    ensures Load(b, h[r := session]) == Load(b, h) + 1
    ensures forall other :: SessionLoad(b, h[r := session], other) == SessionLoad(b, h, other) + One(other == session)
  {
    hide ReservationsOf, SidsOf;
    assert h[r := session].Keys == h.Keys + {r};
    forall other
      ensures SessionLoad(b, h[r := session], other) == SessionLoad(b, h, other) + One(other == session)
    {
      ReservationsAfterAdd(h, r, session, other);
    }
  }

  lemma {:induction false} SidsAfterAdd(b: map<Sid, Binding>, sid: Sid, binding: Binding, other: Session)
    requires sid !in b
    ensures |SidsOf(b[sid := binding], other)| == |SidsOf(b, other)| + One(other == binding.session)
  {
    var before, after := SidsOf(b, other), SidsOf(b[sid := binding], other);
    if other == binding.session {
      assert after == before + {sid};
    } else {
      assert after == before;
    }
  }

  lemma {:induction false} AddBinding(b: map<Sid, Binding>, h: map<Reservation, Session>, sid: Sid, binding: Binding)
    requires sid !in b
    ensures Load(b[sid := binding], h) == Load(b, h) + 1
    ensures forall other :: SessionLoad(b[sid := binding], h, other) == SessionLoad(b, h, other) + One(other == binding.session)
  {
    hide ReservationsOf, SidsOf;
    assert b[sid := binding].Keys == b.Keys + {sid};
    forall other
      ensures SessionLoad(b[sid := binding], h, other) == SessionLoad(b, h, other) + One(other == binding.session)
    {
      SidsAfterAdd(b, sid, binding, other);
    }
  }

  lemma {:induction false} RemoveReservation(b: map<Sid, Binding>, h: map<Reservation, Session>, r: Reservation)
    requires r in h
    ensures Load(b, h) == Load(b, h - {r}) + 1
    ensures forall other :: SessionLoad(b, h, other) == SessionLoad(b, h - {r}, other) + One(other == h[r])
  {
    AddReservation(b, h - {r}, r, h[r]);
    assert (h - {r})[r := h[r]] == h;
  }

  /** Promotion: a reservation becomes a binding of the same session, and no count rises. */
  lemma {:induction false} PromotionKeepsCounts(b: map<Sid, Binding>, h: map<Reservation, Session>, r: Reservation,
                                                sid: Sid, binding: Binding)
    requires r in h && h[r] == binding.session
    requires sid in b ==> b[sid].session == binding.session
    ensures NoLarger(b, h, b[sid := binding], h - {r})
  {
    RemoveReservation(b, h, r);
    if sid in b {
      FewerBindings(b, h - {r}, b[sid := binding]);
    } else {
      AddBinding(b, h - {r}, sid, binding);
    }
  }

  lemma {:induction false} AddReservationKeepsQuota(b: map<Sid, Binding>, h: map<Reservation, Session>, r: Reservation,
                                                    session: Session)
    requires WithinQuota(b, h) && r !in h
    requires Load(b, h) < MAX_CONNECTIONS && SessionLoad(b, h, session) < MAX_PER_SESSION
    ensures WithinQuota(b, h[r := session])
  {
    AddReservation(b, h, r, session);
    hide SidsOf, ReservationsOf;
    var h' := h[r := session];
    forall other
      ensures SessionLoad(b, h', other) <= MAX_PER_SESSION
    {
      assert SessionLoad(b, h, other) <= MAX_PER_SESSION;
    }
  }

  lemma {:induction false} AddBindingKeepsQuota(b: map<Sid, Binding>, h: map<Reservation, Session>, sid: Sid,
                                                binding: Binding)
    requires WithinQuota(b, h)
    requires if sid in b then b[sid].session == binding.session
             else Load(b, h) < MAX_CONNECTIONS && SessionLoad(b, h, binding.session) < MAX_PER_SESSION
    ensures WithinQuota(b[sid := binding], h) && |b[sid := binding]| <= 128
  {
    if sid in b {
      FewerBindings(b, h, b[sid := binding]);
    } else {
      AddBinding(b, h, sid, binding);
      hide SidsOf, ReservationsOf;
      var b' := b[sid := binding];
      forall other
        ensures SessionLoad(b', h, other) <= MAX_PER_SESSION
      {
        assert SessionLoad(b, h, other) <= MAX_PER_SESSION;
      }
    }
    assert Load(b[sid := binding], h) <= MAX_CONNECTIONS;
  }

  lemma {:induction false} FewerBindingsKeepQuota(b: map<Sid, Binding>, h: map<Reservation, Session>, b': map<Sid, Binding>)
    requires WithinQuota(b, h)
    requires forall sid | sid in b' :: sid in b && b'[sid].session == b[sid].session
    ensures WithinQuota(b', h)
  {
    FewerBindings(b, h, b');
  }

  lemma {:induction false} DroppedReservationKeepsQuota(b: map<Sid, Binding>, h: map<Reservation, Session>, r: Reservation)
    requires WithinQuota(b, h)
    ensures WithinQuota(b, h - {r})
  {
    DropReservation(b, h, r);
  }

  lemma {:induction false} PromotionKeepsQuota(b: map<Sid, Binding>, h: map<Reservation, Session>, r: Reservation,
                                               sid: Sid, binding: Binding)
    requires WithinQuota(b, h) && r in h && h[r] == binding.session
    requires sid in b ==> b[sid].session == binding.session
    ensures WithinQuota(b[sid := binding], h - {r})
  {
    PromotionKeepsCounts(b, h, r, sid, binding);
  }

  lemma {:induction false} NoLargerIsTransitive(b: map<Sid, Binding>, h: map<Reservation, Session>,
                                                b': map<Sid, Binding>, h': map<Reservation, Session>,
                                                b'': map<Sid, Binding>, h'': map<Reservation, Session>)
    requires NoLarger(b, h, b', h') && NoLarger(b', h', b'', h'')
    ensures NoLarger(b, h, b'', h'')
  {
    forall session
      ensures SessionLoad(b'', h'', session) <= SessionLoad(b, h, session)
    {
      assert SessionLoad(b', h', session) <= SessionLoad(b, h, session);
    }
  }
}
