/** Runs of several receipt stores on one Redis server, with and without coordinators.

    The log of a run holds the receipts issued, the receipts consumed and the resources
    invalidated, in order.  Whatever the clients ask for, whatever fails and whatever other
    processes do to Redis: a token is consumed at most once, a revision is consumed at most once
    by all stores together, and no consume or invalidation of its resource lies between a
    consumed receipt's issue and its consumption.
 */
module ReviewRuns {
  import opened ReviewRedis
  import opened ReviewServer
  import opened ReviewReceipts
  import opened Wrappers

  datatype Step =
    | Issue(session: string, intent: string, key: Option<Key>)
    | Consume(token: Token, session: string, intent: string, key: Option<Key>)
    | Invalidate(resource: Key)

  /** The position `at` counts the commands of the shared run, or the ended reviews of a store
      without a coordinator.  An issue has the position of its review. */
  datatype Event =
    | Issued(store: nat, key: Option<Key>, at: nat, token: Token)
    | Used(store: nat, key: Option<Key>, at: nat, token: Token, receipt: Receipt)
    | Invalidated(store: nat, key: Option<Key>, at: nat)

  /** The event ends every outstanding review of the resource. */
  predicate Ends(event: Event, key: Option<Key>) {
    !event.Issued? && event.key == key && key.Some?
  }

  /** Stores with coordinators share their resources; a store without one has its own. */
  predicate OneHistory(shared: seq<bool>, i: nat, j: nat) {
    i == j || (i < |shared| && j < |shared| && shared[i] && shared[j])
  }

  // ----- The promises ----------------------------------------------------------------------------

  ghost predicate TokensUsedOnce(log: seq<Event>) {
    forall a, b | 0 <= a < b < |log| && log[a].Used? && log[b].Used? && log[a].store == log[b].store ::
      log[a].token != log[b].token
  }

  /** Two consumed receipts of one resource, generation and revision are the same. */
  ghost predicate RevisionsUsedOnce(log: seq<Event>, shared: seq<bool>) {
    forall a, b | 0 <= a < b < |log| && log[a].Used? && log[b].Used? && OneHistory(shared, log[a].store, log[b].store) ::
      DifferentRevisions(log[a].receipt, log[b].receipt)
  }

  predicate DifferentRevisions(r: Receipt, s: Receipt) {
    r.key.Some? && r.key == s.key ==> r.epoch != s.epoch || r.revision != s.revision
  }

  /** The receipt consumed at b was issued at a, and its resource was not ended in between. */
  ghost predicate UndisturbedSince(log: seq<Event>, shared: seq<bool>, a: nat, b: nat)
    requires a < b < |log| && log[b].Used?
  {
    && log[a].Issued? && log[a].store == log[b].store && log[a].token == log[b].token && log[a].key == log[b].key
    && forall k | a < k < b :: OneHistory(shared, log[k].store, log[b].store) ==> !Ends(log[k], log[b].key)
  }

  ghost predicate Undisturbed(log: seq<Event>, shared: seq<bool>) {
    forall b | 0 <= b < |log| && log[b].Used? :: exists a | 0 <= a < b :: UndisturbedSince(log, shared, a, b)
  }

  /** Calls of different stores may overlap: their commands interleave in the shared run.  The
      calls of two coordinated consumes of one resource, generation and revision are the same. */
  lemma {:induction false} OneCallConsumes(run: seq<Command>, start: nat, start': nat, r: Receipt, r': Receipt,
                                           e: Evidence, e': Evidence, at: nat, at': nat, call: nat, call': nat)
    requires Spends(run, start, r, e, at, call) && Spends(run, start', r', e', at', call')
    requires !DifferentRevisions(r, r')
    ensures call == call' && at == at'
  {
    AdvancedAtMostOnce(run, at, at', r.key.value, r.epoch.value, r.revision.value);
  }

  // ----- What connects the log to the stores -------------------------------------------------------

  function Since(receipt: Receipt, evidence: map<Token, Evidence>, t: Token, shared: bool): nat {
    if receipt.key.None? || t !in evidence then 0
    else if shared then evidence[t].revisionAt
    else evidence[t].endsAt
  }

  /** Every stored receipt was issued, and every consumed one is gone. */
  ghost predicate StoreLog(log: seq<Event>, i: nat, items: map<Token, Receipt>, evidence: map<Token, Evidence>,
                           spent: set<Token>, shared: bool)
  {
    && (forall t | t in items :: Issued(i, items[t].key, Since(items[t], evidence, t, shared), t) in log)
    && forall b | 0 <= b < |log| && log[b].Used? && log[b].store == i :: log[b].token in spent
  }

  /** The events of a store without a coordinator are the ends of its reviews. */
  ghost predicate LocalLog(log: seq<Event>, i: nat, ends: seq<Key>) {
    forall b | 0 <= b < |log| && log[b].store == i && log[b].key.Some? :: LocalEvent(log[b], ends)
  }

  ghost predicate LocalEvent(event: Event, ends: seq<Key>) {
    && event.at <= |ends|
    && (!event.Issued? ==> event.at < |ends| && event.key == Some(ends[event.at]))
    && (event.Used? ==> event.receipt.revision == Some(Count(ends[..event.at], ends[event.at])))
  }

  /** The events of the other stores are advances of the shared run. */
  ghost predicate SharedLog(log: seq<Event>, shared: seq<bool>, run: seq<Command>) {
    forall b | 0 <= b < |log| && log[b].store < |shared| && shared[log[b].store] && log[b].key.Some? :: SharedEvent(log[b], run)
  }

  ghost predicate SharedEvent(event: Event, run: seq<Command>) {
    && event.at <= |run|
    && (!event.Issued? ==> event.key.Some? && event.at < |run| && exists epoch: Epoch, revision: nat :: Advances(run, event.at, event.key.value, epoch, revision))
    && (event.Used? ==>
          && event.key.Some? && event.receipt.epoch.Some? && event.receipt.revision.Some?
          && Advances(run, event.at, event.key.value, event.receipt.epoch.value, event.receipt.revision.value))
  }

  /** An end has a later position than everything before it in its history. */
  ghost predicate Orderly(log: seq<Event>, shared: seq<bool>) {
    forall a, b | 0 <= a < b < |log| && !log[b].Issued? && log[a].key.Some? && log[b].key.Some?
                  && OneHistory(shared, log[a].store, log[b].store) ::
      Earlier(log[a], log[b])
  }

  predicate Earlier(a: Event, b: Event) {
    a.at <= b.at && (!a.Issued? ==> a.at < b.at)
  }

  ghost predicate Labelled(log: seq<Event>) {
    forall b | 0 <= b < |log| && log[b].Used? :: log[b].key == log[b].receipt.key
  }

  ghost predicate Promises(log: seq<Event>, shared: seq<bool>) {
    && TokensUsedOnce(log) && RevisionsUsedOnce(log, shared) && Undisturbed(log, shared)
    && Labelled(log) && Orderly(log, shared)
  }

  // ----- One more event --------------------------------------------------------------------------

  /** The promises carry over to one more event if they hold of it. */
  lemma {:induction false} OneMoreEvent(log: seq<Event>, shared: seq<bool>, event: Event)
    requires Promises(log, shared) && (event.Used? ==> event.key == event.receipt.key)
    requires !event.Issued? && event.key.Some? ==>
               forall a | 0 <= a < |log| && log[a].key.Some? && OneHistory(shared, log[a].store, event.store) :: Earlier(log[a], event)
    requires event.Used? ==>
               forall a | 0 <= a < |log| && log[a].Used? && log[a].store == event.store :: log[a].token != event.token
    requires event.Used? ==>
               forall a | 0 <= a < |log| && log[a].Used? && OneHistory(shared, log[a].store, event.store) ::
                 DifferentRevisions(log[a].receipt, event.receipt)
    requires event.Used? ==> exists a | 0 <= a < |log| :: UndisturbedSince(log + [event], shared, a, |log|)
    ensures Promises(log + [event], shared)
  {
    hide Earlier, DifferentRevisions;
    var next := log + [event];
    forall b | 0 <= b < |next| && next[b].Used?
      ensures exists a | 0 <= a < b :: UndisturbedSince(next, shared, a, b)
    {
      if b < |log| {
        var a :| 0 <= a < b && UndisturbedSince(log, shared, a, b);
        assert UndisturbedSince(next, shared, a, b);
      }
    }
  }

  /** The shared run has grown. */
  lemma {:induction false} SharedLogGrows(log: seq<Event>, shared: seq<bool>, run: seq<Command>, run': seq<Command>)
    requires SharedLog(log, shared, run) && run <= run'
    ensures SharedLog(log, shared, run')
  {
    hide Advances;
    forall b | 0 <= b < |log| && log[b].store < |shared| && shared[log[b].store] && log[b].key.Some?
      ensures SharedEvent(log[b], run')
    {
      assert SharedEvent(log[b], run);
      if !log[b].Issued? {
        var epoch: Epoch, revision: nat :| Advances(run, log[b].at, log[b].key.value, epoch, revision);
        StillAdvances(run, run', log[b].at, log[b].key.value, epoch, revision);
        if log[b].Used? {
          StillAdvances(run, run', log[b].at, log[b].key.value, log[b].receipt.epoch.value, log[b].receipt.revision.value);
        }
      }
    }
  }

  lemma {:induction false} LocalLogGrows(log: seq<Event>, i: nat, ends: seq<Key>, key: Key)
    requires LocalLog(log, i, ends)
    ensures LocalLog(log, i, ends + [key])
  {
    forall b | 0 <= b < |log| && log[b].store == i && log[b].key.Some?
      ensures LocalEvent(log[b], ends + [key])
    {
      assert LocalEvent(log[b], ends);
      assert (ends + [key])[..log[b].at] == ends[..log[b].at];
    }
  }

  lemma {:induction false} LabelledTwo(log: seq<Event>, event: Event, a: nat)
    requires Labelled(log + [event]) && a < |log|
    ensures log[a].Used? ==> log[a].key == log[a].receipt.key
    ensures event.Used? ==> event.key == event.receipt.key
  {
    assert (log + [event])[a] == log[a] && (log + [event])[|log|] == event;
  }

  /** A local consume comes after everything in its store, and carries a revision of its own. */
  lemma {:induction false} LocalEndIsLast(log: seq<Event>, i: nat, ends: seq<Key>, a: nat, event: Event)
    requires Labelled(log + [event]) && LocalLog(log, i, ends) && a < |log| && log[a].store == i && log[a].key.Some?
    requires event.key.Some? && LocalEvent(event, ends + [event.key.value]) && event.at == |ends| && !event.Issued?
    ensures Earlier(log[a], event)
    ensures event.Used? && log[a].Used? ==> DifferentRevisions(log[a].receipt, event.receipt)
  {
    hide Count;
    assert LocalEvent(log[a], ends);
    LabelledTwo(log, event, a);
    if event.Used? && log[a].Used? && log[a].key == event.key {
      assert (ends + [event.key.value])[..|ends|] == ends;
      CountOne(ends[..log[a].at], ends[log[a].at], event.key.value);
      assert ends[..log[a].at] + [ends[log[a].at]] == ends[..log[a].at + 1];
      CountPart(ends, log[a].at + 1, event.key.value);
    }
  }

  lemma {:induction false} SharedEndIsLast(log: seq<Event>, shared: seq<bool>, run: seq<Command>, run': seq<Command>, a: nat, event: Event)
    requires Labelled(log + [event]) && SharedLog(log, shared, run) && a < |log| && log[a].store < |shared| && shared[log[a].store] && log[a].key.Some?
    requires run <= run' && SharedEvent(event, run') && |run| <= event.at && !event.Issued?
    ensures Earlier(log[a], event)
    ensures event.Used? && log[a].Used? ==> DifferentRevisions(log[a].receipt, event.receipt)
  {
    assert SharedEvent(log[a], run);
    LabelledTwo(log, event, a);
    if event.Used? && log[a].Used? && !DifferentRevisions(log[a].receipt, event.receipt) {
      SharedLogGrows(log, shared, run, run');
      assert SharedEvent(log[a], run');
      AdvancedAtMostOnce(run', log[a].at, event.at, event.key.value, event.receipt.epoch.value, event.receipt.revision.value);
    }
  }

  /** Nothing between its issue and its consumption ended the review. */
  lemma {:induction false} SharedUseIsUndisturbed(log: seq<Event>, shared: seq<bool>, run: seq<Command>, run': seq<Command>,
                                                  since: nat, event: Event)
    requires Orderly(log, shared) && SharedLog(log, shared, run) && run <= run'
    requires event.Used? && event.key.Some? && event.store < |shared| && shared[event.store] && |run| <= event.at
    requires Issued(event.store, event.key, since, event.token) in log
    requires NoAdvance(run', since, event.at, event.key.value)
    ensures exists a | 0 <= a < |log| :: UndisturbedSince(log + [event], shared, a, |log|)
  {
    hide Advances;
    SharedLogGrows(log, shared, run, run');
    var a :| 0 <= a < |log| && log[a] == Issued(event.store, event.key, since, event.token);
    forall k | a < k < |log| && OneHistory(shared, log[k].store, event.store)
      ensures !Ends(log[k], event.key)
    {
      if Ends(log[k], event.key) {
        assert false;
      }
    }
    assert UndisturbedSince(log + [event], shared, a, |log|);
  }

  lemma {:induction false} LocalUseIsUndisturbed(log: seq<Event>, shared: seq<bool>, ends: seq<Key>, since: nat, event: Event)
    requires Orderly(log, shared) && LocalLog(log, event.store, ends)
    requires event.Used? && event.key.Some? && event.store < |shared| && !shared[event.store]
    requires Issued(event.store, event.key, since, event.token) in log
    requires NotEndedSince(ends, since, event.key.value)
    ensures exists a | 0 <= a < |log| :: UndisturbedSince(log + [event], shared, a, |log|)
  {
    hide Count;
    var a :| 0 <= a < |log| && log[a] == Issued(event.store, event.key, since, event.token);
    forall k | a < k < |log| && OneHistory(shared, log[k].store, event.store)
      ensures !Ends(log[k], event.key)
    {
      if Ends(log[k], event.key) {
        assert false;
      }
    }
    assert UndisturbedSince(log + [event], shared, a, |log|);
  }

  lemma {:induction false} PlainUseIsUndisturbed(log: seq<Event>, shared: seq<bool>, since: nat, event: Event)
    requires event.Used? && event.key.None? && Issued(event.store, None, since, event.token) in log
    ensures exists a | 0 <= a < |log| :: UndisturbedSince(log + [event], shared, a, |log|)
  {
    var a :| 0 <= a < |log| && log[a] == Issued(event.store, None, since, event.token);
    assert UndisturbedSince(log + [event], shared, a, |log|);
  }

  // ----- Steps -----------------------------------------------------------------------------------

  ghost predicate StoreConsistent(store: ReviewReceiptStore, i: nat, log: seq<Event>)
    reads store, if store.coordinator == null then {} else {store.coordinator.server}
  {
    && store.Valid()
    && StoreLog(log, i, store.items, store.evidence, store.spent, store.coordinator != null)
    && (store.coordinator == null ==> LocalLog(log, i, store.ends))
  }

  /** A store's place in the network. */
  ghost predicate At(server: Server, store: ReviewReceiptStore, i: nat, shared: seq<bool>) {
    && i < |shared| && shared[i] == (store.coordinator != null)
    && (store.coordinator != null ==> store.coordinator.server == server)
  }

  /** The log has at most one more event, of the given store. */
  ghost predicate Appends(log: seq<Event>, log': seq<Event>, i: nat) {
    log' == log || exists event: Event :: event.store == i && log' == log + [event]
  }

  /** What an issue leaves of the store's old receipts. */
  lemma {:induction false} FewerReceipts(log: seq<Event>, i: nat, items: map<Token, Receipt>, items': map<Token, Receipt>,
                                         evidence: map<Token, Evidence>, spent: set<Token>, shared: bool)
    requires StoreLog(log, i, items, evidence, spent, shared) && Submap(items, items')
    ensures StoreLog(log, i, items', evidence, spent, shared)
  {
  }

  lemma {:induction false} OneMoreReceipt(log: seq<Event>, i: nat, items: map<Token, Receipt>, items': map<Token, Receipt>,
                                          evidence: map<Token, Evidence>, evidence': map<Token, Evidence>,
                                          spent: set<Token>, shared: bool, t: Token)
    requires StoreLog(log, i, items, evidence, spent, shared)
    requires t in items' && t !in items && Submap(items, items' - {t})
    requires t in evidence' && evidence' == evidence[t := evidence'[t]]
    ensures StoreLog(log + [Issued(i, items'[t].key, Since(items'[t], evidence', t, shared), t)], i, items', evidence', spent, shared)
  {
    var event := Issued(i, items'[t].key, Since(items'[t], evidence', t, shared), t);
    forall u | u in items'
      ensures Issued(i, items'[u].key, Since(items'[u], evidence', u, shared), u) in log + [event]
    {
      if u != t {
        assert u in items' - {t};
        assert Issued(i, items[u].key, Since(items[u], evidence, u, shared), u) in log;
      }
    }
  }

  lemma {:induction false} EvictsSome(items: map<Token, Receipt>, items': map<Token, Receipt>, now: int)
    requires EvictsOldest(Unexpired(items, now), items')
    ensures Submap(items, items')
  {
  }

  lemma {:induction false} OneMoreReview(log: seq<Event>, shared: seq<bool>, run: seq<Command>, receipt: Receipt,
                                         evidence: map<Token, Evidence>, event: Event)
    requires SharedLog(log, shared, run) && event.Issued? && event.key == receipt.key && event.store < |shared|
    requires shared[event.store] && receipt.key.Some? ==> EvidencedAt(receipt, evidence, event.token, run)
    requires event.at == Since(receipt, evidence, event.token, shared[event.store])
    ensures SharedLog(log + [event], shared, run)
  {
  }

  lemma {:induction false} OneMoreLocalReview(log: seq<Event>, i: nat, ends: seq<Key>, event: Event)
    requires LocalLog(log, i, ends) && event.Issued? && event.at <= |ends|
    ensures LocalLog(log + [event], i, ends)
  {
  }

  method IssueStep(server: Server, store: ReviewReceiptStore, i: nat, session: string, intent: string, key: Option<Key>,
                   now: int, ghost log: seq<Event>, ghost shared: seq<bool>)
    returns (ghost log': seq<Event>)
    requires At(server, store, i, shared) && server.Valid()
    requires StoreConsistent(store, i, log) && SharedLog(log, shared, server.run) && Promises(log, shared)
    modifies store, store.Shared()
    ensures server.Valid() && old(server.run) <= server.run
    ensures StoreConsistent(store, i, log') && SharedLog(log', shared, server.run) && Promises(log', shared)
    ensures Appends(log, log', i)
  {
    hide Tokens, Counted, Evidenced, Run, Promises, SharedLog, LocalLog, StoreLog, EvictsOldest, EvidencedAt;
    ghost var run, items, evidence := server.run, store.items, store.evidence;
    var token := store.Issue(session, intent, key, now);
    SharedLogGrows(log, shared, run, server.run);
    log' := log;
    if token.Unavailable? {
      EvictsSome(items, store.items, now);
      FewerReceipts(log, i, items, store.items, evidence, store.spent, shared[i]);
    } else {
      var t := token.value;
      EvictsSome(items, store.items - {t}, now);
      ghost var event := Issued(i, key, Since(store.items[t], store.evidence, t, shared[i]), t);
      OneMoreEvent(log, shared, event);
      OneMoreReceipt(log, i, items, store.items, evidence, store.evidence, store.spent, shared[i], t);
      OneMoreReview(log, shared, server.run, store.items[t], store.evidence, event);
      if !shared[i] {
        OneMoreLocalReview(log, i, store.ends, event);
      }
      log' := log + [event];
    }
  }

  /** A stored receipt has not been used. */
  lemma {:induction false} StoredIsUnused(log: seq<Event>, i: nat, items: map<Token, Receipt>, evidence: map<Token, Evidence>,
                                          nextToken: Token, spent: set<Token>, shared: bool, t: Token)
    requires StoreLog(log, i, items, evidence, spent, shared) && Tokens(items, nextToken, spent) && t in items
    ensures forall a | 0 <= a < |log| && log[a].Used? && log[a].store == i :: log[a].token != t
    ensures Issued(i, items[t].key, Since(items[t], evidence, t, shared), t) in log
  {
  }

  lemma {:induction false} OneMoreUse(log: seq<Event>, i: nat, items: map<Token, Receipt>, items': map<Token, Receipt>,
                                      evidence: map<Token, Evidence>, spent: set<Token>, shared: bool, event: Event)
    requires StoreLog(log, i, items, evidence, spent, shared) && Submap(items, items')
    requires event.Used? && event.store == i
    ensures StoreLog(log + [event], i, items', evidence, spent + {event.token}, shared)
  {
    hide Since;
  }

  lemma {:induction false} SharedUse(log: seq<Event>, shared: seq<bool>, run: seq<Command>, run': seq<Command>,
                                     evidence: map<Token, Evidence>, event: Event, call: nat)
    requires Promises(log, shared) && SharedLog(log, shared, run) && run <= run'
    requires event.Used? && event.store < |shared| && shared[event.store] && event.key.Some? && event.key == event.receipt.key
    requires event.token in evidence && Spends(run', |run|, event.receipt, evidence[event.token], event.at, call)
    requires forall a | 0 <= a < |log| && log[a].Used? && log[a].store == event.store :: log[a].token != event.token
    requires Issued(event.store, event.key, Since(event.receipt, evidence, event.token, true), event.token) in log
    ensures Promises(log + [event], shared) && SharedLog(log + [event], shared, run')
  {
    hide Advances, Before, Earlier, DifferentRevisions;
    assert SharedEvent(event, run') by {
      assert Advances(run', event.at, event.key.value, event.receipt.epoch.value, event.receipt.revision.value);
    }
    SharedUseIsUndisturbed(log, shared, run, run', evidence[event.token].revisionAt, event);
    SharedLogGrows(log, shared, run, run');
    forall a | 0 <= a < |log| && OneHistory(shared, log[a].store, event.store)
      ensures log[a].key.Some? ==> Earlier(log[a], event)
      ensures log[a].Used? ==> DifferentRevisions(log[a].receipt, event.receipt)
    {
      if log[a].key.Some? {
        SharedEndIsLast(log, shared, run, run', a, event);
      } else {
        OtherResource(log, a, event);
      }
    }
    OneMoreEvent(log, shared, event);
  }

  lemma {:induction false} LocalUse(log: seq<Event>, shared: seq<bool>, ends: seq<Key>, evidence: map<Token, Evidence>, event: Event)
    requires Promises(log, shared) && LocalLog(log, event.store, ends)
    requires event.Used? && event.store < |shared| && !shared[event.store] && event.key.Some? && event.key == event.receipt.key
    requires event.at == |ends| && event.receipt.revision == Some(Count(ends, event.key.value))
    requires event.token in evidence && NotEndedSince(ends, evidence[event.token].endsAt, event.key.value)
    requires forall a | 0 <= a < |log| && log[a].Used? && log[a].store == event.store :: log[a].token != event.token
    requires Issued(event.store, event.key, Since(event.receipt, evidence, event.token, false), event.token) in log
    ensures Promises(log + [event], shared) && LocalLog(log + [event], event.store, ends + [event.key.value])
  {
    hide Count, Earlier, DifferentRevisions, NotEndedSince;
    assert (ends + [event.key.value])[..|ends|] == ends;
    LocalUseIsUndisturbed(log, shared, ends, evidence[event.token].endsAt, event);
    LocalLogGrows(log, event.store, ends, event.key.value);
    forall a | 0 <= a < |log| && OneHistory(shared, log[a].store, event.store)
      ensures log[a].key.Some? ==> Earlier(log[a], event)
      ensures log[a].Used? ==> DifferentRevisions(log[a].receipt, event.receipt)
    {
      if log[a].key.Some? {
        LocalEndIsLast(log, event.store, ends, a, event);
      } else {
        OtherResource(log, a, event);
      }
    }
    OneMoreEvent(log, shared, event);
  }

  lemma {:induction false} OtherResource(log: seq<Event>, a: nat, event: Event)
    requires Labelled(log) && a < |log| && log[a].key.None?
    ensures log[a].Used? && event.Used? ==> DifferentRevisions(log[a].receipt, event.receipt)
  {
  }

  /** A receipt without a resource. */
  lemma {:induction false} PlainUse(log: seq<Event>, shared: seq<bool>, event: Event)
    requires Promises(log, shared) && event.Used? && event.key.None? && event.receipt.key.None?
    requires forall a | 0 <= a < |log| && log[a].Used? && log[a].store == event.store :: log[a].token != event.token
    requires Issued(event.store, None, 0, event.token) in log
    ensures Promises(log + [event], shared)
    ensures forall run :: SharedLog(log, shared, run) ==> SharedLog(log + [event], shared, run)
    ensures forall ends :: LocalLog(log, event.store, ends) ==> LocalLog(log + [event], event.store, ends)
  {
    hide SharedEvent, LocalEvent;
    PlainUseIsUndisturbed(log, shared, 0, event);
    OneMoreEvent(log, shared, event);
  }

  /** The shared run's log does not look at a local event, and grows with the run. */
  lemma {:induction false} LocalEventIsLocal(log: seq<Event>, shared: seq<bool>, run: seq<Command>, event: Event)
    requires SharedLog(log, shared, run) && event.store < |shared| && !shared[event.store]
    ensures SharedLog(log + [event], shared, run)
  {
    hide SharedEvent;
  }

  method ConsumeStep(server: Server, store: ReviewReceiptStore, i: nat, token: Token, session: string, intent: string,
                     key: Option<Key>, now: int, call: nat, ghost log: seq<Event>, ghost shared: seq<bool>)
    returns (ghost log': seq<Event>)
    requires At(server, store, i, shared) && server.Valid()
    requires StoreConsistent(store, i, log) && SharedLog(log, shared, server.run) && Promises(log, shared)
    modifies store, store.Shared()
    ensures server.Valid() && old(server.run) <= server.run
    ensures StoreConsistent(store, i, log') && SharedLog(log', shared, server.run) && Promises(log', shared)
    ensures Appends(log, log', i)
  {
    hide Tokens, Counted, Evidenced, Run, Promises, SharedLog, LocalLog, StoreLog, NotEndedSince, Spends, Since, Unexpired;
    ghost var run, items, evidence, spent, nextToken, ends := server.run, store.items, store.evidence, store.spent, store.nextToken, store.ends;
    ghost var revisions := store.localRevisions;
    var outcome, position := store.Consume(token, session, intent, key, now, call);
    SharedLogGrows(log, shared, run, server.run);
    log' := log;
    if !outcome.Consumed? {
      LessExpired(items, store.items, {}, now);
      FewerReceipts(log, i, items, store.items, evidence, spent, shared[i]);
    } else {
      ghost var at := if key.None? then 0 else if shared[i] then position else |ends|;
      ghost var event := Used(i, key, at, token, items[token]);
      LessExpired(items, store.items, {token}, now);
      StoredIsUnused(log, i, items, evidence, nextToken, spent, shared[i], token);
      OneMoreUse(log, i, items, store.items, evidence, spent, shared[i], event);
      if key.None? {
        SinceOfPlain(items[token], evidence, token, shared[i]);
        PlainUse(log, shared, event);
      } else if shared[i] {
        KnownToken(items, evidence, token, run);
        SharedUse(log, shared, run, server.run, evidence, event, call);
      } else {
        CountedToken(items, evidence, revisions, ends, token);
        LocalUse(log, shared, ends, evidence, event);
        LocalEventIsLocal(log, shared, server.run, event);
      }
      log' := log + [event];
    }
  }

  lemma {:induction false} LessExpired(items: map<Token, Receipt>, items': map<Token, Receipt>, gone: set<Token>, now: int)
    requires items' == Unexpired(items, now) - gone
    ensures Submap(items, items')
  {
  }

  lemma {:induction false} SinceOfPlain(receipt: Receipt, evidence: map<Token, Evidence>, t: Token, shared: bool)
    requires receipt.key.None?
    ensures Since(receipt, evidence, t, shared) == 0
  {
  }

  lemma {:induction false} KnownToken(items: map<Token, Receipt>, evidence: map<Token, Evidence>, t: Token, run: seq<Command>)
    requires Evidenced(items, evidence, run) && t in items && items[t].key.Some?
    ensures t in evidence
  {
    assert EvidencedAt(items[t], evidence, t, run);
  }

  lemma {:induction false} CountedToken(items: map<Token, Receipt>, evidence: map<Token, Evidence>, revisions: map<Key, nat>,
                                        ends: seq<Key>, t: Token)
    requires Counted(items, evidence, revisions, ends) && t in items && items[t].key.Some?
    ensures t in evidence && Revision(revisions, items[t].key.value) == Count(ends, items[t].key.value)
  {
    assert CountedAt(items[t], evidence, t, ends);
  }

  lemma {:induction false} SharedEnd(log: seq<Event>, shared: seq<bool>, run: seq<Command>, run': seq<Command>,
                                     event: Event, epoch: Epoch, revision: nat)
    requires Promises(log, shared) && SharedLog(log, shared, run) && run <= run'
    requires event.Invalidated? && event.store < |shared| && shared[event.store] && event.key.Some?
    requires |run| <= event.at && Advances(run', event.at, event.key.value, epoch, revision)
    ensures Promises(log + [event], shared) && SharedLog(log + [event], shared, run')
  {
    hide Advances, Before, Earlier, DifferentRevisions;
    SharedLogGrows(log, shared, run, run');
    forall a | 0 <= a < |log| && log[a].key.Some? && OneHistory(shared, log[a].store, event.store)
      ensures Earlier(log[a], event)
    {
      AdvanceIsInside(run', event.at, event.key.value, epoch, revision);
      SharedEndIsLast(log, shared, run, run', a, event);
    }
    AdvanceIsInside(run', event.at, event.key.value, epoch, revision);
    OneMoreEvent(log, shared, event);
  }

  lemma {:induction false} AdvanceIsInside(run: seq<Command>, at: nat, key: Key, epoch: Epoch, revision: nat)
    requires Advances(run, at, key, epoch, revision)
    ensures at < |run|
  {
  }

  lemma {:induction false} LocalEnd(log: seq<Event>, shared: seq<bool>, ends: seq<Key>, event: Event)
    requires Promises(log, shared) && LocalLog(log, event.store, ends)
    requires event.Invalidated? && event.store < |shared| && !shared[event.store] && event.key.Some? && event.at == |ends|
    ensures Promises(log + [event], shared) && LocalLog(log + [event], event.store, ends + [event.key.value])
  {
    hide Count, Earlier;
    LocalLogGrows(log, event.store, ends, event.key.value);
    forall a | 0 <= a < |log| && log[a].key.Some? && OneHistory(shared, log[a].store, event.store)
      ensures Earlier(log[a], event)
    {
      LocalEndIsLast(log, event.store, ends, a, event);
    }
    OneMoreEvent(log, shared, event);
  }

  lemma {:induction false} OneMoreInvalidation(log: seq<Event>, i: nat, items: map<Token, Receipt>, evidence: map<Token, Evidence>,
                                               spent: set<Token>, shared: bool, event: Event)
    requires StoreLog(log, i, items, evidence, spent, shared) && event.Invalidated?
    ensures StoreLog(log + [event], i, items, evidence, spent, shared)
  {
  }

  method InvalidateStep(server: Server, store: ReviewReceiptStore, i: nat, key: Key, call: nat,
                        ghost log: seq<Event>, ghost shared: seq<bool>)
    returns (ghost log': seq<Event>)
    requires At(server, store, i, shared) && server.Valid()
    requires StoreConsistent(store, i, log) && SharedLog(log, shared, server.run) && Promises(log, shared)
    modifies store, store.Shared()
    ensures server.Valid() && old(server.run) <= server.run
    ensures StoreConsistent(store, i, log') && SharedLog(log', shared, server.run) && Promises(log', shared)
    ensures Appends(log, log', i)
  {
    hide Tokens, Counted, Evidenced, Run, Advances, Promises, SharedLog, LocalLog, StoreLog;
    ghost var run, ends := server.run, store.ends;
    var done, position, epoch, revision := store.Invalidate(key, call);
    SharedLogGrows(log, shared, run, server.run);
    log' := log;
    if done {
      ghost var event := Invalidated(i, Some(key), if shared[i] then position else |ends|);
      OneMoreInvalidation(log, i, store.items, store.evidence, store.spent, shared[i], event);
      if shared[i] {
        SharedEnd(log, shared, run, server.run, event, epoch, revision);
      } else {
        LocalEnd(log, shared, ends, event);
        LocalEventIsLocal(log, shared, server.run, event);
      }
      log' := log + [event];
    }
  }

  // ----- Whole runs --------------------------------------------------------------------------------

  /** Different stores, and one server behind all coordinators. */
  ghost predicate Network(server: Server, stores: seq<ReviewReceiptStore>, shared: seq<bool>) {
    && |shared| == |stores|
    && (forall i | 0 <= i < |stores| :: At(server, stores[i], i, shared))
    && forall i, j | 0 <= i < j < |stores| :: stores[i] != stores[j]
  }

  /** An event of another store leaves what is logged of a store as it was, while the shared run grows. */
  lemma {:induction false} OtherStoresLog(log: seq<Event>, log': seq<Event>, i: nat, j: nat, items: map<Token, Receipt>,
                                          evidence: map<Token, Evidence>, spent: set<Token>, shared: bool,
                                          run: seq<Command>, run': seq<Command>)
    requires Appends(log, log', i) && i != j && run <= run'
    requires StoreLog(log, j, items, evidence, spent, shared)
    ensures StoreLog(log', j, items, evidence, spent, shared)
    ensures forall ends :: LocalLog(log, j, ends) ==> LocalLog(log', j, ends)
    ensures Evidenced(items, evidence, run) ==> Evidenced(items, evidence, run')
  {
    hide EvidencedAt, Run, Since, LocalEvent;
    if Evidenced(items, evidence, run) {
      LongerRun(items, evidence, run, run');
    }
  }

  ghost function Coordinators(stores: seq<ReviewReceiptStore>): set<object> {
    set i | 0 <= i < |stores| && stores[i].coordinator != null :: stores[i].coordinator
  }

  ghost predicate Consistent(stores: seq<ReviewReceiptStore>, log: seq<Event>)
    reads stores, set i | 0 <= i < |stores| && stores[i].coordinator != null :: stores[i].coordinator.server
  {
    forall i | 0 <= i < |stores| :: StoreConsistent(stores[i], i, log)
  }

  method TakeStep(server: Server, stores: seq<ReviewReceiptStore>, i: nat, step: Step, now: int, call: nat,
                  ghost log: seq<Event>, ghost shared: seq<bool>)
    returns (ghost log': seq<Event>)
    requires Network(server, stores, shared) && i < |stores| && server.Valid()
    requires Consistent(stores, log) && SharedLog(log, shared, server.run) && Promises(log, shared)
    modifies stores[i], stores[i].Shared()
    ensures server.Valid() && old(server.run) <= server.run
    ensures Consistent(stores, log') && SharedLog(log', shared, server.run) && Promises(log', shared)
  {
    hide Promises, SharedLog, StoreLog, LocalLog, Tokens, Counted, Evidenced, Run, Appends;
    assert At(server, stores[i], i, shared);
    match step {
      case Issue(session, intent, key) =>
        log' := IssueStep(server, stores[i], i, session, intent, key, now, log, shared);
      case Consume(token, session, intent, key) =>
        log' := ConsumeStep(server, stores[i], i, token, session, intent, key, now, call, log, shared);
      case Invalidate(key) =>
        log' := InvalidateStep(server, stores[i], i, key, call, log, shared);
    }
    forall j | 0 <= j < |stores| && j != i
      ensures StoreConsistent(stores[j], j, log')
    {
      assert At(server, stores[j], j, shared);
      assert old(StoreConsistent(stores[j], j, log));
      OtherStoresLog(log, log', i, j, stores[j].items, stores[j].evidence, stores[j].spent, shared[j], old(server.run), server.run);
    }
  }

  /** Any steps of any stores in any order, with Redis failing and other processes interfering. */
  method RunStores(server: Server, stores: seq<ReviewReceiptStore>, ghost shared: seq<bool>, steps: seq<(nat, Step, int)>)
    returns (ghost log: seq<Event>)
    requires Network(server, stores, shared) && server.Valid()
    requires forall i | 0 <= i < |stores| :: stores[i].Valid() && stores[i].items == map[]
    requires forall i | 0 <= i < |steps| :: steps[i].0 < |stores|
    modifies server, stores, Coordinators(stores)
    ensures Consistent(stores, log) && SharedLog(log, shared, server.run)
    ensures TokensUsedOnce(log) && RevisionsUsedOnce(log, shared) && Undisturbed(log, shared)
  {
    hide SharedLog, StoreConsistent, Run, TokensUsedOnce, RevisionsUsedOnce, Undisturbed, Orderly, Labelled;
    log := [];
    NothingLogged(shared, server.run);
    forall i | 0 <= i < |stores|
      ensures StoreConsistent(stores[i], i, log)
    {
      NothingStored(stores[i], i);
    }
    for k := 0 to |steps|
      invariant server.Valid() && SharedLog(log, shared, server.run) && Promises(log, shared) && Consistent(stores, log)
    {
      var (i, step, now) := steps[k];
      assert stores[i].coordinator != null ==> stores[i].coordinator in Coordinators(stores);
      log := TakeStep(server, stores, i, step, now, k, log, shared);
    }
  }

  lemma {:induction false} NothingLogged(shared: seq<bool>, run: seq<Command>)
    ensures SharedLog([], shared, run) && Promises([], shared)
  {
  }

  lemma {:induction false} NothingStored(store: ReviewReceiptStore, i: nat)
    requires store.Valid() && store.items == map[]
    ensures StoreConsistent(store, i, [])
  {
  }

  /** On an ordinary run, where no command fails and nobody else touches the resource, a receipt is
      issued and consumed within its ten minutes, and only once. */
  method IssueThenConsume(store: ReviewReceiptStore, session: string, intent: string, key: Option<Key>, now: int, later: int, call: nat)
    returns (issued: bool, first: Outcome, second: Outcome)
    requires store.Valid() && now <= later < now + 600
    requires store.coordinator != null ==> store.coordinator.server.calm && store.coordinator.InStep()
    modifies store, store.Shared()
    ensures store.Valid() && issued && first == Consumed && second == Denied
  {
    hide ReviewReceiptStore.Valid, EvidencedAt, Run, Agrees, Spends, EvictsOldest;
    var token := store.Issue(session, intent, key, now);
    issued := token.Ok?;
    ghost var at;
    first, at := store.Consume(token.value, session, intent, key, later, call);
    second, at := store.Consume(token.value, session, intent, key, later, call + 1);
  }
}
